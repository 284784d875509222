/** The user-level thread library of aos/gthreads: the thread table, the calls that change
    it, and the round-robin scheduler. */
module RoundRobin {
  import Powers

  const MAX_THREADS: nat := 200

  /** The part of the library state that decides who runs: for every created slot whether it
      has exited, the slot that has the processor, the counter of active threads, and whether
      the scheduler loop has ended. */
  datatype Table = Table(exited: seq<bool>, curr: nat, active: int, halted: bool)

  /** A call of the running thread.  A yield is also what the timer signal does.  Thread ids
      are unique, so a thread is named by its slot. */
  datatype Call = Create | Yield | Exit | Cancel(slot: nat)

  /** The least live slot from i on, or |exited| if there is none. */
  function FirstLive(exited: seq<bool>, i: nat): (r: nat)
    requires i <= |exited|
    ensures i <= r <= |exited|
    ensures r < |exited| ==> !exited[r]
    ensures forall k | i <= k < r :: exited[k]
    decreases |exited| - i
  {
    if i == |exited| || !exited[i] then i else FirstLive(exited, i + 1)
  }

  /** The next live slot in cyclic order after c. */
  function NextLive(exited: seq<bool>, c: nat): nat
    requires c < |exited|
  {
    var r := FirstLive(exited, c + 1);
    if r < |exited| then r else FirstLive(exited, 0)
  }

  function Live(exited: seq<bool>): nat {
    if exited == [] then 0 else Live(exited[..|exited| - 1]) + if exited[|exited| - 1] then 0 else 1
  }

  /** nActiveThreads counts the created slots that have not exited. */
  predicate Accounted(t: Table) {
    && t.curr < |t.exited| <= MAX_THREADS
    && t.active == Live(t.exited)
    && (t.halted <==> t.active == 0)
    && (!t.halted ==> !t.exited[t.curr])
  }

  function Dispatch(t: Table): Table
    requires t.curr < |t.exited|
  {
    if t.active == 0 then t.(halted := true)
    else
      var next := NextLive(t.exited, t.curr);
      t.(curr := if next < |t.exited| then next else t.curr)
  }

  function Kill(t: Table, slot: nat): Table
    requires slot < |t.exited|
  {
    t.(exited := t.exited[slot := true], active := t.active - 1)
  }

  /** One call, up to the moment when the scheduler has handed the processor on. */
  function Apply(t: Table, call: Call): Table
    requires t.curr < |t.exited|
  {
    match call
    case Create =>
      if |t.exited| >= MAX_THREADS then t
      else t.(exited := t.exited + [false], active := t.active + 1)
    case Yield => Dispatch(t)
    case Exit => Dispatch(Kill(t, t.curr))
    case Cancel(slot) =>
      if 1 <= slot < |t.exited| && !t.exited[slot] then Dispatch(Kill(t, slot)) else t
  }

  /** Does this call hand the processor on? */
  predicate Switches(t: Table, call: Call) {
    && !Apply'(t, call).halted
    && match call
       case Create => false
       case Yield => true
       case Exit => true
       case Cancel(slot) => 1 <= slot < |t.exited| && !t.exited[slot]
  }

  function Apply'(t: Table, call: Call): Table {
    if t.curr < |t.exited| then Apply(t, call) else t
  }

  lemma {:induction false} LiveUpdate(exited: seq<bool>, slot: nat)
    requires slot < |exited| && !exited[slot]
    ensures Live(exited[slot := true]) == Live(exited) - 1
  {
    var last := |exited| - 1;
    if slot == last {
      assert exited[slot := true][..last] == exited[..last];
    } else {
      assert exited[slot := true][..last] == exited[..last][slot := true];
      LiveUpdate(exited[..last], slot);
    }
  }

  lemma {:induction false} LiveZero(exited: seq<bool>)
    ensures Live(exited) == 0 <==> forall k | 0 <= k < |exited| :: exited[k]
  {
    if exited != [] {
      LiveZero(exited[..|exited| - 1]);
      if Live(exited) == 0 {
        forall k | 0 <= k < |exited| ensures exited[k] {
          if k < |exited| - 1 {
            assert exited[..|exited| - 1][k];
          }
        }
      }
    }
  }

  /** While a thread lives, the scheduler finds one. */
  lemma DispatchFinds(t: Table)
    requires t.curr < |t.exited| && t.active == Live(t.exited) && t.active != 0
    ensures NextLive(t.exited, t.curr) < |t.exited| && !t.exited[NextLive(t.exited, t.curr)]
  {
    LiveZero(t.exited);
  }

  lemma LiveAppend(exited: seq<bool>)
    ensures Live(exited + [false]) == Live(exited) + 1
  {
    assert (exited + [false])[..|exited|] == exited;
  }

  /** Every call keeps the accounting; the scheduler stops exactly when no live thread is left. */
  lemma ApplyAccounted(t: Table, call: Call)
    requires Accounted(t) && !t.halted
    ensures Accounted(Apply(t, call))
    ensures Apply(t, call).halted <==> forall k | 0 <= k < |Apply(t, call).exited| :: Apply(t, call).exited[k]
  {
    LiveZero(Apply(t, call).exited);
    match call {
      case Create =>
        LiveAppend(t.exited);
      case Yield =>
        DispatchFinds(t);
      case Exit =>
        KillAccounted(t, t.curr);
      case Cancel(slot) =>
        if 1 <= slot < |t.exited| && !t.exited[slot] {
          KillAccounted(t, slot);
        }
    }
  }

  lemma KillAccounted(t: Table, slot: nat)
    requires Accounted(t) && !t.halted && slot < |t.exited| && !t.exited[slot]
    ensures Accounted(Dispatch(Kill(t, slot)))
  {
    LiveUpdate(t.exited, slot);
    if t.active != 1 {
      DispatchFinds(Kill(t, slot));
    }
  }

  // ---------------------------------------------------------------------------------
  // Whole runs.

  /** The table after a run; calls after the scheduler has stopped do not happen. */
  function Run(t: Table, calls: seq<Call>): Table {
    if calls == [] then t
    else
      var before := Run(t, calls[..|calls| - 1]);
      if before.halted then before else Apply'(before, calls[|calls| - 1])
  }

  /** The number of times slot b is given the processor in a run. */
  function Turns(t: Table, calls: seq<Call>, b: nat): nat {
    if calls == [] then 0
    else
      var pre := calls[..|calls| - 1];
      var before := Run(t, pre);
      Turns(t, pre, b) +
      if !before.halted && Switches(before, calls[|calls| - 1]) && Run(t, calls).curr == b then 1 else 0
  }

  /** Call number i of a run gives slot b the processor. */
  predicate GetsTurn(t: Table, calls: seq<Call>, i: nat, b: nat)
    requires i < |calls|
  {
    var before := Run(t, calls[..i]);
    !before.halted && Switches(before, calls[i]) && Run(t, calls[..i + 1]).curr == b
  }

  ghost function TurnsAt(t: Table, calls: seq<Call>, b: nat): set<nat> {
    set i | 0 <= i < |calls| && GetsTurn(t, calls, i, b)
  }

  lemma TurnKept(t: Table, calls: seq<Call>, pre: seq<Call>, i: nat, b: nat)
    requires calls != [] && pre == calls[..|calls| - 1] && i < |pre|
    ensures GetsTurn(t, calls, i, b) == GetsTurn(t, pre, i, b)
  {
    assert calls[..i] == pre[..i] && calls[..i + 1] == pre[..i + 1];
  }

  lemma LastTurn(t: Table, calls: seq<Call>, pre: seq<Call>, b: nat)
    requires calls != [] && pre == calls[..|calls| - 1]
    ensures Turns(t, calls, b) == Turns(t, pre, b) + if GetsTurn(t, calls, |pre|, b) then 1 else 0
  {
    assert calls[..|pre| + 1] == calls;
  }

  lemma TurnsMore(t: Table, calls: seq<Call>, pre: seq<Call>, b: nat)
    requires calls != [] && pre == calls[..|calls| - 1]
    ensures TurnsAt(t, calls, b) == TurnsAt(t, pre, b) + (if GetsTurn(t, calls, |pre|, b) then {|pre|} else {})
    ensures |pre| !in TurnsAt(t, pre, b)
  {
    forall i | 0 <= i < |pre| ensures GetsTurn(t, calls, i, b) == GetsTurn(t, pre, i, b) {
      TurnKept(t, calls, pre, i, b);
    }
  }

  /** Turns counts those calls. */
  lemma {:induction false} TurnsAreCounted(t: Table, calls: seq<Call>, b: nat)
    ensures Turns(t, calls, b) == |TurnsAt(t, calls, b)|
  {
    if calls != [] {
      var pre, n := calls[..|calls| - 1], |calls| - 1;
      TurnsAreCounted(t, pre, b);
      LastTurn(t, calls, pre, b);
      TurnsMore(t, calls, pre, b);
      MoreTurns(TurnsAt(t, calls, b), TurnsAt(t, pre, b), n, GetsTurn(t, calls, n, b));
    }
  }

  lemma MoreTurns(all: set<nat>, some: set<nat>, n: nat, last: bool)
    requires all == some + (if last then {n} else {}) && n !in some
    ensures |all| == |some| + if last then 1 else 0
  {
  }

  /** Slots are never closed, and an exited thread stays exited. */
  lemma ApplyGrows(t: Table, call: Call)
    requires t.curr < |t.exited|
    ensures |t.exited| <= |Apply(t, call).exited|
    ensures forall k | 0 <= k < |t.exited| && t.exited[k] :: Apply(t, call).exited[k]
  {
  }

  lemma {:induction false} RunAccounted(t: Table, calls: seq<Call>)
    requires Accounted(t)
    ensures Accounted(Run(t, calls))
    ensures |t.exited| <= |Run(t, calls).exited|
    ensures forall k | 0 <= k < |t.exited| && t.exited[k] :: Run(t, calls).exited[k]
  {
    if calls != [] {
      var pre := calls[..|calls| - 1];
      RunAccounted(t, pre);
      if !Run(t, pre).halted {
        ApplyAccounted(Run(t, pre), calls[|calls| - 1]);
        ApplyGrows(Run(t, pre), calls[|calls| - 1]);
      }
    }
  }

  /** Turns seen so far by a thread b that has not exited, in a run that starts with a turn of
      a and has not come back to a: the processor moves upwards from a, over the end, and
      upwards again to a, and passes no live thread. */
  function Expected(a: nat, b: nat, curr: nat): nat {
    if curr >= a then (if a < b <= curr then 1 else 0) else (if b > a || b <= curr then 1 else 0)
  }

  lemma {:induction false} TurnsSoFar(t: Table, calls: seq<Call>, a: nat, b: nat)
    requires Accounted(t) && !t.halted && t.curr == a && b < |t.exited| && b != a
    requires Turns(t, calls, a) == 0
    requires var end := Run(t, calls); |t.exited| <= |end.exited| && !end.exited[a] && !end.exited[b]
    ensures var end := Run(t, calls); !end.halted && Turns(t, calls, b) == Expected(a, b, end.curr)
  {
    if calls != [] {
      var pre, call := calls[..|calls| - 1], calls[|calls| - 1];
      var before := Run(t, pre);
      RunAccounted(t, pre);
      if before.halted {
        LiveZero(before.exited);
      } else {
        ApplyGrows(before, call);
      }
      TurnsSoFar(t, pre, a, b);
      OneCall(before, call, a, b);
    }
  }

  /** One call's effect on the expected number of turns. */
  lemma OneCall(t: Table, call: Call, a: nat, b: nat)
    requires Accounted(t) && !t.halted && a < |t.exited| && b < |t.exited| && a != b
    requires !Apply(t, call).exited[a] && !Apply(t, call).exited[b]
    ensures !Apply(t, call).halted
    ensures var now := Apply(t, call).curr;
            if !Switches(t, call) then now == t.curr
            else if now == a then Expected(a, b, t.curr) == 1
            else Expected(a, b, now) == Expected(a, b, t.curr) + if now == b then 1 else 0
  {
    ApplyAccounted(t, call);
    var t' := Apply(t, call);
    if Switches(t, call) {
      HandedTo(t, call);
    }
  }

  /** Fairness: between two consecutive turns of a live thread a, every other thread that
      existed at the first and is still live at the second gets exactly one turn, whatever
      is created, exits or is cancelled in between. */
  lemma OneTurnEach(t: Table, calls: seq<Call>, a: nat, b: nat)
    requires Accounted(t) && !t.halted && t.curr == a && b < |t.exited| && b != a
    requires calls != [] && Turns(t, calls[..|calls| - 1], a) == 0 && Turns(t, calls, a) == 1
    requires var end := Run(t, calls); |t.exited| <= |end.exited| && !end.exited[a] && !end.exited[b]
    ensures Turns(t, calls, b) == 1
  {
    var pre, call := calls[..|calls| - 1], calls[|calls| - 1];
    var before := Run(t, pre);
    RunAccounted(t, pre);
    ApplyAccounted(before, call);
    TurnsSoFar(t, pre, a, b);
    OneCall(before, call, a, b);
  }

  // ---------------------------------------------------------------------------------
  // Who ends, and who is next.

  /** The call ends the thread in slot k. */
  predicate Ends(t: Table, call: Call, k: nat) {
    (call == Exit && k == t.curr) || (call == Cancel(k) && 1 <= k < |t.exited|)
  }

  /** A call ends the calling thread, or the thread in the slot that is cancelled, and no other; a
      new slot is opened only by a create, up to 200 of them, and is live. */
  lemma CallMeans(t: Table, call: Call)
    requires Accounted(t) && !t.halted
    ensures var t' := Apply(t, call);
            && |t'.exited| == |t.exited| + (if call == Create && |t.exited| < 200 then 1 else 0)
            && (forall k | 0 <= k < |t.exited| :: t'.exited[k] <==> t.exited[k] || Ends(t, call, k))
            && (|t'.exited| > |t.exited| ==> !t'.exited[|t.exited|])
  {
  }

  /** Slot k has ended in a run: at some call before the scheduler stopped. */
  ghost predicate Ended(t: Table, calls: seq<Call>, k: nat) {
    exists i :: 0 <= i < |calls| && !Run(t, calls[..i]).halted && Ends(Run(t, calls[..i]), calls[i], k)
  }

  lemma EndedMore(t: Table, pre: seq<Call>, call: Call, k: nat)
    ensures Ended(t, pre + [call], k) <==> Ended(t, pre, k) || (!Run(t, pre).halted && Ends(Run(t, pre), call, k))
  {
    var calls := pre + [call];
    assert calls[..|pre|] == pre && calls[|pre|] == call;
    assert forall i | 0 <= i < |pre| :: calls[..i] == pre[..i] && calls[i] == pre[i];
  }

  /** Over whole runs, a slot has exited at the end exactly if it had at the start, or an exit was
      called while it had the processor, or it was cancelled while it was open and not slot 0. */
  lemma {:induction false} ExitedIff(t: Table, calls: seq<Call>, k: nat)
    requires Accounted(t) && k < |Run(t, calls).exited|
    ensures Run(t, calls).exited[k] <==> (k < |t.exited| && t.exited[k]) || Ended(t, calls, k)
  {
    if calls != [] {
      var pre, call := calls[..|calls| - 1], calls[|calls| - 1];
      assert calls == pre + [call];
      EndedMore(t, pre, call, k);
      RunAccounted(t, pre);
      var before := Run(t, pre);
      if !before.halted {
        CallMeans(before, call);
      }
      if k < |before.exited| {
        ExitedIff(t, pre, k);
      } else {
        NotOpened(t, pre, k);
      }
    }
  }

  /** What has not been opened has not ended. */
  lemma {:induction false} NotOpened(t: Table, calls: seq<Call>, k: nat)
    requires Accounted(t) && k >= |Run(t, calls).exited|
    ensures k >= |t.exited| && !Ended(t, calls, k)
  {
    if calls != [] {
      var pre, call := calls[..|calls| - 1], calls[|calls| - 1];
      assert calls == pre + [call];
      EndedMore(t, pre, call, k);
      RunAccounted(t, pre);
      if !Run(t, pre).halted {
        ApplyGrows(Run(t, pre), call);
      }
      NotOpened(t, pre, k);
    }
  }

  /** Slot j comes d places behind slot c, counting on from the last slot to slot 0. */
  predicate Behind(c: nat, d: nat, j: nat, n: nat) { j == if c + d < n then c + d else c + d - n }

  /** A call that gives up the processor hands it to the first live slot behind, the caller's own
      being the last; all others leave it where it is. */
  lemma HandsOn(t: Table, call: Call) returns (d: nat)
    requires Accounted(t) && !t.halted && !Apply(t, call).halted
    ensures var t', n := Apply(t, call), |t.exited|;
            if call == Yield || call == Exit || (call.Cancel? && 1 <= call.slot < n && !t.exited[call.slot]) then
              && 1 <= d <= n && Behind(t.curr, d, t'.curr, n) && t'.curr < n && !t'.exited[t'.curr]
              && (forall e, j | 1 <= e < d && 0 <= j < n && Behind(t.curr, e, j, n) :: t'.exited[j])
            else t'.curr == t.curr
  {
    var t', n := Apply(t, call), |t.exited|;
    d := if t'.curr > t.curr then t'.curr - t.curr else t'.curr + n - t.curr;
    ApplyAccounted(t, call);
    if Switches(t, call) {
      HandedTo(t, call);
    }
  }

  lemma HandedTo(t: Table, call: Call)
    requires Accounted(t) && !t.halted && Switches(t, call)
    ensures Apply(t, call).curr == NextLive(Apply(t, call).exited, t.curr) < |t.exited| == |Apply(t, call).exited|
  {
    match call {
      case Yield => DispatchFinds(t);
      case Exit => LiveUpdate(t.exited, t.curr); DispatchFinds(Kill(t, t.curr));
      case Cancel(slot) => LiveUpdate(t.exited, slot); DispatchFinds(Kill(t, slot));
    }
  }

  // ---------------------------------------------------------------------------------
  // The library itself.

  lemma SkipExited(exited: seq<bool>, c: nat)
    requires c < |exited|
    ensures var next := if c + 1 < |exited| then c + 1 else 0;
            if exited[next] then NextLive(exited, next) == NextLive(exited, c) else NextLive(exited, c) == next
  {
    if c + 1 == |exited| && exited[0] {
      assert FirstLive(exited, 0) == FirstLive(exited, 1);
    }
  }

  class Library {
    var exited: array<bool>
    var curr: nat
    var total: nat
    var tail: nat
    var active: int
    var halted: bool

    ghost predicate Valid()
      reads this, exited
    {
      exited.Length == MAX_THREADS && curr < total == tail <= MAX_THREADS && Accounted(Abs())
    }

    ghost function Abs(): Table
      reads this, exited
      requires total <= exited.Length
    {
      Table(exited[..total], curr, active, halted)
    }

    /** gtthread_init: the calling thread becomes slot 0. */
    constructor ()
      ensures Valid() && fresh(exited) && Abs() == Table([false], 0, 1, false)
    {
      exited := new bool[MAX_THREADS](i => false);
      curr, total, tail, active, halted := 0, 1, 1, 1, false;
      new;
      assert exited[..total] == [false];
      assert Live([false]) == Live([]) + 1 by { LiveAppend([]); assert [] + [false] == [false]; }
    }

    /** From the return of swapcontext in the scheduler loop to the next swap, or to the end
        of the loop. */
    method Schedule()
      requires exited.Length == MAX_THREADS && curr < total == tail <= MAX_THREADS && !halted
      requires active == Live(exited[..total])
      modifies this`curr, this`halted
      ensures Abs() == Dispatch(old(Abs()))
    {
      if active == 0 {
        halted := true;
        return;
      }
      ghost var table := exited[..total];
      ghost var target := NextLive(table, curr);
      DispatchFinds(Abs());
      while true
        invariant curr < total && !halted && table == exited[..total]
        invariant NextLive(table, curr) == target < total
        decreases if curr < target then target - curr else total - curr + target
      {
        SkipExited(table, curr);
        Powers.ModOnce(total, total);
        curr := curr + 1;
        if curr >= total {
          curr := curr % total;
        }
        if !exited[curr] {
          return;
        }
        if active == 0 {
          // The test after an exited slot never ends the loop: the counter has not changed.
          assert false;
        }
      }
    }

    /** Returns -1 when the table is full, and otherwise opens a slot. */
    method Create() returns (rc: int)
      requires Valid() && !halted
      modifies this`total, this`tail, this`active, exited
      ensures Valid() && Abs() == Apply(old(Abs()), Call.Create)
      ensures rc == if old(total) >= MAX_THREADS then -1 else 0
    {
      ApplyAccounted(Abs(), Call.Create);
      if total >= MAX_THREADS {
        return -1;
      }
      exited[tail] := false;
      tail := tail + 1;
      total := total + 1;
      active := active + 1;
      rc := 0;
      assert exited[..total] == old(exited[..total]) + [false];
    }

    method Yield()
      requires Valid() && !halted
      modifies this`curr, this`halted
      ensures Valid() && Abs() == Apply(old(Abs()), Call.Yield)
    {
      ApplyAccounted(Abs(), Call.Yield);
      Schedule();
    }

    method Exit()
      requires Valid() && !halted
      modifies this`curr, this`halted, this`active, exited
      ensures Valid() && Abs() == Apply(old(Abs()), Call.Exit)
    {
      ApplyAccounted(Abs(), Call.Exit);
      LiveUpdate(exited[..total], curr);
      exited[curr] := true;
      assert exited[..total] == old(exited[..total])[curr := true];
      active := active - 1;
      Schedule();
    }

    /** Slot 0, the main thread, is never found by the search.  When the slot is found the
        caller's own return is lost with the local context it is saved in. */
    method Cancel(slot: nat) returns (found: bool)
      requires Valid() && !halted
      modifies this`curr, this`halted, this`active, exited
      ensures Valid() && Abs() == Apply(old(Abs()), Call.Cancel(slot))
      ensures found == (1 <= slot < total && !old(exited[..total])[slot])
    {
      ApplyAccounted(Abs(), Call.Cancel(slot));
      found := false;
      var i := 1;
      while i < total
        invariant 1 <= i <= total && !found && unchanged(this) && unchanged(exited)
        invariant slot < i ==> slot == 0 || exited[slot]
      {
        if i == slot && !exited[i] {
          LiveUpdate(exited[..total], slot);
          exited[i] := true;
          assert exited[..total] == old(exited[..total])[slot := true];
          active := active - 1;
          found := true;
          Schedule();
          return;
        }
        i := i + 1;
      }
    }
  }
}

/** Threads that each take two mutexes in descending order, as the philosophers of
    aos/gthreads/runner.c do, with the spinning mutex of gtthread_mutex.c. */
module ForkOrder {

  /** The two mutexes of a thread: `left` is taken first and released last. */
  datatype Forks = Forks(left: nat, right: nat)

  /** Where a thread stands in its loop. */
  datatype Pc = WantLeft | WantRight | HasBoth | HasLeft

  /** `lock` is the lock field of each mutex. */
  datatype State = State(pcs: seq<Pc>, lock: seq<bool>)

  /** runner.c: the forks of philosophers 1 to 5, with Res1 to Res5 numbered 0 to 4. */
  const Philosophers: seq<Forks> := [Forks(4, 0), Forks(1, 0), Forks(2, 1), Forks(3, 2), Forks(4, 3)]

  predicate Descending(cfg: seq<Forks>, mutexes: nat) {
    forall t | 0 <= t < |cfg| :: cfg[t].right < cfg[t].left < mutexes
  }

  function Init(cfg: seq<Forks>, mutexes: nat): State {
    State(seq(|cfg|, i => WantLeft), seq(mutexes, i => false))
  }

  predicate Shaped(cfg: seq<Forks>, mutexes: nat, s: State) {
    |s.pcs| == |cfg| && |s.lock| == mutexes
  }

  /** The mutex a thread is about to test and set, if it is in gtthread_mutex_lock. */
  function Wanted(f: Forks, pc: Pc): nat {
    if pc == WantLeft then f.left else f.right
  }

  /** One turn of thread t.  A test-and-set that finds the lock taken writes 1 over 1 and
      yields, so the state stays as it is. */
  function Turn(cfg: seq<Forks>, mutexes: nat, s: State, t: nat): State
    requires Descending(cfg, mutexes) && Shaped(cfg, mutexes, s) && t < |cfg|
  {
    var f := cfg[t];
    match s.pcs[t]
    case WantLeft => if s.lock[f.left] then s else State(s.pcs[t := WantRight], s.lock[f.left := true])
    case WantRight => if s.lock[f.right] then s else State(s.pcs[t := HasBoth], s.lock[f.right := true])
    case HasBoth => State(s.pcs[t := HasLeft], s.lock[f.right := false])
    case HasLeft => State(s.pcs[t := WantLeft], s.lock[f.left := false])
  }

  predicate Advances(cfg: seq<Forks>, mutexes: nat, s: State, t: nat)
    requires Descending(cfg, mutexes) && Shaped(cfg, mutexes, s) && t < |cfg|
  {
    Turn(cfg, mutexes, s, t) != s
  }

  predicate Holds(cfg: seq<Forks>, s: State, t: nat, m: nat)
    requires t < |cfg| == |s.pcs|
  {
    (s.pcs[t] != WantLeft && m == cfg[t].left) || (s.pcs[t] == HasBoth && m == cfg[t].right)
  }

  /** Mutual exclusion, and a set lock has a holder. */
  ghost predicate Inv(cfg: seq<Forks>, mutexes: nat, s: State) {
    && Shaped(cfg, mutexes, s)
    && (forall t, u, m | 0 <= t < |cfg| && 0 <= u < |cfg| && Holds(cfg, s, t, m) && Holds(cfg, s, u, m) :: t == u)
    && (forall t, m | 0 <= t < |cfg| && 0 <= m < mutexes && Holds(cfg, s, t, m) :: s.lock[m])
    && (forall m | 0 <= m < mutexes && s.lock[m] :: exists t :: 0 <= t < |cfg| && Holds(cfg, s, t, m))
  }

  lemma HoldsAfterTurn(cfg: seq<Forks>, mutexes: nat, s: State, t: nat, u: nat, m: nat)
    requires Descending(cfg, mutexes) && Shaped(cfg, mutexes, s) && t < |cfg| && u < |cfg|
    ensures u != t ==> (Holds(cfg, Turn(cfg, mutexes, s, t), u, m) <==> Holds(cfg, s, u, m))
    ensures Holds(cfg, Turn(cfg, mutexes, s, t), t, m) <==>
              if m == Wanted(cfg[t], s.pcs[t]) && s.pcs[t] in {WantLeft, WantRight} && !s.lock[m] then true
              else if (s.pcs[t] == HasBoth && m == cfg[t].right) || (s.pcs[t] == HasLeft && m == cfg[t].left) then false
              else Holds(cfg, s, t, m)
  {
  }

  lemma TurnInv(cfg: seq<Forks>, mutexes: nat, s: State, t: nat)
    requires Descending(cfg, mutexes) && Inv(cfg, mutexes, s) && t < |cfg|
    ensures Inv(cfg, mutexes, Turn(cfg, mutexes, s, t))
  {
    var s' := Turn(cfg, mutexes, s, t);
    forall u, m: nat | 0 <= u < |cfg|
      ensures Holds(cfg, s', u, m) ==> Holds(cfg, s, u, m) || (u == t && m < mutexes && !s.lock[m])
      ensures u != t ==> (Holds(cfg, s', u, m) <==> Holds(cfg, s, u, m))
    {
      HoldsAfterTurn(cfg, mutexes, s, t, u, m);
    }
    forall u, m | 0 <= u < |cfg| && 0 <= m < mutexes && Holds(cfg, s', u, m) ensures s'.lock[m] {
      HoldsAfterTurn(cfg, mutexes, s, t, u, m);
      if u != t {
        assert Holds(cfg, s, u, m) && !Holds(cfg, s, t, m);
      }
    }
    forall m | 0 <= m < mutexes && s'.lock[m] ensures exists u :: 0 <= u < |cfg| && Holds(cfg, s', u, m) {
      if s.lock[m] {
        var u :| 0 <= u < |cfg| && Holds(cfg, s, u, m);
        HoldsAfterTurn(cfg, mutexes, s, t, u, m);
        assert Holds(cfg, s', u, m);
      } else {
        assert Holds(cfg, s', t, m);
      }
    }
  }

  /** The state after any sequence of turns. */
  function Run(cfg: seq<Forks>, mutexes: nat, s: State, turns: seq<nat>): (r: State)
    requires Descending(cfg, mutexes) && Shaped(cfg, mutexes, s)
    requires forall i | 0 <= i < |turns| :: turns[i] < |cfg|
    ensures Shaped(cfg, mutexes, r)
    decreases |turns|
  {
    if turns == [] then s else Run(cfg, mutexes, Turn(cfg, mutexes, s, turns[0]), turns[1..])
  }

  /** Mutual exclusion in every reachable state. */
  lemma {:induction false} RunInv(cfg: seq<Forks>, mutexes: nat, s: State, turns: seq<nat>)
    requires Descending(cfg, mutexes) && Inv(cfg, mutexes, s)
    requires forall i | 0 <= i < |turns| :: turns[i] < |cfg|
    ensures Inv(cfg, mutexes, Run(cfg, mutexes, s, turns))
    decreases |turns|
  {
    if turns != [] {
      TurnInv(cfg, mutexes, s, turns[0]);
      RunInv(cfg, mutexes, Turn(cfg, mutexes, s, turns[0]), turns[1..]);
    }
  }

  /** Following the wait chain down the order reaches a thread that can move. */
  lemma {:induction false} Unblock(cfg: seq<Forks>, mutexes: nat, s: State, t: nat) returns (u: nat)
    requires Descending(cfg, mutexes) && Inv(cfg, mutexes, s) && t < |cfg|
    ensures u < |cfg| && Advances(cfg, mutexes, s, u)
    decreases if s.pcs[t] == WantLeft then mutexes else cfg[t].right
  {
    if Advances(cfg, mutexes, s, t) {
      return t;
    }
    var m := Wanted(cfg[t], s.pcs[t]);
    var h :| 0 <= h < |cfg| && Holds(cfg, s, h, m);
    if Advances(cfg, mutexes, s, h) {
      return h;
    }
    assert s.pcs[h] == WantRight;
    u := Unblock(cfg, mutexes, s, h);
  }

  /** No deadlock: in every reachable state some thread can take a lock or release one. */
  lemma NoDeadlock(cfg: seq<Forks>, mutexes: nat, turns: seq<nat>)
    requires Descending(cfg, mutexes) && cfg != []
    requires forall i | 0 <= i < |turns| :: turns[i] < |cfg|
    ensures var s := Run(cfg, mutexes, Init(cfg, mutexes), turns);
            && Inv(cfg, mutexes, s)
            && exists t :: 0 <= t < |cfg| && Advances(cfg, mutexes, s, t)
  {
    var s0 := Init(cfg, mutexes);
    assert Inv(cfg, mutexes, s0);
    RunInv(cfg, mutexes, s0, turns);
    var u := Unblock(cfg, mutexes, Run(cfg, mutexes, s0, turns), 0);
  }

  /** Under round robin the mutexes make progress: a pass that gives every thread a turn
      changes the state. */
  lemma PassMakesProgress(cfg: seq<Forks>, mutexes: nat, turns: seq<nat>, pass: seq<nat>)
    requires Descending(cfg, mutexes) && cfg != []
    requires forall i | 0 <= i < |turns| :: turns[i] < |cfg|
    requires forall i | 0 <= i < |pass| :: pass[i] < |cfg|
    requires forall t: nat | t < |cfg| :: t in pass
    ensures var s := Run(cfg, mutexes, Init(cfg, mutexes), turns);
            exists k :: 0 <= k < |pass| && Run(cfg, mutexes, s, pass[..k]) == s && Advances(cfg, mutexes, s, pass[k])
  {
    NoDeadlock(cfg, mutexes, turns);
    var k := PassMoves(cfg, mutexes, Run(cfg, mutexes, Init(cfg, mutexes), turns), pass);
  }

  lemma PassMoves(cfg: seq<Forks>, mutexes: nat, s: State, pass: seq<nat>) returns (k: nat)
    requires Descending(cfg, mutexes) && Inv(cfg, mutexes, s) && cfg != []
    requires forall i | 0 <= i < |pass| :: pass[i] < |cfg|
    requires forall t: nat | t < |cfg| :: t in pass
    ensures k < |pass| && Run(cfg, mutexes, s, pass[..k]) == s && Advances(cfg, mutexes, s, pass[k])
  {
    var t := Unblock(cfg, mutexes, s, 0);
    assert t in pass;
    var i :| 0 <= i < |pass| && pass[i] == t;
    k := FirstMove(cfg, mutexes, s, pass, i);
  }

  lemma {:induction false} FirstMove(cfg: seq<Forks>, mutexes: nat, s: State, pass: seq<nat>, i: nat) returns (k: nat)
    requires Descending(cfg, mutexes) && Shaped(cfg, mutexes, s)
    requires forall j | 0 <= j < |pass| :: pass[j] < |cfg|
    requires i < |pass| && Advances(cfg, mutexes, s, pass[i])
    ensures k < |pass| && Run(cfg, mutexes, s, pass[..k]) == s && Advances(cfg, mutexes, s, pass[k])
    decreases |pass|
  {
    if Advances(cfg, mutexes, s, pass[0]) {
      k := 0;
    } else {
      var j := FirstMove(cfg, mutexes, s, pass[1..], i - 1);
      k := j + 1;
      assert pass[..k][1..] == pass[1..][..j];
    }
  }

  /** The fork table of runner.c meets the ordering, so its philosophers never deadlock. */
  lemma PhilosophersAreSafe(turns: seq<nat>)
    requires forall i | 0 <= i < |turns| :: turns[i] < |Philosophers|
    ensures Descending(Philosophers, 5)
    ensures var s := Run(Philosophers, 5, Init(Philosophers, 5), turns);
            exists t :: 0 <= t < |Philosophers| && Advances(Philosophers, 5, s, t)
  {
    NoDeadlock(Philosophers, 5, turns);
  }

  /** In no reachable state do two threads that share a mutex hold both of theirs. */
  lemma EatsAlone(cfg: seq<Forks>, mutexes: nat, turns: seq<nat>, t: nat, u: nat, m: nat)
    requires Descending(cfg, mutexes) && t < |cfg| && u < |cfg| && t != u
    requires forall i | 0 <= i < |turns| :: turns[i] < |cfg|
    requires (m == cfg[t].left || m == cfg[t].right) && (m == cfg[u].left || m == cfg[u].right)
    ensures var s := Run(cfg, mutexes, Init(cfg, mutexes), turns); !(s.pcs[t] == HasBoth && s.pcs[u] == HasBoth)
  {
    assert Inv(cfg, mutexes, Init(cfg, mutexes));
    RunInv(cfg, mutexes, Init(cfg, mutexes), turns);
    var s := Run(cfg, mutexes, Init(cfg, mutexes), turns);
    assert s.pcs[t] == HasBoth ==> Holds(cfg, s, t, m);
    assert s.pcs[u] == HasBoth ==> Holds(cfg, s, u, m);
  }

  /** The forks of runner.c lie around a table: philosopher i has fork i and the one before it, and
      takes the higher one first. */
  lemma ForksLieAround(i: nat)
    requires i < 5
    ensures |Philosophers| == 5 && Philosophers[i] == if i == 0 then Forks(4, 0) else Forks(i, i - 1)
  {
  }

  /** So no two neighbours ever eat at the same time. */
  lemma NeighboursEatInTurn(turns: seq<nat>, i: nat, j: nat)
    requires (forall k | 0 <= k < |turns| :: turns[k] < |Philosophers|) && i < 5 && j == if i < 4 then i + 1 else 0
    ensures |Philosophers| == 5 && Descending(Philosophers, 5)
    ensures var s := Run(Philosophers, 5, Init(Philosophers, 5), turns);
            !(s.pcs[i] == HasBoth && s.pcs[j] == HasBoth)
  {
    ForksLieAround(i);
    ForksLieAround(j);
    EatsAlone(Philosophers, 5, turns, i, j, i);
  }
}
