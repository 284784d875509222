/** N asynchronous processes, each of which runs the same straight-line program of
    blocking sends and receives once per barrier, over FIFO channels.  This is the
    machine on which both MPI barriers run; the two barrier modules only supply the
    programs. */
module MessagePassing {

  import opened Wrappers
  import Powers

  /** One MPI call: MPI_Send to `dst`, or MPI_Irecv followed by MPI_Wait from `src`. */
  datatype Action = Send(dst: nat, tag: nat) | Recv(src: nat, tag: nat)

  /** `epoch` barriers are behind this process.  It is either between two calls of the
      barrier, or inside call number `epoch` with `pc` actions of its program done. */
  datatype Proc = Outside(epoch: nat) | Inside(epoch: nat, pc: nat)

  datatype Channel = Channel(src: nat, dst: nat, tag: nat)

  /** The programs, one per rank, and the number of times main repeats the barrier. */
  datatype Config = Config(prog: seq<seq<Action>>, barriers: nat)

  /** The payload of a message is never read by the programs.  Each message is stamped
      with the number of the barrier in which it was sent, so that the matching of
      sends and receives across barriers can be stated. */
  datatype State = State(procs: seq<Proc>, chans: map<Channel, seq<nat>>)

  function Pending(s: State, ch: Channel): seq<nat> {
    if ch in s.chans then s.chans[ch] else []
  }

  function Init(c: Config): State {
    State(seq(|c.prog|, i => Outside(0)), map[])
  }

  /** The action that process `p` would execute next. */
  predicate At(c: Config, s: State, p: nat, a: Action) {
    && p < |s.procs| == |c.prog|
    && s.procs[p].Inside?
    && s.procs[p].pc < |c.prog[p]|
    && c.prog[p][s.procs[p].pc] == a
  }

  predicate CanStep(c: Config, s: State, p: nat) {
    && p < |s.procs| == |c.prog|
    && match s.procs[p]
       case Outside(e) => e < c.barriers
       case Inside(e, pc) =>
         pc < |c.prog[p]| ==>
           var a := c.prog[p][pc];
           a.Recv? ==> Pending(s, Channel(a.src, p, a.tag)) != []
  }

  function Step(c: Config, s: State, p: nat): State
    requires CanStep(c, s, p)
  {
    match s.procs[p]
    case Outside(e) => s.(procs := s.procs[p := Inside(e, 0)])
    case Inside(e, pc) =>
      if pc >= |c.prog[p]| then
        s.(procs := s.procs[p := Outside(e + 1)])
      else
        var a := c.prog[p][pc];
        var ch := if a.Send? then Channel(p, a.dst, a.tag) else Channel(a.src, p, a.tag);
        var q := if a.Send? then Pending(s, ch) + [e] else Pending(s, ch)[1..];
        State(s.procs[p := Inside(e, pc + 1)], s.chans[ch := q])
  }

  /** The state after a schedule, if every process in it was able to move in its turn.
      A run is a schedule for which this is not None. */
  function After(c: Config, sched: seq<nat>): Option<State> {
    if sched == [] then Some(Init(c))
    else
      var before := After(c, sched[..|sched| - 1]);
      var p := sched[|sched| - 1];
      if before.Some? && CanStep(c, before.value, p) then Some(Step(c, before.value, p)) else None
  }

  // What a state says about barrier number e.

  predicate Entered(s: State, p: nat, e: nat)
    requires p < |s.procs|
  {
    s.procs[p].epoch > e || (s.procs[p].epoch == e && s.procs[p].Inside?)
  }

  predicate Left(s: State, p: nat, e: nat)
    requires p < |s.procs|
  {
    s.procs[p].epoch > e
  }

  /** Process p has executed its first `count` actions of barrier e. */
  predicate Passed(s: State, p: nat, e: nat, count: nat)
    requires p < |s.procs|
  {
    s.procs[p].epoch > e || (s.procs[p].epoch == e && s.procs[p].Inside? && s.procs[p].pc >= count)
  }

  /** The number of barriers in which p has executed `a`, for an action of its program. */
  function Times(c: Config, s: State, p: nat, a: Action): nat
    requires p < |s.procs| == |c.prog|
  {
    s.procs[p].epoch +
    if s.procs[p].Inside? && s.procs[p].pc <= |c.prog[p]| && a in c.prog[p][..s.procs[p].pc] then 1 else 0
  }

  predicate Finished(c: Config, s: State) {
    forall p | 0 <= p < |s.procs| :: s.procs[p] == Outside(c.barriers)
  }

  // ---------------------------------------------------------------------------------
  // Programs whose sends and receives match and whose waiting is acyclic.

  /** The actions of process p stand in rising rank. */
  ghost predicate Ordered(rank: (nat, Action) -> nat, p: nat, acts: seq<Action>) {
    forall i, j | 0 <= i < j < |acts| :: rank(p, acts[i]) < rank(p, acts[j])
  }

  /** Every action has its partner in the program of the other process, and `rank` orders
      the actions of each process as they are executed and every send before its receive. */
  ghost predicate WellFormed(c: Config, rank: (nat, Action) -> nat) {
    && (forall p | 0 <= p < |c.prog| :: Ordered(rank, p, c.prog[p]))
    && (forall p, a | 0 <= p < |c.prog| && a in c.prog[p] :: Partnered(c, rank, p, a))
  }

  ghost predicate Partnered(c: Config, rank: (nat, Action) -> nat, p: nat, a: Action) {
    match a
    case Send(d, t) => d < |c.prog| && Recv(p, t) in c.prog[d] && rank(p, a) < rank(d, Recv(p, t))
    case Recv(q, t) => q < |c.prog| && Send(p, t) in c.prog[q] && rank(q, Send(p, t)) < rank(p, a)
  }

  function Stamps(lo: nat, hi: nat): seq<nat> {
    if lo < hi then seq(hi - lo, i requires 0 <= i => lo + i) else []
  }

  /** What channel `ch` holds: the stamps of the barriers in which it was sent to but not
      yet received from, in order. */
  ghost predicate ChannelInv(c: Config, s: State, ch: Channel)
    requires |s.procs| == |c.prog|
  {
    if ch.src < |c.prog| && Send(ch.dst, ch.tag) in c.prog[ch.src] && ch.dst < |c.prog| then
      var sent := Times(c, s, ch.src, Send(ch.dst, ch.tag));
      var received := Times(c, s, ch.dst, Recv(ch.src, ch.tag));
      received <= sent && Pending(s, ch) == Stamps(received, sent)
    else
      Pending(s, ch) == []
  }

  ghost predicate Inv(c: Config, s: State) {
    && |s.procs| == |c.prog|
    && (forall p | 0 <= p < |s.procs| ::
          && s.procs[p].epoch <= c.barriers
          && (s.procs[p].Inside? ==> s.procs[p].epoch < c.barriers && s.procs[p].pc <= |c.prog[p]|))
    && (forall ch: Channel :: ChannelInv(c, s, ch))
  }

  lemma InitInv(c: Config)
    ensures Inv(c, Init(c))
  {
  }

  /** An action occurs once in an ordered program, so a prefix holds it iff it is long enough. */
  lemma OnceInProgram(rank: (nat, Action) -> nat, p: nat, acts: seq<Action>, i: nat, n: nat)
    requires Ordered(rank, p, acts) && i < |acts| && n <= |acts|
    ensures acts[i] in acts[..n] <==> i < n
  {
    if acts[i] in acts[..n] {
      var j :| 0 <= j < n && acts[j] == acts[i];
      assert rank(p, acts[i]) == rank(p, acts[j]);
    }
  }

  /** One step of p changes Times by one for the action executed and for nothing else. */
  lemma TimesStep(c: Config, rank: (nat, Action) -> nat, s: State, p: nat, q: nat, a: Action)
    requires WellFormed(c, rank) && Inv(c, s) && CanStep(c, s, p)
    requires q < |c.prog| && a in c.prog[q]
    ensures Times(c, Step(c, s, p), q, a) == Times(c, s, q, a) + if p == q && At(c, s, p, a) then 1 else 0
  {
    if p == q && s.procs[p].Inside? {
      var pc, acts := s.procs[p].pc, c.prog[p];
      if pc < |acts| {
        assert acts[..pc + 1] == acts[..pc] + [acts[pc]];
        OnceInProgram(rank, p, acts, pc, pc);
      } else {
        assert acts[..pc] == acts;
      }
    }
  }

  lemma StepInv(c: Config, rank: (nat, Action) -> nat, s: State, p: nat)
    requires WellFormed(c, rank) && Inv(c, s) && CanStep(c, s, p)
    ensures Inv(c, Step(c, s, p))
  {
    forall ch: Channel ensures ChannelInv(c, Step(c, s, p), ch) {
      StepChannel(c, rank, s, p, ch);
    }
  }

  lemma StepChannel(c: Config, rank: (nat, Action) -> nat, s: State, p: nat, ch: Channel)
    requires WellFormed(c, rank) && Inv(c, s) && CanStep(c, s, p)
    ensures ChannelInv(c, Step(c, s, p), ch)
  {
    assert ChannelInv(c, s, ch);
    PendingStep(c, s, p, ch);
    if ch.src < |c.prog| && Send(ch.dst, ch.tag) in c.prog[ch.src] && ch.dst < |c.prog| {
      StepUsedChannel(c, rank, s, p, ch);
    } else if s.procs[p].Inside? && s.procs[p].pc < |c.prog[p]| {
      assert Partnered(c, rank, p, c.prog[p][s.procs[p].pc]);
    }
  }

  lemma StepUsedChannel(c: Config, rank: (nat, Action) -> nat, s: State, p: nat, ch: Channel)
    requires WellFormed(c, rank) && Inv(c, s) && CanStep(c, s, p)
    requires ch.src < |c.prog| && Send(ch.dst, ch.tag) in c.prog[ch.src] && ch.dst < |c.prog|
    ensures var s' := Step(c, s, p);
            var sent := Times(c, s', ch.src, Send(ch.dst, ch.tag));
            var received := Times(c, s', ch.dst, Recv(ch.src, ch.tag));
            received <= sent && Pending(s', ch) == Stamps(received, sent)
  {
    var snd, rcv := Send(ch.dst, ch.tag), Recv(ch.src, ch.tag);
    assert Partnered(c, rank, ch.src, snd);
    assert ChannelInv(c, s, ch);
    var s' := Step(c, s, p);
    var sends, receives := p == ch.src && At(c, s, p, snd), p == ch.dst && At(c, s, p, rcv);
    TimesStep(c, rank, s, p, ch.src, snd);
    TimesStep(c, rank, s, p, ch.dst, rcv);
    PendingStep(c, s, p, ch);
    if sends {
      TimesAt(c, rank, s, p, snd);
    }
    StampsAfter(Times(c, s, ch.dst, rcv), Times(c, s, ch.src, snd), Pending(s, ch),
                Times(c, s', ch.dst, rcv), Times(c, s', ch.src, snd), Pending(s', ch), sends, receives);
  }

  /** A send appends the next stamp and a receive takes the oldest one. */
  lemma StampsAfter(received: nat, sent: nat, pending: seq<nat>, received': nat, sent': nat, pending': seq<nat>,
                    sends: bool, receives: bool)
    requires received <= sent && pending == Stamps(received, sent) && !(sends && receives)
    requires sent' == sent + (if sends then 1 else 0) && received' == received + (if receives then 1 else 0)
    requires receives ==> pending != []
    requires pending' == if sends then pending + [sent] else if receives then pending[1..] else pending
    ensures received' <= sent' && pending' == Stamps(received', sent')
  {
    StampsStep(received, sent);
  }

  /** Before executing an action in a barrier, a process has executed it in all barriers before. */
  lemma TimesAt(c: Config, rank: (nat, Action) -> nat, s: State, p: nat, a: Action)
    requires WellFormed(c, rank) && Inv(c, s) && At(c, s, p, a)
    ensures Times(c, s, p, a) == s.procs[p].epoch
  {
    OnceInProgram(rank, p, c.prog[p], s.procs[p].pc, s.procs[p].pc);
  }

  lemma StampsStep(lo: nat, hi: nat)
    requires lo <= hi
    ensures Stamps(lo, hi) + [hi] == Stamps(lo, hi + 1)
    ensures lo < hi ==> Stamps(lo, hi)[1..] == Stamps(lo + 1, hi)
    ensures lo == hi <==> Stamps(lo, hi) == []
  {
  }

  /** The effect of one step on one channel. */
  lemma PendingStep(c: Config, s: State, p: nat, ch: Channel)
    requires CanStep(c, s, p)
    ensures Pending(Step(c, s, p), ch) ==
              if ch.src == p && At(c, s, p, Send(ch.dst, ch.tag)) then Pending(s, ch) + [s.procs[p].epoch]
              else if ch.dst == p && At(c, s, p, Recv(ch.src, ch.tag)) then Pending(s, ch)[1..]
              else Pending(s, ch)
  {
  }

  /** The counting invariant holds in every state of every run. */
  lemma {:induction false} RunInv(c: Config, rank: (nat, Action) -> nat, sched: seq<nat>)
    requires WellFormed(c, rank) && After(c, sched).Some?
    ensures Inv(c, After(c, sched).value)
  {
    if sched == [] {
      InitInv(c);
    } else {
      var pre := sched[..|sched| - 1];
      RunInv(c, rank, pre);
      StepInv(c, rank, After(c, pre).value, sched[|sched| - 1]);
    }
  }

  /** A receive completed in barrier e was answered by a send of the same barrier. */
  lemma ReceiveImpliesSend(c: Config, rank: (nat, Action) -> nat, s: State, p: nat, src: nat, tag: nat)
    requires WellFormed(c, rank) && Inv(c, s) && p < |c.prog| && Recv(src, tag) in c.prog[p]
    ensures src < |c.prog| && Times(c, s, p, Recv(src, tag)) <= Times(c, s, src, Send(p, tag))
  {
    assert Partnered(c, rank, p, Recv(src, tag));
    assert ChannelInv(c, s, Channel(src, p, tag));
  }

  /** A process executes its actions in rank order within each barrier. */
  lemma ProgramOrder(c: Config, rank: (nat, Action) -> nat, s: State, p: nat, a: Action, b: Action)
    requires WellFormed(c, rank) && Inv(c, s) && p < |c.prog| && a in c.prog[p] && b in c.prog[p]
    requires rank(p, a) < rank(p, b)
    ensures Times(c, s, p, b) <= Times(c, s, p, a)
  {
    if s.procs[p].Inside? {
      var acts := c.prog[p];
      var i :| 0 <= i < |acts| && acts[i] == a;
      var j :| 0 <= j < |acts| && acts[j] == b;
      assert Ordered(rank, p, acts);
      OnceInProgram(rank, p, acts, i, s.procs[p].pc);
      OnceInProgram(rank, p, acts, j, s.procs[p].pc);
    }
  }

  /** FIFO matching: the message a process takes in barrier e was sent in barrier e, so
      consecutive barriers never consume each other's messages. */
  lemma MessageOfSameBarrier(c: Config, rank: (nat, Action) -> nat, sched: seq<nat>, p: nat, src: nat, tag: nat)
    requires WellFormed(c, rank) && After(c, sched).Some?
    requires At(c, After(c, sched).value, p, Recv(src, tag)) && CanStep(c, After(c, sched).value, p)
    ensures var s := After(c, sched).value;
            Pending(s, Channel(src, p, tag))[0] == s.procs[p].epoch
  {
    RunInv(c, rank, sched);
    var s := After(c, sched).value;
    assert Partnered(c, rank, p, Recv(src, tag));
    assert ChannelInv(c, s, Channel(src, p, tag));
    TimesAt(c, rank, s, p, Recv(src, tag));
  }

  /** A blocked process waits for one that is in an earlier barrier, or in the same barrier
      with a smaller next rank; following the wait ends at a process that can move. */
  lemma {:induction false} Unblock(c: Config, rank: (nat, Action) -> nat, s: State, p: nat) returns (q: nat)
    requires WellFormed(c, rank) && Inv(c, s)
    requires p < |s.procs| && s.procs[p] != Outside(c.barriers)
    ensures CanStep(c, s, q)
    decreases s.procs[p].epoch, if s.procs[p].Inside? && s.procs[p].pc < |c.prog[p]| then rank(p, c.prog[p][s.procs[p].pc]) else 0
  {
    if CanStep(c, s, p) {
      return p;
    }
    var pc := s.procs[p].pc;
    var a := c.prog[p][pc];
    var src := a.src;
    var snd := Send(p, a.tag);
    assert Partnered(c, rank, p, a);
    assert ChannelInv(c, s, Channel(src, p, a.tag));
    TimesAt(c, rank, s, p, a);
    assert Times(c, s, src, snd) <= s.procs[p].epoch;
    if CanStep(c, s, src) {
      return src;
    }
    if s.procs[src].epoch == s.procs[p].epoch {
      var i :| 0 <= i < |c.prog[src]| && c.prog[src][i] == snd;
      OnceInProgram(rank, src, c.prog[src], i, s.procs[src].pc);
      assert Ordered(rank, src, c.prog[src]);
      assert s.procs[src].pc <= i;
    }
    q := Unblock(c, rank, s, src);
  }

  /** No run is ever stuck: while some process is unfinished, some process can move. */
  lemma Progress(c: Config, rank: (nat, Action) -> nat, sched: seq<nat>)
    requires WellFormed(c, rank) && After(c, sched).Some? && !Finished(c, After(c, sched).value)
    ensures exists q :: CanStep(c, After(c, sched).value, q)
  {
    RunInv(c, rank, sched);
    var s := After(c, sched).value;
    var p :| 0 <= p < |s.procs| && s.procs[p] != Outside(c.barriers);
    var q := Unblock(c, rank, s, p);
  }

  /** When every process has finished, every channel is empty. */
  lemma NothingInFlight(c: Config, rank: (nat, Action) -> nat, sched: seq<nat>, ch: Channel)
    requires WellFormed(c, rank) && After(c, sched).Some? && Finished(c, After(c, sched).value)
    ensures Pending(After(c, sched).value, ch) == []
  {
    RunInv(c, rank, sched);
    assert ChannelInv(c, After(c, sched).value, ch);
  }

  // ---------------------------------------------------------------------------------
  // Every run is finite, and all complete runs have the same length.

  /** Steps process p has taken so far: |prog| + 2 per barrier (call, actions, return). */
  function StepsOf(c: Config, s: State, p: nat): nat
    requires p < |s.procs| == |c.prog|
  {
    s.procs[p].epoch * (|c.prog[p]| + 2) + if s.procs[p].Inside? then 1 + s.procs[p].pc else 0
  }

  function StepsUpTo(c: Config, s: State, n: nat): nat
    requires n <= |s.procs| == |c.prog|
  {
    if n == 0 then 0 else StepsUpTo(c, s, n - 1) + StepsOf(c, s, n - 1)
  }

  function AllSteps(c: Config, n: nat): nat
    requires n <= |c.prog|
  {
    if n == 0 then 0 else AllSteps(c, n - 1) + c.barriers * (|c.prog[n - 1]| + 2)
  }

  lemma OneMoreStep(c: Config, s: State, p: nat)
    requires CanStep(c, s, p) && (s.procs[p].Inside? ==> s.procs[p].pc <= |c.prog[p]|)
    ensures StepsOf(c, Step(c, s, p), p) == StepsOf(c, s, p) + 1
  {
    var len, e := |c.prog[p]| + 2, s.procs[p].epoch;
    assert (e + 1) * len == e * len + len;
  }

  lemma {:induction false} StepCounts(c: Config, s: State, p: nat, n: nat)
    requires CanStep(c, s, p) && (s.procs[p].Inside? ==> s.procs[p].pc <= |c.prog[p]|) && n <= |c.prog|
    ensures StepsUpTo(c, Step(c, s, p), n) == StepsUpTo(c, s, n) + if p < n then 1 else 0
  {
    if n > 0 {
      StepCounts(c, s, p, n - 1);
      if p == n - 1 {
        OneMoreStep(c, s, p);
      }
    }
  }

  lemma {:induction false} InitSteps(c: Config, n: nat)
    requires n <= |c.prog|
    ensures StepsUpTo(c, Init(c), n) == 0
  {
    if n > 0 {
      InitSteps(c, n - 1);
    }
  }

  lemma {:induction false} ScheduleLength(c: Config, rank: (nat, Action) -> nat, sched: seq<nat>)
    requires WellFormed(c, rank) && After(c, sched).Some?
    ensures var s := After(c, sched).value;
            |s.procs| == |c.prog| && |sched| == StepsUpTo(c, s, |c.prog|)
  {
    RunInv(c, rank, sched);
    if sched == [] {
      InitSteps(c, |c.prog|);
    } else {
      var pre := sched[..|sched| - 1];
      ScheduleLength(c, rank, pre);
      RunInv(c, rank, pre);
      StepCounts(c, After(c, pre).value, sched[|sched| - 1], |c.prog|);
    }
  }

  lemma StepsOfBound(c: Config, s: State, p: nat)
    requires Inv(c, s) && p < |c.prog|
    ensures StepsOf(c, s, p) <= c.barriers * (|c.prog[p]| + 2)
  {
    var len, e := |c.prog[p]| + 2, s.procs[p].epoch;
    Powers.MulMonotone(if s.procs[p].Inside? then e + 1 else e, c.barriers, len);
    assert (e + 1) * len == e * len + len;
  }

  lemma {:induction false} StepsBound(c: Config, s: State, n: nat)
    requires Inv(c, s) && n <= |c.prog|
    ensures StepsUpTo(c, s, n) <= AllSteps(c, n)
    ensures Finished(c, s) ==> StepsUpTo(c, s, n) == AllSteps(c, n)
  {
    if n > 0 {
      StepsBound(c, s, n - 1);
      StepsOfBound(c, s, n - 1);
    }
  }

  /** Termination: no run is longer than AllSteps, and a run that cannot be extended has
      exactly that length and leaves every process finished. */
  lemma EveryRunCompletes(c: Config, rank: (nat, Action) -> nat, sched: seq<nat>)
    requires WellFormed(c, rank) && After(c, sched).Some?
    ensures |sched| <= AllSteps(c, |c.prog|)
    ensures (forall q :: !CanStep(c, After(c, sched).value, q)) <==> Finished(c, After(c, sched).value)
    ensures Finished(c, After(c, sched).value) ==> |sched| == AllSteps(c, |c.prog|)
  {
    RunInv(c, rank, sched);
    ScheduleLength(c, rank, sched);
    StepsBound(c, After(c, sched).value, |c.prog|);
    if !Finished(c, After(c, sched).value) {
      Progress(c, rank, sched);
    }
  }

  lemma OneStepOn(c: Config, sched: seq<nat>, q: nat)
    requires After(c, sched).Some? && CanStep(c, After(c, sched).value, q)
    ensures After(c, sched + [q]) == Some(Step(c, After(c, sched).value, q))
  {
    assert (sched + [q])[..|sched|] == sched;
  }

  /** Every run, however far it has come, can be continued until every process has finished. */
  lemma {:induction false} CanBeCompleted(c: Config, rank: (nat, Action) -> nat, sched: seq<nat>) returns (more: seq<nat>)
    requires WellFormed(c, rank) && After(c, sched).Some?
    ensures After(c, sched + more).Some? && Finished(c, After(c, sched + more).value)
    decreases AllSteps(c, |c.prog|) - |sched|
  {
    EveryRunCompletes(c, rank, sched);
    if Finished(c, After(c, sched).value) {
      more := [];
      assert sched + [] == sched;
    } else {
      Progress(c, rank, sched);
      var q :| CanStep(c, After(c, sched).value, q);
      OneStepOn(c, sched, q);
      EveryRunCompletes(c, rank, sched + [q]);
      var rest := CanBeCompleted(c, rank, sched + [q]);
      more := [q] + rest;
      assert sched + more == (sched + [q]) + rest;
    }
  }
}
