/** The dissemination barrier of aos/mpi/MPI/diss.c, for any number of processes and any
    number of consecutive barriers. */
module Dissemination {
  import opened Wrappers
  import opened Powers
  import opened MessagePassing

  function Dest(n: nat, id: nat, k: nat): (r: nat)
    requires n > 0
    ensures r < n
  {
    (id + Pow2(k)) % n
  }

  function Src(n: nat, id: nat, k: nat): (r: nat)
    requires n > 0
    ensures r < n
  {
    (n + id - Pow2(k)) % n
  }

  /** What rank `id` executes in one call: in round k a send to Dest and a receive from Src,
      both with tag k.  The receive is posted before the send but waited for after it. */
  function Program(n: nat, id: nat): seq<Action>
    requires n > 0
  {
    seq(2 * CeilLog2(n), i requires 0 <= i =>
      if i % 2 == 0 then Send(Dest(n, id, i / 2), i / 2) else Recv(Src(n, id, i / 2), i / 2))
  }

  function Barrier(n: nat, barriers: nat): Config
    requires n > 0
  {
    Config(seq(n, id requires 0 <= id => Program(n, id)), barriers)
  }

  function Rank(p: nat, a: Action): nat {
    match a
    case Send(_, k) => 2 * k
    case Recv(_, k) => 2 * k + 1
  }

  /** In every round the distance is below n, so Dest and Src wrap around at most once. */
  lemma Wrap(n: nat, id: nat, k: nat)
    requires n > 0 && id < n && k < CeilLog2(n)
    ensures Pow2(k) < n
    ensures Dest(n, id, k) == if id + Pow2(k) < n then id + Pow2(k) else id + Pow2(k) - n
    ensures Src(n, id, k) == if Pow2(k) <= id then id - Pow2(k) else n + id - Pow2(k)
  {
    CeilLog2Spec(n);
    Pow2Monotone(k, CeilLog2(n) - 1);
    ModOnce(id + Pow2(k), n);
    ModOnce(n + id - Pow2(k), n);
  }

  lemma DestSrc(n: nat, id: nat, k: nat)
    requires n > 0 && id < n && k < CeilLog2(n)
    ensures Src(n, Dest(n, id, k), k) == id && Dest(n, Src(n, id, k), k) == id
  {
    Wrap(n, id, k);
    Wrap(n, Dest(n, id, k), k);
    Wrap(n, Src(n, id, k), k);
  }

  lemma ProgramAt(n: nat, id: nat, k: nat)
    requires n > 0 && k < CeilLog2(n)
    ensures Program(n, id)[2 * k] == Send(Dest(n, id, k), k)
    ensures Program(n, id)[2 * k + 1] == Recv(Src(n, id, k), k)
  {
    var i, j := 2 * k, 2 * k + 1;
    assert i % 2 == 0 && i / 2 == k && j % 2 == 1 && j / 2 == k;
  }

  lemma PartnerOf(n: nat, barriers: nat, p: nat, i: nat)
    requires n > 0 && p < n && i < 2 * CeilLog2(n)
    ensures Partnered(Barrier(n, barriers), Rank, p, Program(n, p)[i])
  {
    var k := i / 2;
    DestSrc(n, p, k);
    ProgramAt(n, p, k);
    ProgramAt(n, Dest(n, p, k), k);
    ProgramAt(n, Src(n, p, k), k);
  }

  lemma ProgramOrdered(n: nat, p: nat)
    requires n > 0
    ensures Ordered(Rank, p, Program(n, p))
  {
    forall i | 0 <= i < 2 * CeilLog2(n) ensures Rank(p, Program(n, p)[i]) == i {
      ProgramAt(n, p, i / 2);
    }
  }

  lemma BarrierWellFormed(n: nat, barriers: nat)
    requires n > 0
    ensures WellFormed(Barrier(n, barriers), Rank)
  {
    var c := Barrier(n, barriers);
    forall p | 0 <= p < n ensures Ordered(Rank, p, c.prog[p]) {
      ProgramOrdered(n, p);
    }
    forall p, a | 0 <= p < n && a in c.prog[p] ensures Partnered(c, Rank, p, a) {
      var i :| 0 <= i < |c.prog[p]| && c.prog[p][i] == a;
      PartnerOf(n, barriers, p, i);
    }
  }

  /** The j-th cyclic predecessor. */
  function Pred(n: nat, id: nat, j: nat): (r: nat)
    requires id < n && j < n
    ensures r < n
  {
    if j <= id then id - j else n + id - j
  }

  /** Having completed k rounds of barrier e, a process has heard from its 2^k cyclic
      predecessors, itself included (or from all processes if there are fewer): each of them
      has entered barrier e. */
  lemma {:induction false} Heard(n: nat, barriers: nat, s: State, id: nat, k: nat, e: nat, j: nat)
    requires n > 0 && Inv(Barrier(n, barriers), s)
    requires id < n && k <= CeilLog2(n) && Passed(s, id, e, 2 * k) && j < Pow2(k) && j < n
    ensures Entered(s, Pred(n, id, j), e)
    decreases k
  {
    var c := Barrier(n, barriers);
    if k == 0 {
    } else if j < Pow2(k - 1) {
      Heard(n, barriers, s, id, k - 1, e, j);
    } else {
      var src := Src(n, id, k - 1);
      SenderPassed(n, barriers, s, id, k - 1, e);
      Heard(n, barriers, s, src, k - 1, e, j - Pow2(k - 1));
      Wrap(n, id, k - 1);
    }
  }

  /** If `id` is past round k of barrier e then its source has sent in that round, and so is
      past round k - 1. */
  lemma SenderPassed(n: nat, barriers: nat, s: State, id: nat, k: nat, e: nat)
    requires n > 0 && Inv(Barrier(n, barriers), s)
    requires id < n && k < CeilLog2(n) && Passed(s, id, e, 2 * k + 2)
    ensures Passed(s, Src(n, id, k), e, 2 * k + 1)
  {
    var c := Barrier(n, barriers);
    BarrierWellFormed(n, barriers);
    var src := Src(n, id, k);
    DestSrc(n, id, k);
    ProgramAt(n, id, k);
    ProgramAt(n, src, k);
    assert c.prog[id][2 * k + 1] == Recv(src, k);
    ReceiveImpliesSend(c, Rank, s, id, src, k);
    if s.procs[id].epoch == e {
      OnceInProgram(Rank, id, c.prog[id], 2 * k + 1, s.procs[id].pc);
    }
    assert c.prog[src][2 * k] == Send(id, k);
    if s.procs[src].Inside? {
      OnceInProgram(Rank, src, c.prog[src], 2 * k, s.procs[src].pc);
    }
  }

  /** Safety: in every run, for any number of processes and barriers, a process that has
      left barrier e implies that every process has entered it. */
  lemma Safety(n: nat, barriers: nat, sched: seq<nat>, e: nat, p: nat, q: nat)
    requires n > 0 && After(Barrier(n, barriers), sched).Some? && p < n && q < n
    ensures var s := After(Barrier(n, barriers), sched).value;
            |s.procs| == n && (Left(s, q, e) ==> Entered(s, p, e))
  {
    var c := Barrier(n, barriers);
    BarrierWellFormed(n, barriers);
    RunInv(c, Rank, sched);
    var s := After(c, sched).value;
    if Left(s, q, e) {
      CeilLog2Spec(n);
      Heard(n, barriers, s, q, CeilLog2(n), e, if p <= q then q - p else n + q - p);
    }
  }

  /** The numbers of completed barriers never differ by more than one. */
  lemma InStep(n: nat, barriers: nat, sched: seq<nat>, p: nat, q: nat)
    requires n > 0 && After(Barrier(n, barriers), sched).Some? && p < n && q < n
    ensures var s := After(Barrier(n, barriers), sched).value;
            |s.procs| == n && s.procs[q].epoch <= s.procs[p].epoch + 1
  {
    Safety(n, barriers, sched, 0, p, q);
    var s := After(Barrier(n, barriers), sched).value;
    if s.procs[q].epoch > 0 {
      Safety(n, barriers, sched, s.procs[q].epoch - 1, p, q);
    }
  }

  /** Liveness: no run is stuck before all have finished, every run that cannot continue has
      completed all barriers, and no message is left over then. */
  lemma Completes(n: nat, barriers: nat, sched: seq<nat>) returns (more: seq<nat>)
    requires n > 0 && After(Barrier(n, barriers), sched).Some?
    ensures var c := Barrier(n, barriers); var s := After(c, sched).value;
            && (!Finished(c, s) ==> exists q :: CanStep(c, s, q))
            && (Finished(c, s) ==> forall ch :: Pending(s, ch) == [])
            && |sched| <= AllSteps(c, n)
    ensures var c := Barrier(n, barriers);
            After(c, sched + more).Some? && Finished(c, After(c, sched + more).value) && |sched + more| == AllSteps(c, n)
  {
    var c := Barrier(n, barriers);
    BarrierWellFormed(n, barriers);
    EveryRunCompletes(c, Rank, sched);
    var s := After(c, sched).value;
    if Finished(c, s) {
      forall ch ensures Pending(s, ch) == [] {
        NothingInFlight(c, Rank, sched, ch);
      }
    } else {
      Progress(c, Rank, sched);
    }
    more := CanBeCompleted(c, Rank, sched);
    EveryRunCompletes(c, Rank, sched + more);
  }
}
