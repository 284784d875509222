/** The tournament barrier of aos/mpi/MPI/tourn.c, for any number of processes and any
    number of consecutive barriers. */
module Tournament {
  import opened Wrappers
  import opened Powers
  import opened MessagePassing

  /** Rank `id` wins all rounds up to r: it is a multiple of 2^r. */
  predicate Wins(id: nat, r: nat) {
    r == 0 || (id % 2 == 0 && Wins(id / 2, r - 1))
  }

  /** The test the source makes. */
  lemma {:induction false} WinsIsMod(id: nat, r: nat)
    ensures Wins(id, r) <==> id % Pow2(r) == 0
  {
    if r == 0 {
      DivModUnique(id, 1, id, 0);
    } else {
      WinsIsMod(id / 2, r - 1);
      HalveMod(id, Pow2(r - 1));
    }
  }

  lemma {:induction false} WinsDown(id: nat, a: nat, b: nat)
    requires a <= b && Wins(id, b)
    ensures Wins(id, a)
  {
    if a > 0 {
      WinsDown(id / 2, a - 1, b - 1);
    }
  }

  /** The round in which a nonzero rank loses: the first one whose power of two does not
      divide it. */
  function LoseRound(id: nat): (r: nat)
    requires id > 0
    ensures r > 0
  {
    if id % 2 == 1 then 1 else 1 + LoseRound(id / 2)
  }

  lemma {:induction false} LoseRoundSpec(id: nat)
    requires id > 0
    ensures !Wins(id, LoseRound(id)) && Wins(id, LoseRound(id) - 1)
  {
    if id % 2 == 0 {
      LoseRoundSpec(id / 2);
    }
  }

  /** There is no other round that a rank loses after winning all rounds before. */
  lemma LossIsUnique(id: nat, r: nat)
    requires r > 0 && !Wins(id, r) && Wins(id, r - 1)
    ensures id > 0 && r == LoseRound(id)
  {
    ZeroWins(r);
    LoseRoundSpec(id);
    var l := LoseRound(id);
    if r < l {
      WinsDown(id, r, l - 1);
    } else if l < r {
      WinsDown(id, l, r - 1);
    }
  }

  lemma {:induction false} ZeroWins(r: nat)
    ensures Wins(0, r)
  {
    if r > 0 {
      ZeroWins(r - 1);
    }
  }

  /** The winner a loser reports to. */
  function Winner(id: nat): (w: nat)
    requires id > 0
    ensures w < id
  {
    if id % 2 == 1 then id - 1 else 2 * Winner(id / 2)
  }

  lemma {:induction false} WinnerSpec(id: nat)
    requires id > 0
    ensures id == Winner(id) + Pow2(LoseRound(id) - 1) && Wins(Winner(id), LoseRound(id))
  {
    if id % 2 == 0 {
      WinnerSpec(id / 2);
    }
  }

  /** Conversely, whoever stands 2^(r-1) above a winner of round r loses in round r to it. */
  lemma {:induction false} LoserOf(w: nat, r: nat)
    requires r > 0 && Wins(w, r)
    ensures LoseRound(w + Pow2(r - 1)) == r && Winner(w + Pow2(r - 1)) == w
  {
    if r > 1 {
      LoserOf(w / 2, r - 1);
      assert (w + Pow2(r - 1)) / 2 == w / 2 + Pow2(r - 2);
    }
  }

  /** What rank `id` executes from round `r` on, given that it has won all rounds before.
      The recursive call of the source sits between the receive and the send of a winner. */
  function Program(n: nat, id: nat, r: nat): seq<Action>
    requires n > 0 && id < n && r > 0 && Wins(id, r - 1)
    decreases CeilLog2(n) + 1 - r
  {
    if r > CeilLog2(n) then []
    else if Wins(id, r) then
      var src := id + Pow2(r - 1);
      if src >= n then Program(n, id, r + 1)
      else [Recv(src, 1)] + Program(n, id, r + 1) + [Send(src, 1)]
    else
      LossIsUnique(id, r);
      WinnerSpec(id);
      var dest := id - Pow2(r - 1);
      [Send(dest, 1), Recv(dest, 1)]
  }

  function Barrier(n: nat, barriers: nat): Config
    requires n > 0
  {
    Config(seq(n, id requires 0 <= id < n => Program(n, id, 1)), barriers)
  }

  lemma LoseRoundBound(n: nat, id: nat)
    requires 0 < id < n
    ensures LoseRound(id) <= CeilLog2(n)
  {
    WinnerSpec(id);
    CeilLog2Spec(n);
    Pow2Reflects(LoseRound(id) - 1, CeilLog2(n));
  }

  /** Each nonzero rank loses exactly once, in one of the rounds that are played: it wins all
      rounds before, in the sense of the modulus test, and this one it loses. */
  lemma LosesOnce(n: nat, id: nat, r: nat)
    requires 0 < id < n && 0 < r
    ensures 1 <= LoseRound(id) <= CeilLog2(n)
    ensures (id % Pow2(r) != 0 && id % Pow2(r - 1) == 0) <==> r == LoseRound(id)
  {
    LoseRoundBound(n, id);
    LoseRoundSpec(id);
    WinsIsMod(id, r);
    WinsIsMod(id, r - 1);
    if !Wins(id, r) && Wins(id, r - 1) {
      LossIsUnique(id, r);
    }
  }

  /** Arrivals are ranked by rising rounds, wake-ups after them by falling rounds. */
  function Rank(n: nat): (nat, Action) -> nat
    requires n > 0
  {
    (p: nat, a: Action) => RankOf(n, p, a)
  }

  function RankOf(n: nat, p: nat, a: Action): nat
    requires n > 0
  {
    var other := if a.Send? then a.dst else a.src;
    var up := if a.Send? then other < p else other > p;
    var loser := if other < p then p else other;
    var r := if 0 < loser < n then (LoseRoundBound(n, loser); LoseRound(loser)) else 0;
    (if up then 2 * r else 4 * CeilLog2(n) + 4 - 2 * r) + if a.Send? then 0 else 1
  }

  /** The ranks of the four actions that rank l and its winner exchange. */
  ghost predicate Graded(n: nat, rank: (nat, Action) -> nat, l: nat)
    requires 0 < l < n
  {
    && LoseRound(l) <= CeilLog2(n)
    && rank(l, Send(Winner(l), 1)) == 2 * LoseRound(l)
    && rank(Winner(l), Recv(l, 1)) == 2 * LoseRound(l) + 1
    && rank(Winner(l), Send(l, 1)) == 4 * CeilLog2(n) + 4 - 2 * LoseRound(l)
    && rank(l, Recv(Winner(l), 1)) == 4 * CeilLog2(n) + 5 - 2 * LoseRound(l)
  }

  lemma Ranks(n: nat, l: nat)
    requires 0 < l < n
    ensures Graded(n, Rank(n), l)
  {
    LoseRoundBound(n, l);
  }

  /** Process `id` has an exchange with `other` in some round from r on. */
  predicate Meets(n: nat, id: nat, r: nat, other: nat) {
    || (id < other < n && Winner(other) == id && LoseRound(other) >= r)
    || (0 < id < n && other == Winner(id) && LoseRound(id) >= r)
  }

  function Other(a: Action): nat {
    if a.Send? then a.dst else a.src
  }

  lemma MeetsLate(n: nat, id: nat, r: nat, other: nat)
    requires id < n && r > CeilLog2(n)
    ensures !Meets(n, id, r, other)
  {
    if id < other < n {
      LoseRoundBound(n, other);
    }
    if 0 < id {
      LoseRoundBound(n, id);
    }
  }

  /** The meetings of a winner of round r: its loser of that round, and those of later rounds. */
  lemma WinnerMeets(n: nat, id: nat, r: nat, other: nat)
    requires id < n && r > 0 && Wins(id, r)
    ensures Meets(n, id, r, other) <==> Meets(n, id, r + 1, other) || (other == id + Pow2(r - 1) && other < n)
  {
    LoserOf(id, r);
    if 0 < id {
      LoseRoundSpec(id);
    }
    if id < other {
      WinnerSpec(other);
    }
  }

  lemma LoserMeets(n: nat, id: nat, r: nat, other: nat)
    requires 0 < id < n && r == LoseRound(id)
    ensures Meets(n, id, r, other) <==> other == Winner(id)
  {
    LoseRoundSpec(id);
    if id < other < n && Winner(other) == id && LoseRound(other) >= r {
      WinnerSpec(other);
      WinsDown(id, r, LoseRound(other));
    }
  }

  ghost predicate AllGraded(n: nat, rank: (nat, Action) -> nat) {
    forall l: nat | 0 < l < n :: Graded(n, rank, l)
  }

  lemma ProgramCases(n: nat, id: nat, r: nat)
    requires n > 0 && id < n && 0 < r && Wins(id, r - 1)
    ensures r > CeilLog2(n) ==> Program(n, id, r) == []
    ensures r <= CeilLog2(n) && Wins(id, r) ==>
              var src := id + Pow2(r - 1);
              Program(n, id, r) == if src >= n then Program(n, id, r + 1)
                                   else [Recv(src, 1)] + Program(n, id, r + 1) + [Send(src, 1)]
    ensures r <= CeilLog2(n) && !Wins(id, r) ==>
              id > 0 && r == LoseRound(id) && Program(n, id, r) == [Send(Winner(id), 1), Recv(Winner(id), 1)]
  {
    if !Wins(id, r) {
      LossIsUnique(id, r);
      WinnerSpec(id);
    }
  }

  lemma InAround(acts: seq<Action>, a: Action, b: Action, x: Action)
    ensures a in [a] + acts + [b] && b in [a] + acts + [b]
    ensures x in acts ==> x in [a] + acts + [b]
  {
  }

  /** The program of a rank from round r on has an exchange with every partner of these rounds ... */
  lemma {:induction false} HasMeeting(n: nat, id: nat, r: nat, other: nat)
    requires id < n && 0 < r && Wins(id, r - 1) && Meets(n, id, r, other)
    ensures Send(other, 1) in Program(n, id, r) && Recv(other, 1) in Program(n, id, r)
    decreases CeilLog2(n) + 1 - r
  {
    ProgramCases(n, id, r);
    if r > CeilLog2(n) {
      MeetsLate(n, id, r, other);
    } else if Wins(id, r) {
      WinnerMeets(n, id, r, other);
      var src, acts := id + Pow2(r - 1), Program(n, id, r + 1);
      if Meets(n, id, r + 1, other) {
        HasMeeting(n, id, r + 1, other);
        InAround(acts, Recv(src, 1), Send(src, 1), Send(other, 1));
        InAround(acts, Recv(src, 1), Send(src, 1), Recv(other, 1));
      } else {
        InAround(acts, Recv(src, 1), Send(src, 1), Send(src, 1));
      }
    } else {
      LoserMeets(n, id, r, other);
    }
  }

  /** ... and with nobody else; the ranks of these rounds lie around those of later rounds. */
  lemma {:induction false} OnlyMeetings(n: nat, rank: (nat, Action) -> nat, id: nat, r: nat, a: Action)
    requires AllGraded(n, rank) && id < n && 0 < r && Wins(id, r - 1) && a in Program(n, id, r)
    ensures a.tag == 1 && Other(a) < n && Meets(n, id, r, Other(a))
    ensures 2 * r <= rank(id, a) <= 4 * CeilLog2(n) + 5 - 2 * r
    decreases CeilLog2(n) + 1 - r
  {
    ProgramCases(n, id, r);
    if Wins(id, r) {
      WinnerMeets(n, id, r, Other(a));
      if a in Program(n, id, r + 1) {
        OnlyMeetings(n, rank, id, r + 1, a);
      } else {
        LoserOf(id, r);
        assert Graded(n, rank, id + Pow2(r - 1));
      }
    } else {
      LoserMeets(n, id, r, Other(a));
      assert Graded(n, rank, id);
    }
  }

  lemma OrderedAround(rank: (nat, Action) -> nat, id: nat, acts: seq<Action>, a: Action, b: Action, all: seq<Action>)
    requires Ordered(rank, id, acts) && rank(id, a) < rank(id, b)
    requires forall i | 0 <= i < |acts| :: rank(id, a) < rank(id, acts[i]) < rank(id, b)
    requires all == [a] + acts + [b]
    ensures Ordered(rank, id, all)
  {
  }

  /** Its ranks rise: a winner's round is played around all later rounds. */
  lemma {:induction false} ProgramOrdered(n: nat, rank: (nat, Action) -> nat, id: nat, r: nat)
    requires AllGraded(n, rank) && id < n && 0 < r && Wins(id, r - 1)
    ensures Ordered(rank, id, Program(n, id, r))
    decreases CeilLog2(n) + 1 - r
  {
    ProgramCases(n, id, r);
    if r > CeilLog2(n) {
    } else if Wins(id, r) {
      ProgramOrdered(n, rank, id, r + 1);
      if id + Pow2(r - 1) < n {
        WinnerOrdered(n, rank, id, r);
      }
    } else {
      assert Graded(n, rank, id);
    }
  }

  lemma WinnerOrdered(n: nat, rank: (nat, Action) -> nat, id: nat, r: nat)
    requires AllGraded(n, rank) && id < n && 0 < r <= CeilLog2(n) && Wins(id, r - 1) && Wins(id, r)
    requires id + Pow2(r - 1) < n && Ordered(rank, id, Program(n, id, r + 1))
    ensures Ordered(rank, id, Program(n, id, r))
  {
    var src, acts := id + Pow2(r - 1), Program(n, id, r + 1);
    ProgramCases(n, id, r);
    LoserOf(id, r);
    assert Graded(n, rank, src);
    forall i | 0 <= i < |acts| ensures 2 * r + 1 < rank(id, acts[i]) < 4 * CeilLog2(n) + 4 - 2 * r {
      OnlyMeetings(n, rank, id, r + 1, acts[i]);
    }
    OrderedAround(rank, id, acts, Recv(src, 1), Send(src, 1), Program(n, id, r));
  }

  lemma RankGraded(n: nat)
    requires n > 0
    ensures AllGraded(n, Rank(n))
  {
    forall l: nat | 0 < l < n ensures Graded(n, Rank(n), l) {
      Ranks(n, l);
    }
  }

  lemma Partners(n: nat, l: nat)
    requires 0 < l < n
    ensures Send(Winner(l), 1) in Program(n, l, 1) && Recv(Winner(l), 1) in Program(n, l, 1)
    ensures Send(l, 1) in Program(n, Winner(l), 1) && Recv(l, 1) in Program(n, Winner(l), 1)
  {
    var w := Winner(l);
    assert Meets(n, l, 1, w) && Meets(n, w, 1, l);
    HasMeeting(n, l, 1, w);
    HasMeeting(n, w, 1, l);
  }

  /** Whoever p sends to or receives from is its winner, or a loser of p. */
  lemma OtherOf(n: nat, p: nat, a: Action)
    requires p < n && a in Program(n, p, 1)
    ensures a.tag == 1 && Other(a) < n
    ensures if p < Other(a) then Winner(Other(a)) == p else p > 0 && Winner(p) == Other(a)
  {
    RankGraded(n);
    OnlyMeetings(n, Rank(n), p, 1, a);
  }

  lemma PartnerOf(n: nat, barriers: nat, rank: (nat, Action) -> nat, p: nat, a: Action)
    requires AllGraded(n, rank) && p < n && a in Program(n, p, 1)
    ensures Partnered(Barrier(n, barriers), rank, p, a)
  {
    OtherOf(n, p, a);
    var l := if Other(a) < p then p else Other(a);
    assert Graded(n, rank, l);
    Partners(n, l);
  }

  lemma BarrierWellFormed(n: nat, barriers: nat)
    requires n > 0
    ensures WellFormed(Barrier(n, barriers), Rank(n))
  {
    var c, rank := Barrier(n, barriers), Rank(n);
    RankGraded(n);
    forall p | 0 <= p < n ensures Ordered(rank, p, c.prog[p]) {
      ProgramOrdered(n, rank, p, 1);
    }
    forall p, a | 0 <= p < n && a in c.prog[p] ensures Partnered(c, rank, p, a) {
      PartnerOf(n, barriers, rank, p, a);
    }
  }

  // ---------------------------------------------------------------------------------

  predicate Beaten(n: nat, id: nat, r: nat, l: nat) {
    id < l < n && Winner(l) == id && LoseRound(l) <= r
  }

  /** Winner `id` has collected the arrivals of rounds 1 to r of barrier e. */
  ghost predicate Won(n: nat, barriers: nat, s: State, id: nat, r: nat, e: nat)
    requires id < n && |s.procs| == n
  {
    && Wins(id, r)
    && Entered(s, id, e)
    && forall l: nat | Beaten(n, id, r, l) :: Times(Barrier(n, barriers), s, id, Recv(l, 1)) > e
  }

  /** Within one barrier a process executes a before b, if both are its meetings and a is an
      arrival while b is its report, or b is a wake-up and a is not. */
  lemma Before(n: nat, barriers: nat, s: State, p: nat, a: Action, b: Action)
    requires p < n && Inv(Barrier(n, barriers), s) && a in Program(n, p, 1) && b in Program(n, p, 1)
    requires a.Recv? && b.Send?
    requires a.src > p || (0 < p && b.dst > p && LoseRound(p) > LoseRound(b.dst))
    requires a.src > p && b.dst < p ==> 0 < p && LoseRound(a.src) < LoseRound(p)
    ensures Times(Barrier(n, barriers), s, p, b) <= Times(Barrier(n, barriers), s, p, a)
  {
    var rank := Rank(n);
    BarrierWellFormed(n, barriers);
    OtherOf(n, p, a);
    OtherOf(n, p, b);
    Ranks(n, if a.src > p then a.src else p);
    Ranks(n, if b.dst > p then b.dst else p);
    ProgramOrder(Barrier(n, barriers), rank, s, p, a, b);
  }

  lemma Answered(n: nat, barriers: nat, s: State, p: nat, src: nat)
    requires p < n && Inv(Barrier(n, barriers), s) && Recv(src, 1) in Program(n, p, 1)
    ensures src < n
    ensures Times(Barrier(n, barriers), s, p, Recv(src, 1)) <= Times(Barrier(n, barriers), s, src, Send(p, 1))
  {
    BarrierWellFormed(n, barriers);
    ReceiveImpliesSend(Barrier(n, barriers), Rank(n), s, p, src, 1);
  }

  /** A loser that has reported in barrier e has first collected the arrivals of all its
      earlier rounds. */
  lemma ReportedImpliesWon(n: nat, barriers: nat, s: State, l: nat, e: nat)
    requires 0 < l < n && Inv(Barrier(n, barriers), s)
    requires Times(Barrier(n, barriers), s, Winner(l), Recv(l, 1)) > e
    ensures Won(n, barriers, s, l, LoseRound(l) - 1, e)
  {
    var c, r, w := Barrier(n, barriers), LoseRound(l), Winner(l);
    LoseRoundSpec(l);
    Partners(n, l);
    Answered(n, barriers, s, w, l);
    forall m: nat | Beaten(n, l, r - 1, m) ensures Times(c, s, l, Recv(m, 1)) > e {
      Partners(n, m);
      Before(n, barriers, s, l, Recv(m, 1), Send(w, 1));
    }
  }

  /** A winner that has passed round r of barrier e implies that every rank in
      [id, min(id + 2^r, n)) has arrived: byes never lose an arrival. */
  lemma {:induction false} Arrived(n: nat, barriers: nat, s: State, id: nat, r: nat, e: nat, p: nat)
    requires id < n && Inv(Barrier(n, barriers), s) && Won(n, barriers, s, id, r, e)
    requires id <= p < n && p < id + Pow2(r)
    ensures Entered(s, p, e)
    decreases r
  {
    if r > 0 {
      var l := id + Pow2(r - 1);
      if p < l {
        WinsDown(id, r - 1, r);
        assert forall m: nat | Beaten(n, id, r - 1, m) :: Beaten(n, id, r, m);
        Arrived(n, barriers, s, id, r - 1, e, p);
      } else {
        LoserOf(id, r);
        assert Beaten(n, id, r, l);
        ReportedImpliesWon(n, barriers, s, l, e);
        Arrived(n, barriers, s, l, r - 1, e, p);
      }
    }
  }

  /** Once a wake-up of barrier e has been received anywhere, all have arrived: the wake-up
      goes back, winner by winner, to rank 0, which had collected all arrivals. */
  lemma {:induction false} WokenAfterAll(n: nat, barriers: nat, s: State, id: nat, e: nat, p: nat)
    requires 0 < id < n && Inv(Barrier(n, barriers), s) && p < n
    requires Times(Barrier(n, barriers), s, id, Recv(Winner(id), 1)) > e
    ensures Entered(s, p, e)
    decreases id
  {
    var c, w := Barrier(n, barriers), Winner(id);
    Partners(n, id);
    Answered(n, barriers, s, id, w);
    if w > 0 {
      Partners(n, w);
      WinnersLoseLater(id);
      Before(n, barriers, s, w, Recv(Winner(w), 1), Send(id, 1));
      WokenAfterAll(n, barriers, s, w, e, p);
    } else {
      forall m: nat | Beaten(n, 0, CeilLog2(n), m) ensures Times(c, s, 0, Recv(m, 1)) > e {
        Partners(n, m);
        Before(n, barriers, s, 0, Recv(m, 1), Send(id, 1));
      }
      ZeroWins(CeilLog2(n));
      CeilLog2Spec(n);
      Arrived(n, barriers, s, 0, CeilLog2(n), e, p);
    }
  }

  lemma WinnersLoseLater(id: nat)
    requires id > 0 && Winner(id) > 0
    ensures LoseRound(Winner(id)) > LoseRound(id)
  {
    var w := Winner(id);
    WinnerSpec(id);
    LoseRoundSpec(w);
    if LoseRound(w) <= LoseRound(id) {
      WinsDown(w, LoseRound(w), LoseRound(id));
    }
  }

  /** Safety: in every run, no process returns from barrier e before all have called it. */
  lemma Safety(n: nat, barriers: nat, sched: seq<nat>, e: nat, p: nat, q: nat)
    requires n > 0 && After(Barrier(n, barriers), sched).Some? && p < n && q < n
    ensures var s := After(Barrier(n, barriers), sched).value;
            |s.procs| == n && (Left(s, q, e) ==> Entered(s, p, e))
  {
    var c := Barrier(n, barriers);
    BarrierWellFormed(n, barriers);
    RunInv(c, Rank(n), sched);
    var s := After(c, sched).value;
    if Left(s, q, e) {
      if q > 0 {
        WokenAfterAll(n, barriers, s, q, e, p);
      } else {
        ZeroWins(CeilLog2(n));
        CeilLog2Spec(n);
        Arrived(n, barriers, s, 0, CeilLog2(n), e, p);
      }
    }
  }

  /** The numbers of completed barriers never differ by more than one. */
  lemma InStep(n: nat, barriers: nat, sched: seq<nat>, p: nat, q: nat)
    requires n > 0 && After(Barrier(n, barriers), sched).Some? && p < n && q < n
    ensures var s := After(Barrier(n, barriers), sched).value;
            |s.procs| == n && s.procs[q].epoch <= s.procs[p].epoch + 1
  {
    Safety(n, barriers, sched, 0, p, q);
    var s := After(Barrier(n, barriers), sched).value;
    if s.procs[q].epoch > 0 {
      Safety(n, barriers, sched, s.procs[q].epoch - 1, p, q);
    }
  }

  /** Liveness: no run is stuck before all have finished, every run that cannot continue has
      completed all barriers, and no message is left over then. */
  lemma Completes(n: nat, barriers: nat, sched: seq<nat>) returns (more: seq<nat>)
    requires n > 0 && After(Barrier(n, barriers), sched).Some?
    ensures var c := Barrier(n, barriers); var s := After(c, sched).value;
            && (!Finished(c, s) ==> exists q :: CanStep(c, s, q))
            && (Finished(c, s) ==> forall ch :: Pending(s, ch) == [])
            && |sched| <= AllSteps(c, n)
    ensures var c := Barrier(n, barriers);
            After(c, sched + more).Some? && Finished(c, After(c, sched + more).value) && |sched + more| == AllSteps(c, n)
  {
    var c := Barrier(n, barriers);
    BarrierWellFormed(n, barriers);
    EveryRunCompletes(c, Rank(n), sched);
    var s := After(c, sched).value;
    if Finished(c, s) {
      forall ch ensures Pending(s, ch) == [] {
        NothingInFlight(c, Rank(n), sched, ch);
      }
    } else {
      Progress(c, Rank(n), sched);
    }
    more := CanBeCompleted(c, Rank(n), sched);
    EveryRunCompletes(c, Rank(n), sched + more);
  }
}
