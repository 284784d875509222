/** Commits of rvm.cpp that a crash cuts short, and commits that cannot be read back: exactly
    when they do harm. */
module RvmCommit {
  import opened Wrappers
  import opened Octets
  import opened RedoLog
  import opened Images
  import opened Rvm
  import opened RvmTransactions

  // ---------------------------------------------------------------------------------
  // When a commit is atomic against a crash between its records.

  /** The position of the first region that is not empty. */
  function FirstNonempty(redo: seq<Region>): (k: nat)
    ensures k <= |redo| && (forall j | 0 <= j < k :: redo[j].len == 0) && (k < |redo| ==> redo[k].len > 0)
  {
    if redo == [] then 0
    else
      var k := FirstNonempty(redo[..|redo| - 1]);
      if k < |redo| - 1 || redo[|redo| - 1].len > 0 then k else |redo|
  }

  predicate Within(r: Region, f: Region) {
    r.seg == f.seg && f.offset <= r.offset && r.offset + r.len <= f.offset + f.len
  }

  /** The first nonempty region holds every declared byte. */
  predicate FirstCovers(redo: seq<Region>) {
    var k := FirstNonempty(redo);
    k < |redo| ==> forall j | 0 <= j < |redo| :: redo[j].len > 0 ==> Within(redo[j], redo[k])
  }

  /** A run has come to a commit of this redo list, and the commit is cut short after `count`
      records. */
  ghost predicate Reaches(events: seq<Event>, redo: seq<Region>, count: nat) {
    && Run(Empty, events).Some? && Run(Empty, events).value.trans.Some?
    && Run(Empty, events).value.trans.value.redo == redo
    && Allowed(Run(Empty, events).value, CrashInCommit(count))
  }

  /** What is durable then is what was before the commit, or what would be after it. */
  predicate AllOrNothing(s: System, count: nat)
    requires Allowed(s, CrashInCommit(count))
  {
    || Step(s, CrashInCommit(count)).image == s.image
    || Step(s, CrashInCommit(count)).image == Step(s, Commit).image
  }

  ghost predicate Atomic(redo: seq<Region>) {
    forall events, count | Reaches(events, redo, count) :: AllOrNothing(Run(Empty, events).value, count)
  }

  lemma PrefixDeclares(redo: seq<Region>, count: nat, name: string, i: nat)
    requires count <= |redo| && FirstCovers(redo)
    ensures count <= FirstNonempty(redo) ==> !Declared(redo[..count], name, i)
    ensures count > FirstNonempty(redo) ==> (Declared(redo[..count], name, i) <==> Declared(redo, name, i))
  {
    var k, pre := FirstNonempty(redo), redo[..count];
    assert forall j | 0 <= j < count :: pre[j] == redo[j];
    if k < count && Declared(redo, name, i) {
      assert pre[k].seg == name && pre[k].offset <= i < pre[k].offset + pre[k].len;
    }
  }

  lemma PrefixOverlay(img: string, mem: Memory, redo: seq<Region>, count: nat, name: string)
    requires AllInRange(mem, redo) && count <= |redo| && FirstCovers(redo)
    ensures Overlay(img, mem, redo[..count], name) ==
              if count <= FirstNonempty(redo) then img else Overlay(img, mem, redo, name)
  {
    forall i: nat | i < |img|
      ensures Overlay(img, mem, redo[..count], name)[i] ==
                if count <= FirstNonempty(redo) then img[i] else Overlay(img, mem, redo, name)[i]
    {
      PrefixDeclares(redo, count, name, i);
    }
  }

  /** The image of a commit of part of the list. */
  function Overlaid(s: System, redo: seq<Region>): map<string, string>
    requires AllInRange(s.mem, redo)
  {
    map n | n in s.image :: Overlay(s.image[n], s.mem, redo, n)
  }

  lemma StepsOverlay(s: System, count: nat)
    requires Allowed(s, CrashInCommit(count))
    ensures Step(s, CrashInCommit(count)).image == Overlaid(s, s.trans.value.redo[..count])
    ensures Step(s, Commit).image == Overlaid(s, s.trans.value.redo)
  {
  }

  lemma SameOverlaid(s: System, a: seq<Region>, b: seq<Region>)
    requires AllInRange(s.mem, a) && AllInRange(s.mem, b)
    requires forall n | n in s.image :: Overlay(s.image[n], s.mem, a, n) == Overlay(s.image[n], s.mem, b, n)
    ensures Overlaid(s, a) == Overlaid(s, b)
  {
  }

  lemma NothingOverlaid(s: System, a: seq<Region>)
    requires AllInRange(s.mem, a) && forall n | n in s.image :: Overlay(s.image[n], s.mem, a, n) == s.image[n]
    ensures Overlaid(s, a) == s.image
  {
  }

  lemma PrefixOverlaid(s: System, redo: seq<Region>, count: nat)
    requires AllInRange(s.mem, redo) && count <= |redo| && FirstCovers(redo)
    ensures Overlaid(s, redo[..count]) == s.image || Overlaid(s, redo[..count]) == Overlaid(s, redo)
  {
    forall n | n in s.image
      ensures Overlay(s.image[n], s.mem, redo[..count], n) ==
                if count <= FirstNonempty(redo) then s.image[n] else Overlay(s.image[n], s.mem, redo, n)
    {
      PrefixOverlay(s.image[n], s.mem, redo, count, n);
    }
    if count <= FirstNonempty(redo) {
      NothingOverlaid(s, redo[..count]);
    } else {
      SameOverlaid(s, redo[..count], redo);
    }
  }

  lemma CoveredIsAtomic(s: System, count: nat)
    requires Allowed(s, CrashInCommit(count)) && FirstCovers(s.trans.value.redo)
    ensures AllOrNothing(s, count)
  {
    StepsOverlay(s, count);
    PrefixOverlaid(s, s.trans.value.redo, count);
  }

  // A run that tears a list whose first nonempty region does not cover the others.

  function ZeroMap(names: seq<string>, size: nat): map<string, string> {
    if names == [] then map[] else ZeroMap(names[..|names| - 1], size)[names[|names| - 1] := Nuls(size)]
  }

  function Maps(names: seq<string>, size: nat): seq<Event> {
    if names == [] then [] else Maps(names[..|names| - 1], size) + [Map(names[|names| - 1], size)]
  }

  /** The system after new segments of one size have been mapped. */
  function Fresh(names: seq<string>, size: nat): System {
    System(Disk(ZeroMap(names, size), map[]), ZeroMap(names, size), None, map[], ZeroMap(names, size))
  }

  predicate Names(names: seq<string>) {
    && (forall k | 0 <= k < |names| :: GoodName(names[k]))
    && (forall j, k | 0 <= j < k < |names| :: names[j] != names[k])
  }

  lemma {:induction false} ZeroMapKeys(names: seq<string>, size: nat, n: string)
    ensures n in ZeroMap(names, size) <==> n in names
    ensures n in names ==> ZeroMap(names, size)[n] == Nuls(size)
  {
    if names != [] {
      ZeroMapKeys(names[..|names| - 1], size, n);
      assert names == names[..|names| - 1] + [names[|names| - 1]];
    }
  }

  lemma FreshStep(names: seq<string>, size: nat)
    requires Names(names) && names != []
    ensures var pre, e := Fresh(names[..|names| - 1], size), Map(names[|names| - 1], size);
            Allowed(pre, e) && Step(pre, e) == Fresh(names, size)
  {
    var pre, last := names[..|names| - 1], names[|names| - 1];
    ZeroMapKeys(pre, size, last);
    assert last !in pre;
    assert "" + Nuls(size) == Nuls(size);
    assert Nuls(size)[..size] == Nuls(size);
    assert GrowTo("", size) == Nuls(size);
  }

  lemma {:induction false} MapsRun(names: seq<string>, size: nat)
    requires Names(names)
    ensures Run(Empty, Maps(names, size)) == Some(Fresh(names, size))
  {
    if names != [] {
      var pre := names[..|names| - 1];
      MapsRun(pre, size);
      FreshStep(names, size);
      RunOne(Fresh(pre, size), Map(names[|names| - 1], size));
      RunAppend(Empty, Maps(pre, size), [Map(names[|names| - 1], size)]);
    }
  }

  /** The segments of a list, each once. */
  function Segments(redo: seq<Region>): seq<string> {
    if redo == [] then []
    else
      var pre, name := Segments(redo[..|redo| - 1]), redo[|redo| - 1].seg;
      if name in pre then pre else pre + [name]
  }

  lemma {:induction false} SegmentsAre(redo: seq<Region>)
    requires forall k | 0 <= k < |redo| :: GoodName(redo[k].seg)
    ensures Names(Segments(redo)) && forall k | 0 <= k < |redo| :: redo[k].seg in Segments(redo)
  {
    if redo != [] {
      SegmentsAre(redo[..|redo| - 1]);
    }
  }

  /** A size into which all regions fit. */
  function EndOf(redo: seq<Region>): nat {
    if redo == [] then 0
    else
      var pre, r := EndOf(redo[..|redo| - 1]), redo[|redo| - 1];
      if pre < r.offset + r.len then r.offset + r.len else pre
  }

  lemma {:induction false} EndIsBehind(redo: seq<Region>, k: nat)
    requires k < |redo|
    ensures redo[k].offset + redo[k].len <= EndOf(redo)
  {
    if k < |redo| - 1 {
      EndIsBehind(redo[..|redo| - 1], k);
    }
  }

  /** All regions are declared, and then the letter y is written over every segment. */
  function Declarations(redo: seq<Region>): seq<Op> {
    if redo == [] then [] else Declarations(redo[..|redo| - 1]) + [OpDeclare(redo[|redo| - 1])]
  }

  function Plan(redo: seq<Region>, names: seq<string>, size: nat): seq<Op> {
    if names == [] then Declarations(redo)
    else Plan(redo, names[..|names| - 1], size) + [OpWrite(Region(names[|names| - 1], 0, size), Fill(size, 'y'))]
  }

  lemma Shorter<T>(s: seq<T>, x: T)
    ensures (s + [x])[..|s + [x]| - 1] == s && (s + [x])[|s + [x]| - 1] == x
  {
  }

  lemma OpsOkSnoc(mem: Memory, ops: seq<Op>, op: Op)
    requires OpsOk(mem, ops) && OpOk(mem, op)
    ensures OpsOk(mem, ops + [op])
  {
  }

  lemma {:induction false} DeclarationsDo(mem: Memory, redo: seq<Region>)
    requires AllInRange(mem, redo)
    ensures OpsOk(mem, Declarations(redo)) && MemoryAfter(mem, Declarations(redo)) == mem && RedoAfter(Declarations(redo)) == redo
  {
    if redo != [] {
      var pre, last := redo[..|redo| - 1], redo[|redo| - 1];
      DeclarationsDo(mem, pre);
      OpsOkSnoc(mem, Declarations(pre), OpDeclare(last));
      Shorter(Declarations(pre), OpDeclare(last));
      assert pre + [last] == redo;
    }
  }

  /** The memory with the letter y all over the named segments. */
  function Covered(mem: Memory, names: seq<string>, size: nat): Memory {
    if names == [] then mem else Covered(mem, names[..|names| - 1], size)[names[|names| - 1] := Fill(size, 'y')]
  }

  lemma {:induction false} CoveredAt(mem: Memory, names: seq<string>, size: nat, k: nat)
    requires k < |names|
    ensures names[k] in Covered(mem, names, size) && Covered(mem, names, size)[names[k]] == Fill(size, 'y')
  {
    if k < |names| - 1 {
      CoveredAt(mem, names[..|names| - 1], size, k);
    }
  }

  lemma {:induction false} PlanDoes(mem: Memory, redo: seq<Region>, names: seq<string>, size: nat)
    requires AllInRange(mem, redo) && forall k | 0 <= k < |names| :: names[k] in mem && |mem[names[k]]| == size
    ensures OpsOk(mem, Plan(redo, names, size)) && RedoAfter(Plan(redo, names, size)) == redo
    ensures MemoryAfter(mem, Plan(redo, names, size)) == Covered(mem, names, size)
  {
    if names == [] {
      DeclarationsDo(mem, redo);
    } else {
      var pre := names[..|names| - 1];
      PlanDoes(mem, redo, pre, size);
      WriteAll(mem, Plan(redo, pre, size), names[|names| - 1], size);
    }
  }

  lemma WriteAll(mem: Memory, ops: seq<Op>, name: string, size: nat)
    requires OpsOk(mem, ops) && name in mem && |mem[name]| == size
    ensures var op := OpWrite(Region(name, 0, size), Fill(size, 'y'));
            && OpsOk(mem, ops + [op]) && RedoAfter(ops + [op]) == RedoAfter(ops)
            && MemoryAfter(mem, ops + [op]) == MemoryAfter(mem, ops)[name := Fill(size, 'y')]
  {
    var op := OpWrite(Region(name, 0, size), Fill(size, 'y'));
    OpsOkSnoc(mem, ops, op);
    Shorter(ops, op);
    assert Patch(MemoryAfter(mem, ops)[name], 0, Fill(size, 'y')) == Fill(size, 'y');
  }

  /** The run, up to the commit. */
  function TearRun(redo: seq<Region>): seq<Event> {
    var names, size := Segments(redo), EndOf(redo);
    Maps(names, size) + ([Begin] + Events(Plan(redo, names, size)))
  }

  /** In the state it reaches, all segments hold zeros durably and the letter y in memory. */
  lemma TearState(redo: seq<Region>) returns (s: System)
    requires forall k | 0 <= k < |redo| :: GoodName(redo[k].seg)
    ensures Run(Empty, TearRun(redo)) == Some(s) && s.trans.Some? && s.trans.value.redo == redo
    ensures AllInRange(s.mem, redo)
    ensures forall k | 0 <= k < |redo| :: redo[k].seg in s.image && s.image[redo[k].seg] == Nuls(EndOf(redo))
    ensures forall k | 0 <= k < |redo| :: s.mem[redo[k].seg] == Fill(EndOf(redo), 'y')
  {
    var names, size := Segments(redo), EndOf(redo);
    SegmentsAre(redo);
    MapsRun(names, size);
    var s0 := Fresh(names, size);
    forall n | n in names ensures n in s0.mem && s0.mem[n] == Nuls(size) { ZeroMapKeys(names, size, n); }
    forall k | 0 <= k < |redo| ensures InRange(s0.mem, redo[k]) { EndIsBehind(redo, k); }
    PlanDoes(s0.mem, redo, names, size);
    OpsRun(s0, Plan(redo, names, size));
    RunAppend(Empty, Maps(names, size), [Begin] + Events(Plan(redo, names, size)));
    s := Inside(s0, Plan(redo, names, size));
    forall k | 0 <= k < |redo|
      ensures InRange(s.mem, redo[k]) && s.mem[redo[k].seg] == Fill(size, 'y') && s.image[redo[k].seg] == Nuls(size)
    {
      EndIsBehind(redo, k);
      var j :| 0 <= j < |names| && names[j] == redo[k].seg;
      CoveredAt(s0.mem, names, size, j);
    }
  }

  /** A byte of region r outside of region f. */
  function Outside(r: Region, f: Region): nat
    requires r.len > 0
  {
    if r.seg != f.seg || r.offset < f.offset then r.offset else r.offset + r.len - 1
  }

  /** Region k is the first one that is not empty, and region j does not lie in it. */
  predicate Tears(redo: seq<Region>, k: nat, j: nat) {
    && k < |redo| && j < |redo| && (forall l | 0 <= l < k :: redo[l].len == 0) && redo[k].len > 0
    && redo[j].len > 0 && !Within(redo[j], redo[k])
  }

  lemma DeclaredBy(redo: seq<Region>, k: nat, name: string, i: nat)
    requires k < |redo| && Holds(redo[k], name, i)
    ensures Declared(redo, name, i)
  {
  }

  /** Before the second of the two bytes is written back, the first one is. */
  lemma TornBytes(redo: seq<Region>, k: nat, j: nat)
    requires Tears(redo, k, j)
    ensures Declared(redo[..k + 1], redo[k].seg, redo[k].offset)
    ensures Declared(redo, redo[j].seg, Outside(redo[j], redo[k]))
    ensures !Declared(redo[..k + 1], redo[j].seg, Outside(redo[j], redo[k]))
  {
    DeclaredBy(redo[..k + 1], k, redo[k].seg, redo[k].offset);
    DeclaredBy(redo, j, redo[j].seg, Outside(redo[j], redo[k]));
  }

  lemma TearAllowed(s: System, redo: seq<Region>, count: nat)
    requires s.trans.Some? && s.trans.value.redo == redo && AllInRange(s.mem, redo) && count <= |redo|
    requires forall l | 0 <= l < |redo| :: s.mem[redo[l].seg] == Fill(EndOf(redo), 'y')
    ensures Allowed(s, CrashInCommit(count))
  {
    forall l | 0 <= l < |redo| && redo[l].len > 0 ensures !White(s.mem[redo[l].seg][redo[l].offset]) {
      EndIsBehind(redo, l);
    }
  }

  lemma OverlaidByte(s: System, redo: seq<Region>, name: string, size: nat, i: nat)
    requires AllInRange(s.mem, redo) && name in s.image && s.image[name] == Nuls(size) && i < size
    requires name in s.mem && s.mem[name] == Fill(size, 'y')
    ensures |Overlaid(s, redo)[name]| == size
    ensures Overlaid(s, redo)[name][i] == if Declared(redo, name, i) then 'y' else '\0'
  {
  }

  lemma TearImage(s: System, redo: seq<Region>, k: nat, j: nat)
    requires s.trans.Some? && s.trans.value.redo == redo && AllInRange(s.mem, redo)
    requires Tears(redo, k, j)
    requires forall l | 0 <= l < |redo| :: redo[l].seg in s.image && s.image[redo[l].seg] == Nuls(EndOf(redo))
    requires forall l | 0 <= l < |redo| :: s.mem[redo[l].seg] == Fill(EndOf(redo), 'y')
    ensures Allowed(s, CrashInCommit(k + 1)) && !AllOrNothing(s, k + 1)
  {
    var f, r, size := redo[k], redo[j], EndOf(redo);
    var i := Outside(r, f);
    assert InRange(s.mem, f) && InRange(s.mem, r);
    TearAllowed(s, redo, k + 1);
    StepsOverlay(s, k + 1);
    TornBytes(redo, k, j);
    EndIsBehind(redo, k);
    EndIsBehind(redo, j);
    OverlaidByte(s, redo[..k + 1], f.seg, size, f.offset);
    OverlaidByte(s, redo[..k + 1], r.seg, size, i);
    OverlaidByte(s, redo, r.seg, size, i);
    Differ(Overlaid(s, redo[..k + 1]), s.image, f.seg, f.offset);
    Differ(Overlaid(s, redo[..k + 1]), Overlaid(s, redo), r.seg, i);
  }

  lemma Differ(a: map<string, string>, b: map<string, string>, name: string, i: nat)
    requires name in a && name in b && i < |a[name]| && i < |b[name]| && a[name][i] != b[name][i]
    ensures a != b
  {
  }

  /** In every run and at every point between two records, a crash leaves all of a commit or
      nothing of it, exactly if the first nonempty region holds every declared byte. */
  lemma AtomicIff(redo: seq<Region>)
    requires forall k | 0 <= k < |redo| :: GoodName(redo[k].seg)
    ensures Atomic(redo) <==> FirstCovers(redo)
  {
    if FirstCovers(redo) {
      forall events, count | Reaches(events, redo, count) ensures AllOrNothing(Run(Empty, events).value, count) {
        CoveredIsAtomic(Run(Empty, events).value, count);
      }
    } else {
      var k := FirstNonempty(redo);
      var j :| 0 <= j < |redo| && redo[j].len > 0 && !Within(redo[j], redo[k]);
      var s := TearState(redo);
      TearImage(s, redo, k, j);
      assert Reaches(TearRun(redo), redo, k + 1);
    }
  }

  /** For example, two bytes that are declared one by one: after a crash between the two records
      one of them is new and one is old. */
  lemma TwoRegionsTear()
    ensures var r0, r1 := Region("a", 0, 1), Region("a", 1, 1);
            var begun := [Map("a", 2), Begin, Declare(r0), Declare(r1), Write("a", 0, "yy")];
            var torn, whole := Run(Empty, begun + [CrashInCommit(1)]), Run(Empty, begun + [Commit]);
            && torn.Some? && "a" in torn.value.image && torn.value.image["a"] == "y\0"
            && whole.Some? && "a" in whole.value.image && whole.value.image["a"] == "yy"
  {
    var r0, r1 := Region("a", 0, 1), Region("a", 1, 1);
    var redo := [r0, r1];
    var begun := [Map("a", 2), Begin, Declare(r0), Declare(r1), Write("a", 0, "yy")];
    TwoRegionsRun(redo, begun);
    var s := TearState(redo);
    assert redo[0] == r0;
    TearAllowed(s, redo, 1);
    TwoRegionsImages(s, redo);
    LastStep(begun, s, 1);
  }

  /** A run that ends in a commit, cut short or not. */
  lemma LastStep(begun: seq<Event>, s: System, count: nat)
    requires Run(Empty, begun) == Some(s) && Allowed(s, CrashInCommit(count))
    ensures var torn := Run(Empty, begun + [CrashInCommit(count)]);
            torn.Some? && torn.value.image == Overlaid(s, s.trans.value.redo[..count])
    ensures var whole := Run(Empty, begun + [Commit]);
            whole.Some? && whole.value.image == Overlaid(s, s.trans.value.redo)
  {
    StepsOverlay(s, count);
    RunOne(s, CrashInCommit(count));
    RunOne(s, Commit);
    RunAppend(Empty, begun, [CrashInCommit(count)]);
    RunAppend(Empty, begun, [Commit]);
  }

  lemma TwoRegionsImages(s: System, redo: seq<Region>)
    requires redo == [Region("a", 0, 1), Region("a", 1, 1)] && AllInRange(s.mem, redo)
    requires "a" in s.image && s.image["a"] == Nuls(2) && "a" in s.mem && s.mem["a"] == Fill(2, 'y')
    ensures Overlaid(s, redo[..1])["a"] == "y\0" && Overlaid(s, redo)["a"] == "yy"
  {
    DeclaredBy(redo[..1], 0, "a", 0);
    DeclaredBy(redo, 0, "a", 0);
    DeclaredBy(redo, 1, "a", 1);
    assert !Declared(redo[..1], "a", 1);
    OverlaidByte(s, redo[..1], "a", 2, 0);
    OverlaidByte(s, redo[..1], "a", 2, 1);
    OverlaidByte(s, redo, "a", 2, 0);
    OverlaidByte(s, redo, "a", 2, 1);
  }

  lemma TwoRegionsRun(redo: seq<Region>, begun: seq<Event>)
    requires redo == [Region("a", 0, 1), Region("a", 1, 1)]
    requires begun == [Map("a", 2), Begin, Declare(redo[0]), Declare(redo[1]), Write("a", 0, "yy")]
    ensures TearRun(redo) == begun && EndOf(redo) == 2 && forall k | 0 <= k < 2 :: GoodName(redo[k].seg)
  {
    var d0, d1, w := OpDeclare(redo[0]), OpDeclare(redo[1]), OpWrite(Region("a", 0, 2), "yy");
    TwoSegments(redo[0], redo[1]);
    TwoPlan(redo[0], redo[1], "a", 2);
    assert Fill(2, 'y') == "yy";
    ThreeOps(d0, d1, w);
    OneMap("a", 2);
    assert [Map("a", 2)] + ([Begin] + [EventOf(d0), EventOf(d1), EventOf(w)]) == begun;
  }

  lemma OneMap(name: string, size: nat)
    ensures Maps([name], size) == [Map(name, size)]
  {
    assert [name][..0] == [];
  }

  lemma TwoSegments(r0: Region, r1: Region)
    requires r0.seg == r1.seg && r0.offset + r0.len <= r1.offset + r1.len
    ensures Segments([r0, r1]) == [r0.seg] && EndOf([r0, r1]) == r1.offset + r1.len
  {
    assert [r0][..0] == [] && [r0, r1][..1] == [r0];
    assert Segments([r0]) == [r0.seg] && EndOf([r0]) == r0.offset + r0.len;
  }

  lemma TwoPlan(r0: Region, r1: Region, name: string, size: nat)
    ensures Plan([r0, r1], [name], size) == [OpDeclare(r0), OpDeclare(r1), OpWrite(Region(name, 0, size), Fill(size, 'y'))]
  {
    assert [r0][..0] == [] && [r0, r1][..1] == [r0] && [name][..0] == [];
    assert Declarations([r0]) == [OpDeclare(r0)];
    assert Declarations([r0, r1]) == [OpDeclare(r0), OpDeclare(r1)];
    assert Plan([r0, r1], [name][..0], size) == [OpDeclare(r0), OpDeclare(r1)];
  }

  lemma ThreeOps(a: Op, b: Op, c: Op)
    ensures Events([a, b, c]) == [EventOf(a), EventOf(b), EventOf(c)]
  {
    assert [a][..0] == [] && [a, b][..1] == [a] && [a, b, c][..2] == [a, b];
    assert Events([a]) == [EventOf(a)];
    assert Events([a, b]) == [EventOf(a), EventOf(b)];
  }

  // ---------------------------------------------------------------------------------
  // When a commit can be read back.

  lemma {:induction false} CleanRecords(mem: Memory, redo: seq<Region>)
    requires AllInRange(mem, redo)
    ensures CleanRedo(mem, redo) <==> forall n | n in Touched(redo) :: AllClean(RecordsOf(mem, redo, n))
  {
    if redo != [] {
      var pre, r := redo[..|redo| - 1], redo[|redo| - 1];
      CleanRecords(mem, pre);
      TouchedStep(redo);
      CleanLast(mem, redo);
      assert InRange(mem, r);
      forall n | n in Touched(redo)
        ensures AllClean(RecordsOf(mem, redo, n)) <==>
                  (n in Touched(pre) ==> AllClean(RecordsOf(mem, pre, n))) && (n == r.seg ==> CleanRegion(mem, r))
      {
        RecordsOfUntouched(mem, pre, n);
        CleanMore(RecordsOf(mem, pre, n), Record(r.offset, Bytes(mem, r)));
      }
    }
  }

  predicate CleanRegion(mem: Memory, r: Region)
    requires InRange(mem, r)
  {
    r.len == 0 || !White(mem[r.seg][r.offset])
  }

  lemma CleanLast(mem: Memory, redo: seq<Region>)
    requires AllInRange(mem, redo) && redo != []
    ensures InRange(mem, redo[|redo| - 1])
    ensures CleanRedo(mem, redo) <==> CleanRedo(mem, redo[..|redo| - 1]) && CleanRegion(mem, redo[|redo| - 1])
  {
    var pre := redo[..|redo| - 1];
    assert forall k | 0 <= k < |pre| :: pre[k] == redo[k];
  }

  lemma CleanMore(records: seq<Record>, r: Record)
    ensures AllClean(records + [r]) <==> AllClean(records) && Clean(r)
  {
    assert forall k | 0 <= k < |records| :: (records + [r])[k] == records[k];
    assert (records + [r])[|records|] == r;
  }

  /** Whatever is committed, clean or not: the logs scan back to what was logged exactly if no
      declared region starts with a white-space byte. */
  lemma CommitScansIff(s: System, redo: seq<Region>)
    requires Inv(s) && AllInRange(s.mem, redo)
    ensures CleanRedo(s.mem, redo) <==>
              forall n | n in Touched(redo) :: ScanAll(TextOf(Committed(s, redo).disk.logs, n)) == Done(Records(Committed(s, redo), n))
  {
    CleanRecords(s.mem, redo);
    forall n | n in Touched(redo)
      ensures ScanAll(TextOf(Committed(s, redo).disk.logs, n)) == Done(Records(Committed(s, redo), n)) <==>
                AllClean(RecordsOf(s.mem, redo, n))
    {
      SegmentScansIff(s, redo, n);
    }
  }

  lemma SegmentScansIff(s: System, redo: seq<Region>, n: string)
    requires Inv(s) && AllInRange(s.mem, redo) && n in Touched(redo)
    ensures ScanAll(TextOf(Committed(s, redo).disk.logs, n)) == Done(Records(Committed(s, redo), n)) <==>
              AllClean(RecordsOf(s.mem, redo, n))
  {
    var k :| 0 <= k < |redo| && redo[k].seg == n;
    assert InRange(s.mem, redo[k]);
    assert SegmentOk(s, n);
    var was, more := Records(s, n), RecordsOf(s.mem, redo, n);
    RecordsOfUntouched(s.mem, redo, n);
    AppendedText(s.disk.logs, s.mem, redo, n);
    assert TextOf(s.disk.logs, n) == PrintAll(n, was);
    PrintAppend(n, was, more);
    assert Records(Committed(s, redo), n) == was + more;
    ScanPrinted(n, was + more);
    CleanBoth(was, more);
  }

  lemma CleanBoth(a: seq<Record>, b: seq<Record>)
    requires AllClean(a)
    ensures AllClean(a + b) <==> AllClean(b)
  {
    assert forall k | 0 <= k < |b| :: (a + b)[|a| + k] == b[k];
  }

  /** For example, a run that commits a region starting with a blank: the segment that is mapped
      after that is not the one that was committed. */
  lemma BlankCommitIsLost()
    ensures var r := Region("a", 0, 2);
            var s := Run(Empty, [Map("a", 2), Begin, Declare(r), Write("a", 0, " x")]);
            && s.Some? && AllInRange(s.value.mem, [r])
            && var c := Committed(s.value, [r]);
               && "a" in c.image && c.image["a"] == " x" && Mapped(c.disk, "a", 2) == Some("x\n")
  {
    var r := Region("a", 0, 2);
    var s := BlankRun(r);
    var redo := [r];
    assert redo[..0] == [];
    assert Declared(redo, "a", 0) && Declared(redo, "a", 1) by { assert redo[0] == r; }
    var c := Committed(s, redo);
    assert c.image["a"] == Overlay(s.image["a"], s.mem, redo, "a");
    assert c.image["a"] == " x";
    AppendedOne(s.disk.logs, s.mem, r);
    assert Bytes(s.mem, r) == " x";
    BlankMapped(c.disk);
  }

  lemma AppendedOne(logs: map<string, string>, mem: Memory, r: Region)
    requires InRange(mem, r)
    ensures Appended(logs, mem, [r]) == logs[r.seg := TextOf(logs, r.seg) + Print(r.seg, Record(r.offset, Bytes(mem, r)))]
  {
    var redo := [r];
    assert redo[..0] == [];
    assert Appended(logs, mem, redo[..|redo| - 1]) == logs;
  }

  lemma BlankRun(r: Region) returns (s: System)
    requires r == Region("a", 0, 2)
    ensures Run(Empty, [Map("a", 2), Begin, Declare(r), Write("a", 0, " x")]) == Some(s)
    ensures s.mem == map["a" := " x"] && s.image == map["a" := Nuls(2)] && s.disk == Disk(map["a" := Nuls(2)], map[])
  {
    var s0 := Fresh(["a"], 2);
    var ops := [OpDeclare(r), OpWrite(r, " x")];
    OneMap("a", 2);
    MapsRun(["a"], 2);
    FreshOne("a", 2);
    assert OpsOk(s0.mem, ops);
    OpsRun(s0, ops);
    TwoOps(ops[0], ops[1]);
    RunAppend(Empty, [Map("a", 2)], [Begin] + Events(ops));
    assert [Map("a", 2)] + ([Begin] + Events(ops)) == [Map("a", 2), Begin, Declare(r), Write("a", 0, " x")];
    s := Inside(s0, ops);
    BlankMemory(s0.mem, r, ops);
  }

  lemma FreshOne(name: string, size: nat)
    ensures ZeroMap([name], size) == map[name := Nuls(size)]
  {
    assert [name][..0] == [];
  }

  lemma TwoOps(a: Op, b: Op)
    ensures Events([a, b]) == [EventOf(a), EventOf(b)]
  {
    assert [a][..0] == [] && [a, b][..1] == [a];
    assert Events([a]) == [EventOf(a)];
  }

  lemma BlankMemory(mem: Memory, r: Region, ops: seq<Op>)
    requires r == Region("a", 0, 2) && ops == [OpDeclare(r), OpWrite(r, " x")] && mem == map["a" := Nuls(2)] && OpsOk(mem, ops)
    ensures MemoryAfter(mem, ops) == map["a" := " x"]
  {
    assert ops[..1] == [OpDeclare(r)] && ops[..1][..0] == [];
    assert MemoryAfter(mem, ops[..1]) == mem;
    assert Patch(Nuls(2), 0, " x") == " x";
  }

  lemma BlankMapped(disk: Disk)
    requires disk.files == map["a" := Nuls(2)] && disk.logs == map["a" := "" + Print("a", Record(0, " x"))]
    ensures Mapped(disk, "a", 2) == Some("x\n")
  {
    var r := Record(0, " x");
    BlankIsLost("a", 0, "x");
    assert " " + "x" == " x" && "x" + "\n" == "x\n";
    assert [r][1..] == [];
    assert PrintAll("a", [r]) == Print("a", r) + "";
    assert disk.logs["a"] == PrintAll("a", [r]);
    var found := [Record(0, "x\n")];
    assert found[..0] == [];
    assert Nuls(2)[..2] == Nuls(2);
    assert Patch(Nuls(2), 0, "x\n") == "x\n";
  }
}
