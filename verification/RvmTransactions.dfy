/** Transactions of rvm.cpp: what a client does between begin and abort, and what abort makes
    of it. */
module RvmTransactions {
  import opened Wrappers
  import opened Octets
  import opened RedoLog
  import opened Images
  import opened Rvm

  /** What a client does inside of a transaction. */
  datatype Op = OpDeclare(region: Region) | OpWrite(region: Region, data: string)

  predicate OpOk(mem: Memory, op: Op) {
    InRange(mem, op.region) && (op.OpWrite? ==> |op.data| == op.region.len)
  }

  predicate OpsOk(mem: Memory, ops: seq<Op>) {
    forall k | 0 <= k < |ops| :: OpOk(mem, ops[k])
  }

  /** The memory and the undo list after a transaction has done `ops`, begun with `mem`. */
  function MemoryAfter(mem: Memory, ops: seq<Op>): (m: Memory)
    requires OpsOk(mem, ops)
    ensures m.Keys == mem.Keys && forall n | n in mem :: |m[n]| == |mem[n]|
  {
    if ops == [] then mem
    else
      var before, op := MemoryAfter(mem, ops[..|ops| - 1]), ops[|ops| - 1];
      if op.OpDeclare? then before
      else
        assert OpOk(mem, op);
        before[op.region.seg := Patch(before[op.region.seg], op.region.offset, op.data)]
  }

  function UndoAfter(mem: Memory, ops: seq<Op>): (u: seq<Undo>)
    requires OpsOk(mem, ops)
    ensures UndoInRange(mem, u)
  {
    if ops == [] then []
    else
      var before, op := UndoAfter(mem, ops[..|ops| - 1]), ops[|ops| - 1];
      if op.OpWrite? then before
      else
        assert OpOk(mem, op);
        before + [Undo(op.region, Bytes(MemoryAfter(mem, ops[..|ops| - 1]), op.region))]
  }

  predicate Holds(r: Region, name: string, i: nat) { r.seg == name && r.offset <= i < r.offset + r.len }

  /** The position of the last declaration that covers a byte. */
  function LastDeclaration(ops: seq<Op>, name: string, i: nat): (k: Option<nat>)
    ensures k.Some? ==> k.value < |ops|
  {
    if ops == [] then None
    else
      var op := ops[|ops| - 1];
      if op.OpDeclare? && Holds(op.region, name, i) then Some(|ops| - 1)
      else LastDeclaration(ops[..|ops| - 1], name, i)
  }

  /** The byte that the newest undo record covering it saved. */
  function LastSaved(mem: Memory, undo: seq<Undo>, name: string, i: nat): Option<char>
    requires UndoInRange(mem, undo)
  {
    if undo == [] then None
    else
      var u := undo[|undo| - 1];
      if Holds(u.region, name, i) then Some(u.saved[i - u.region.offset])
      else LastSaved(mem, undo[..|undo| - 1], name, i)
  }

  lemma {:induction false} UndoneAt(mem: Memory, undo: seq<Undo>, name: string, i: nat)
    requires UndoInRange(mem, undo) && name in mem && i < |mem[name]|
    ensures Undone(mem, undo)[name][i] ==
              var saved := LastSaved(mem, undo, name, i); if saved.Some? then saved.value else mem[name][i]
  {
    if undo != [] {
      UndoneAt(mem, undo[..|undo| - 1], name, i);
    }
  }

  /** A byte at its last covering declaration. */
  function AtDeclaration(mem: Memory, ops: seq<Op>, name: string, i: nat): Option<char>
    requires OpsOk(mem, ops) && name in mem && i < |mem[name]|
  {
    match LastDeclaration(ops, name, i)
    case None => None
    case Some(k) => Some(MemoryAfter(mem, ops[..k])[name][i])
  }

  lemma AtDeclarationStep(mem: Memory, ops: seq<Op>, name: string, i: nat)
    requires OpsOk(mem, ops) && name in mem && i < |mem[name]| && ops != []
    ensures var pre, op := ops[..|ops| - 1], ops[|ops| - 1];
            AtDeclaration(mem, ops, name, i) ==
              if op.OpDeclare? && Holds(op.region, name, i) then Some(MemoryAfter(mem, pre)[name][i])
              else AtDeclaration(mem, pre, name, i)
  {
    var pre := ops[..|ops| - 1];
    var last := LastDeclaration(pre, name, i);
    if last.Some? {
      assert pre[..last.value] == ops[..last.value];
    }
  }

  lemma LastSavedStep(mem: Memory, undo: seq<Undo>, u: Undo, name: string, i: nat)
    requires UndoInRange(mem, undo) && UndoInRange(mem, undo + [u]) && |u.saved| == u.region.len
    ensures LastSaved(mem, undo + [u], name, i) ==
              if Holds(u.region, name, i) then Some(u.saved[i - u.region.offset]) else LastSaved(mem, undo, name, i)
  {
    assert (undo + [u])[..|undo|] == undo;
  }

  /** The undo record that a declaration of this region adds. */
  function Copy(mem: Memory, r: Region): (u: Undo)
    requires InRange(mem, r)
    ensures |u.saved| == u.region.len == r.len
  {
    Undo(r, Bytes(mem, r))
  }

  lemma DeclareSaves(mem: Memory, now: Memory, undo: seq<Undo>, r: Region, name: string, i: nat)
    requires InRange(mem, r) && InRange(now, r) && UndoInRange(mem, undo) && name in now && i < |now[name]|
    ensures UndoInRange(mem, undo + [Copy(now, r)])
    ensures LastSaved(mem, undo + [Copy(now, r)], name, i) ==
              if Holds(r, name, i) then Some(now[name][i]) else LastSaved(mem, undo, name, i)
  {
    LastSavedStep(mem, undo, Copy(now, r), name, i);
  }

  lemma UndoAfterStep(mem: Memory, ops: seq<Op>)
    requires OpsOk(mem, ops) && ops != []
    ensures var pre, op := ops[..|ops| - 1], ops[|ops| - 1];
            && InRange(mem, op.region) && InRange(MemoryAfter(mem, pre), op.region)
            && UndoAfter(mem, ops) ==
                 if op.OpWrite? then UndoAfter(mem, pre) else UndoAfter(mem, pre) + [Copy(MemoryAfter(mem, pre), op.region)]
  {
    assert OpOk(mem, ops[|ops| - 1]);
  }

  lemma {:induction false} SavedAt(mem: Memory, ops: seq<Op>, name: string, i: nat)
    requires OpsOk(mem, ops) && name in mem && i < |mem[name]|
    ensures LastSaved(mem, UndoAfter(mem, ops), name, i) == AtDeclaration(mem, ops, name, i)
  {
    if ops != [] {
      var pre, op := ops[..|ops| - 1], ops[|ops| - 1];
      SavedAt(mem, pre, name, i);
      AtDeclarationStep(mem, ops, name, i);
      UndoAfterStep(mem, ops);
      if op.OpDeclare? {
        DeclareSaves(mem, MemoryAfter(mem, pre), UndoAfter(mem, pre), op.region, name, i);
      }
    }
  }

  /** Undo records only look at the sizes of the memory. */
  lemma {:induction false} SavedFrame(mem: Memory, mem': Memory, undo: seq<Undo>, name: string, i: nat)
    requires UndoInRange(mem, undo) && UndoInRange(mem', undo)
    ensures LastSaved(mem', undo, name, i) == LastSaved(mem, undo, name, i)
  {
    if undo != [] {
      SavedFrame(mem, mem', undo[..|undo| - 1], name, i);
    }
  }

  lemma StaysInRange(mem: Memory, ops: seq<Op>)
    requires OpsOk(mem, ops)
    ensures UndoInRange(MemoryAfter(mem, ops), UndoAfter(mem, ops))
  {
    var now, undo := MemoryAfter(mem, ops), UndoAfter(mem, ops);
    forall k | 0 <= k < |undo| ensures InRange(now, undo[k].region) && |undo[k].saved| == undo[k].region.len {
      assert InRange(mem, undo[k].region);
    }
  }

  /** The memory after an abort. */
  function AbortedMemory(mem: Memory, ops: seq<Op>): Memory
    requires OpsOk(mem, ops)
  {
    StaysInRange(mem, ops);
    Undone(MemoryAfter(mem, ops), UndoAfter(mem, ops))
  }

  lemma ByteAfterAbort(mem: Memory, ops: seq<Op>, name: string, i: nat)
    requires OpsOk(mem, ops) && name in mem && i < |mem[name]|
    ensures name in AbortedMemory(mem, ops) && |AbortedMemory(mem, ops)[name]| == |mem[name]|
    ensures AbortedMemory(mem, ops)[name][i] ==
              match LastDeclaration(ops, name, i)
              case None => MemoryAfter(mem, ops)[name][i]
              case Some(k) => MemoryAfter(mem, ops[..k])[name][i]
  {
    var now, undo := MemoryAfter(mem, ops), UndoAfter(mem, ops);
    StaysInRange(mem, ops);
    UndoneAt(now, undo, name, i);
    SavedAt(mem, ops, name, i);
    SavedFrame(mem, now, undo, name, i);
  }

  /** No write among the operations touches the byte. */
  predicate Untouched(ops: seq<Op>, name: string, i: nat) {
    forall k | 0 <= k < |ops| :: ops[k].OpWrite? ==> !Holds(ops[k].region, name, i)
  }

  /** A byte is handled properly if it is not written before its last declaration, and not at
      all if it has none. */
  predicate Proper(ops: seq<Op>, name: string, i: nat) {
    match LastDeclaration(ops, name, i)
    case None => Untouched(ops, name, i)
    case Some(k) => Untouched(ops[..k], name, i)
  }

  lemma {:induction false} UntouchedByte(mem: Memory, ops: seq<Op>, name: string, i: nat)
    requires OpsOk(mem, ops) && name in mem && i < |mem[name]| && Untouched(ops, name, i)
    ensures MemoryAfter(mem, ops)[name][i] == mem[name][i]
  {
    if ops != [] {
      var pre := ops[..|ops| - 1];
      assert Untouched(pre, name, i) by {
        assert forall k | 0 <= k < |pre| :: pre[k] == ops[k];
      }
      UntouchedByte(mem, pre, name, i);
      assert OpOk(mem, ops[|ops| - 1]);
    }
  }

  lemma ProperByte(mem: Memory, ops: seq<Op>, name: string, i: nat)
    requires OpsOk(mem, ops) && name in mem && i < |mem[name]| && Proper(ops, name, i)
    ensures name in AbortedMemory(mem, ops) && |AbortedMemory(mem, ops)[name]| == |mem[name]|
    ensures AbortedMemory(mem, ops)[name][i] == mem[name][i]
  {
    ByteAfterAbort(mem, ops, name, i);
    match LastDeclaration(ops, name, i) {
      case None => UntouchedByte(mem, ops, name, i);
      case Some(k) => UntouchedByte(mem, ops[..k], name, i);
    }
  }

  lemma ProperRestores(mem: Memory, ops: seq<Op>)
    requires OpsOk(mem, ops)
    requires forall n, i: nat | n in mem && i < |mem[n]| :: Proper(ops, n, i)
    ensures AbortedMemory(mem, ops) == mem
  {
    StaysInRange(mem, ops);
    forall n | n in mem ensures AbortedMemory(mem, ops)[n] == mem[n] {
      forall i: nat | i < |mem[n]| ensures AbortedMemory(mem, ops)[n][i] == mem[n][i] {
        assert Proper(ops, n, i);
        ProperByte(mem, ops, n, i);
      }
    }
  }

  // ---------------------------------------------------------------------------------
  // The same on runs.

  function EventOf(op: Op): Event {
    if op.OpDeclare? then Declare(op.region) else Write(op.region.seg, op.region.offset, op.data)
  }

  function Events(ops: seq<Op>): seq<Event> {
    if ops == [] then [] else Events(ops[..|ops| - 1]) + [EventOf(ops[|ops| - 1])]
  }

  function RedoAfter(ops: seq<Op>): seq<Region> {
    if ops == [] then []
    else
      var before, op := RedoAfter(ops[..|ops| - 1]), ops[|ops| - 1];
      if op.OpWrite? then before else before + [op.region]
  }

  /** The system in a transaction that was begun in s and has done `ops`. */
  function Inside(s: System, ops: seq<Op>): System
    requires OpsOk(s.mem, ops)
  {
    s.(mem := MemoryAfter(s.mem, ops), trans := Some(Trans(UndoAfter(s.mem, ops), RedoAfter(ops))))
  }

  lemma InsideStep(s: System, ops: seq<Op>)
    requires OpsOk(s.mem, ops) && ops != []
    ensures var pre, e := Inside(s, ops[..|ops| - 1]), EventOf(ops[|ops| - 1]);
            Allowed(pre, e) && Step(pre, e) == Inside(s, ops)
  {
    var op := ops[|ops| - 1];
    assert OpOk(s.mem, op);
    UndoAfterStep(s.mem, ops);
  }

  /** Begin and the declarations and writes of a transaction, as a run. */
  lemma {:induction false} OpsRun(s: System, ops: seq<Op>)
    requires s.trans.None? && OpsOk(s.mem, ops)
    ensures Run(s, [Begin] + Events(ops)) == Some(Inside(s, ops))
  {
    if ops == [] {
      RunOne(s, Begin);
      assert [Begin] + [] == [Begin];
    } else {
      var pre, e := ops[..|ops| - 1], EventOf(ops[|ops| - 1]);
      OpsRun(s, pre);
      InsideStep(s, ops);
      RunOne(Inside(s, pre), e);
      RunAppend(s, [Begin] + Events(pre), [e]);
      assert ([Begin] + Events(pre)) + [e] == [Begin] + Events(ops);
    }
  }

  function Transaction(ops: seq<Op>): seq<Event> { ([Begin] + Events(ops)) + [Abort] }

  predicate Declares(ops: seq<Op>) { exists k :: 0 <= k < |ops| && ops[k].OpDeclare? }

  lemma {:induction false} SomethingToUndo(mem: Memory, ops: seq<Op>)
    requires OpsOk(mem, ops)
    ensures UndoAfter(mem, ops) != [] <==> Declares(ops)
  {
    if ops != [] {
      var pre := ops[..|ops| - 1];
      SomethingToUndo(mem, pre);
      assert Declares(ops) <==> Declares(pre) || ops[|ops| - 1].OpDeclare? by {
        assert forall k | 0 <= k < |pre| :: pre[k] == ops[k];
        if Declares(ops) {
          var k :| 0 <= k < |ops| && ops[k].OpDeclare?;
          assert k < |pre| ==> pre[k].OpDeclare?;
        }
      }
    }
  }

  /** A transaction that is aborted changes the memory and nothing else; it can be aborted if
      something was declared in it. */
  lemma AbortRun(s: System, ops: seq<Op>)
    requires s.trans.None? && OpsOk(s.mem, ops)
    ensures Run(s, Transaction(ops)) == if Declares(ops) then Some(s.(mem := AbortedMemory(s.mem, ops))) else None
  {
    OpsRun(s, ops);
    StaysInRange(s.mem, ops);
    SomethingToUndo(s.mem, ops);
    RunOne(Inside(s, ops), Abort);
    RunAppend(s, [Begin] + Events(ops), [Abort]);
  }

  /** Abort leaves disk and log alone, sets each declared byte to its value at the last
      declaration that covers it, and leaves the others as they are. */
  lemma AbortByte(s: System, ops: seq<Op>, name: string, i: nat)
    requires s.trans.None? && OpsOk(s.mem, ops) && Declares(ops) && name in s.mem && i < |s.mem[name]|
    ensures var r := Run(s, Transaction(ops));
            && r.Some? && r.value.disk == s.disk && r.value.records == s.records && r.value.image == s.image && r.value.trans.None?
            && name in r.value.mem && |r.value.mem[name]| == |s.mem[name]|
            && r.value.mem[name][i] ==
                 match LastDeclaration(ops, name, i)
                 case None => MemoryAfter(s.mem, ops)[name][i]
                 case Some(k) => MemoryAfter(s.mem, ops[..k])[name][i]
  {
    AbortRun(s, ops);
    ByteAfterAbort(s.mem, ops, name, i);
  }

  /** So abort brings everything back, if no byte was written before its last declaration, nor
      at all where it was never declared. */
  lemma AbortRestores(s: System, ops: seq<Op>)
    requires s.trans.None? && OpsOk(s.mem, ops) && Declares(ops)
    requires forall n, i: nat | n in s.mem && i < |s.mem[n]| :: Proper(ops, n, i)
    ensures Run(s, Transaction(ops)) == Some(s)
  {
    AbortRun(s, ops);
    ProperRestores(s.mem, ops);
  }

  // ---------------------------------------------------------------------------------
  // Disjoint regions.

  lemma {:induction false} LastDeclarationSpec(ops: seq<Op>, name: string, i: nat)
    ensures match LastDeclaration(ops, name, i)
            case Some(k) => ops[k].OpDeclare? && Holds(ops[k].region, name, i)
            case None => forall k | 0 <= k < |ops| :: !(ops[k].OpDeclare? && Holds(ops[k].region, name, i))
  {
    if ops != [] {
      var pre := ops[..|ops| - 1];
      LastDeclarationSpec(pre, name, i);
      assert forall k | 0 <= k < |pre| :: pre[k] == ops[k];
    }
  }

  predicate Disjoint(a: Region, b: Region) {
    a.seg != b.seg || a.offset + a.len <= b.offset || b.offset + b.len <= a.offset
  }

  /** The declared regions do not overlap, and a byte is written only after its declaration. */
  ghost predicate DeclaredFirst(ops: seq<Op>) {
    && (forall j, k | 0 <= j < k < |ops| && ops[j].OpDeclare? && ops[k].OpDeclare? :: Disjoint(ops[j].region, ops[k].region))
    && (forall k, i: nat | 0 <= k < |ops| && ops[k].OpWrite? && Holds(ops[k].region, ops[k].region.seg, i) ::
          exists j :: 0 <= j < k && ops[j].OpDeclare? && Holds(ops[j].region, ops[k].region.seg, i))
  }

  lemma DisjointIsProper(ops: seq<Op>, name: string, i: nat)
    requires DeclaredFirst(ops)
    ensures Proper(ops, name, i)
  {
    LastDeclarationSpec(ops, name, i);
  }

  /** Pairwise disjoint regions that are declared before they are written: everything returns. */
  lemma DisjointAbortRestores(s: System, ops: seq<Op>)
    requires s.trans.None? && OpsOk(s.mem, ops) && Declares(ops) && DeclaredFirst(ops)
    ensures Run(s, Transaction(ops)) == Some(s)
  {
    forall n, i: nat | n in s.mem && i < |s.mem[n]| ensures Proper(ops, n, i) {
      DisjointIsProper(ops, n, i);
    }
    AbortRestores(s, ops);
  }

  // ---------------------------------------------------------------------------------
  // Exactly when abort restores.

  /** The same declarations and writes, whatever is written. */
  predicate SameShape(ops: seq<Op>, ops': seq<Op>) {
    && |ops| == |ops'|
    && forall k | 0 <= k < |ops| :: ops'[k].region == ops[k].region && (ops'[k].OpDeclare? <==> ops[k].OpDeclare?)
  }

  function Fill(n: nat, c: char): (r: string)
    ensures |r| == n && forall i | 0 <= i < n :: r[i] == c
  {
    seq(n, i => c)
  }

  function PaintOp(op: Op): Op {
    if op.OpDeclare? then op else OpWrite(op.region, Fill(op.region.len, 'y'))
  }

  /** The same operations, with every write writing the letter y. */
  function Paint(ops: seq<Op>): (r: seq<Op>)
    ensures SameShape(ops, r)
  {
    seq(|ops|, k requires 0 <= k < |ops| => PaintOp(ops[k]))
  }

  /** A memory of the same sizes that holds the letter x everywhere. */
  function Blank(mem: Memory): (r: Memory)
    ensures r.Keys == mem.Keys && forall n | n in mem :: |r[n]| == |mem[n]|
  {
    map n | n in mem :: Fill(|mem[n]|, 'x')
  }

  lemma PaintOk(mem: Memory, ops: seq<Op>)
    requires OpsOk(mem, ops)
    ensures OpsOk(Blank(mem), Paint(ops)) && (Declares(Paint(ops)) <==> Declares(ops))
  {
    forall k | 0 <= k < |ops| ensures OpOk(Blank(mem), Paint(ops)[k]) && (Paint(ops)[k].OpDeclare? <==> ops[k].OpDeclare?) {
      assert OpOk(mem, ops[k]);
    }
    if Declares(ops) {
      var k :| 0 <= k < |ops| && ops[k].OpDeclare?;
      assert Paint(ops)[k].OpDeclare?;
    }
  }

  /** A byte is painted exactly if some write touches it. */
  lemma {:induction false} PaintedByte(mem: Memory, ops: seq<Op>, name: string, i: nat)
    requires OpsOk(mem, ops) && OpsOk(Blank(mem), Paint(ops)) && name in mem && i < |mem[name]|
    ensures MemoryAfter(Blank(mem), Paint(ops))[name][i] == if Untouched(ops, name, i) then 'x' else 'y'
  {
    if ops != [] {
      var pre, op := ops[..|ops| - 1], ops[|ops| - 1];
      assert Paint(ops)[..|ops| - 1] == Paint(pre);
      PaintedByte(mem, pre, name, i);
      UntouchedStep(ops, name, i);
      assert OpOk(Blank(mem), Paint(ops)[|ops| - 1]);
    }
  }

  lemma UntouchedStep(ops: seq<Op>, name: string, i: nat)
    requires ops != []
    ensures var pre, op := ops[..|ops| - 1], ops[|ops| - 1];
            Untouched(ops, name, i) <==> Untouched(pre, name, i) && (op.OpWrite? ==> !Holds(op.region, name, i))
  {
    var pre := ops[..|ops| - 1];
    assert forall k | 0 <= k < |pre| :: pre[k] == ops[k];
  }

  lemma {:induction false} SameLastDeclaration(ops: seq<Op>, ops': seq<Op>, name: string, i: nat)
    requires SameShape(ops, ops')
    ensures LastDeclaration(ops', name, i) == LastDeclaration(ops, name, i)
  {
    if ops != [] {
      var last := |ops| - 1;
      assert ops'[last].region == ops[last].region;
      SameLastDeclaration(ops[..last], ops'[..last], name, i);
    }
  }

  /** A byte that is not handled properly does not return, whatever the operations did before,
      once the writes write y over x. */
  lemma ImproperByte(mem: Memory, ops: seq<Op>, name: string, i: nat)
    requires OpsOk(mem, ops) && OpsOk(Blank(mem), Paint(ops)) && name in mem && i < |mem[name]| && !Proper(ops, name, i)
    ensures name in AbortedMemory(Blank(mem), Paint(ops)) && |AbortedMemory(Blank(mem), Paint(ops))[name]| == |mem[name]|
    ensures AbortedMemory(Blank(mem), Paint(ops))[name][i] == 'y'
  {
    ByteAfterAbort(Blank(mem), Paint(ops), name, i);
    SameLastDeclaration(ops, Paint(ops), name, i);
    match LastDeclaration(ops, name, i) {
      case None => PaintedByte(mem, ops, name, i);
      case Some(k) =>
        assert Paint(ops)[..k] == Paint(ops[..k]);
        assert OpsOk(mem, ops[..k]) && OpsOk(Blank(mem), Paint(ops[..k]));
        PaintedByte(mem, ops[..k], name, i);
    }
  }

  /** Whatever the memory holds and whatever is written, a transaction of this shape that is
      aborted leaves the system as it was. */
  ghost predicate AlwaysRestores(s: System, ops: seq<Op>) {
    forall s': System, ops' | s'.trans.None? && SameSizes(s.mem, s'.mem) && SameShape(ops, ops') && OpsOk(s'.mem, ops') ::
      Run(s', Transaction(ops')) == Some(s')
  }

  predicate SameSizes(mem: Memory, mem': Memory) {
    mem'.Keys == mem.Keys && forall n | n in mem :: |mem'[n]| == |mem[n]|
  }

  lemma SameProper(ops: seq<Op>, ops': seq<Op>, name: string, i: nat)
    requires SameShape(ops, ops') && Proper(ops, name, i)
    ensures Proper(ops', name, i)
  {
    SameLastDeclaration(ops, ops', name, i);
  }

  /** It does so exactly if no byte is written before its last declaration, nor at all where it
      is never declared. */
  lemma RestoresIff(s: System, ops: seq<Op>)
    requires s.trans.None? && OpsOk(s.mem, ops) && Declares(ops)
    ensures AlwaysRestores(s, ops) <==> forall n, i: nat | n in s.mem && i < |s.mem[n]| :: Proper(ops, n, i)
  {
    if forall n, i: nat | n in s.mem && i < |s.mem[n]| :: Proper(ops, n, i) {
      forall s': System, ops' | s'.trans.None? && SameSizes(s.mem, s'.mem) && SameShape(ops, ops') && OpsOk(s'.mem, ops')
        ensures Run(s', Transaction(ops')) == Some(s')
      {
        SameRestores(s, ops, s', ops');
      }
    } else {
      var n, i: nat :| n in s.mem && i < |s.mem[n]| && !Proper(ops, n, i);
      ImproperRun(s, ops, n, i);
    }
  }

  lemma SameRestores(s: System, ops: seq<Op>, s': System, ops': seq<Op>)
    requires Declares(ops) && forall n, i: nat | n in s.mem && i < |s.mem[n]| :: Proper(ops, n, i)
    requires s'.trans.None? && SameSizes(s.mem, s'.mem) && SameShape(ops, ops') && OpsOk(s'.mem, ops')
    ensures Run(s', Transaction(ops')) == Some(s')
  {
    forall n, i: nat | n in s'.mem && i < |s'.mem[n]| ensures Proper(ops', n, i) {
      SameProper(ops, ops', n, i);
    }
    var k :| 0 <= k < |ops| && ops[k].OpDeclare?;
    assert ops'[k].OpDeclare?;
    AbortRestores(s', ops');
  }

  lemma ImproperRun(s: System, ops: seq<Op>, n: string, i: nat)
    requires s.trans.None? && OpsOk(s.mem, ops) && Declares(ops) && n in s.mem && i < |s.mem[n]| && !Proper(ops, n, i)
    ensures !AlwaysRestores(s, ops)
  {
    var s' := s.(mem := Blank(s.mem));
    PaintOk(s.mem, ops);
    AbortRun(s', Paint(ops));
    ImproperByte(s.mem, ops, n, i);
    assert s'.mem[n][i] == 'x';
    assert Run(s', Transaction(Paint(ops))) != Some(s');
    assert SameSizes(s.mem, s'.mem) && SameShape(ops, Paint(ops));
  }

  /** For example, a region that is declared again after a write keeps that write. */
  lemma RedeclaringKeepsWrite(s: System, r: Region, data: string)
    requires s.trans.None? && InRange(s.mem, r) && |data| == r.len
    ensures Run(s, [Begin, Declare(r), Write(r.seg, r.offset, data), Declare(r), Abort]) ==
              Some(s.(mem := s.mem[r.seg := Patch(s.mem[r.seg], r.offset, data)]))
  {
    var ops := [OpDeclare(r), OpWrite(r, data), OpDeclare(r)];
    assert OpsOk(s.mem, ops);
    assert ops[0].OpDeclare?;
    AbortRun(s, ops);
    ThreeEvents(r, data, ops);
    Redeclared(s.mem, r, data, ops);
  }

  lemma ThreeEvents(r: Region, data: string, ops: seq<Op>)
    requires ops == [OpDeclare(r), OpWrite(r, data), OpDeclare(r)]
    ensures Transaction(ops) == [Begin, Declare(r), Write(r.seg, r.offset, data), Declare(r), Abort]
  {
    assert ops[..2] == [OpDeclare(r), OpWrite(r, data)] && ops[..2][..1] == [OpDeclare(r)] && ops[..2][..1][..0] == [];
    assert Events(ops[..2][..1]) == [Declare(r)];
    assert Events(ops[..2]) == [Declare(r), Write(r.seg, r.offset, data)];
  }

  lemma Redeclared(mem: Memory, r: Region, data: string, ops: seq<Op>)
    requires InRange(mem, r) && |data| == r.len && ops == [OpDeclare(r), OpWrite(r, data), OpDeclare(r)] && OpsOk(mem, ops)
    ensures AbortedMemory(mem, ops) == mem[r.seg := Patch(mem[r.seg], r.offset, data)]
  {
    var patched := mem[r.seg := Patch(mem[r.seg], r.offset, data)];
    WrittenOnce(mem, r, data, ops);
    StaysInRange(mem, ops);
    var after := AbortedMemory(mem, ops);
    forall n | n in mem ensures after[n] == patched[n] {
      forall i: nat | i < |mem[n]| ensures after[n][i] == patched[n][i] {
        ByteAfterAbort(mem, ops, n, i);
        LastDeclarationSpec(ops, n, i);
        assert Holds(r, n, i) ==> LastDeclaration(ops, n, i) == Some(2);
      }
    }
  }

  lemma WrittenOnce(mem: Memory, r: Region, data: string, ops: seq<Op>)
    requires InRange(mem, r) && |data| == r.len && ops == [OpDeclare(r), OpWrite(r, data), OpDeclare(r)] && OpsOk(mem, ops)
    ensures MemoryAfter(mem, ops) == MemoryAfter(mem, ops[..2]) == mem[r.seg := Patch(mem[r.seg], r.offset, data)]
  {
    var two := ops[..2];
    assert two == [OpDeclare(r), OpWrite(r, data)] && two[..1] == [OpDeclare(r)] && two[..1][..0] == [];
    assert MemoryAfter(mem, two[..1]) == mem;
  }

  /** Truncations and crashes can happen in every state, and a crash in the middle of a commit after
      any number of its records. */
  lemma AtAnyTime(s: System, count: nat)
    ensures Allowed(s, Truncate) && Allowed(s, Crash)
    ensures Allowed(s, Commit) && count <= |s.trans.value.redo| ==> Allowed(s, CrashInCommit(count))
  {
  }
}
