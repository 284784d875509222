/** Images of segments and what log records do to them. */
module Images {
  import opened Wrappers
  import opened Octets
  import opened RedoLog

  /** memcpy or write of `data` at `off`. */
  function Patch(img: string, off: nat, data: string): (r: string)
    requires off + |data| <= |img|
    ensures |r| == |img|
    ensures forall i | 0 <= i < |img| :: r[i] == if off <= i < off + |data| then data[i - off] else img[i]
  {
    img[..off] + data + img[off + |data|..]
  }

  predicate Fits(records: seq<Record>, size: nat) {
    forall k | 0 <= k < |records| :: records[k].offset + |records[k].data| <= size
  }

  /** Applying records in their order. */
  function Replay(img: string, records: seq<Record>): (r: string)
    requires Fits(records, |img|)
    ensures |r| == |img|
  {
    if records == [] then img
    else
      var last := records[|records| - 1];
      Patch(Replay(img, records[..|records| - 1]), last.offset, last.data)
  }

  predicate Covers(r: Record, i: nat) { r.offset <= i < r.offset + |r.data| }

  /** The byte that the last record covering position i puts there. */
  function LastByte(records: seq<Record>, i: nat): Option<char> {
    if records == [] then None
    else
      var last := records[|records| - 1];
      if Covers(last, i) then Some(last.data[i - last.offset]) else LastByte(records[..|records| - 1], i)
  }

  lemma {:induction false} ReplayAt(img: string, records: seq<Record>, i: nat)
    requires Fits(records, |img|) && i < |img|
    ensures Replay(img, records)[i] == if LastByte(records, i).Some? then LastByte(records, i).value else img[i]
  {
    if records != [] {
      ReplayAt(img, records[..|records| - 1], i);
    }
  }

  /** Two images that agree where no record writes become equal. */
  lemma ReplayAgrees(a: string, b: string, records: seq<Record>)
    requires |a| == |b| && Fits(records, |a|)
    requires forall i: nat | i < |a| && LastByte(records, i).None? :: a[i] == b[i]
    ensures Replay(a, records) == Replay(b, records)
  {
    forall i: nat | i < |a| ensures Replay(a, records)[i] == Replay(b, records)[i] {
      ReplayAt(a, records, i);
      ReplayAt(b, records, i);
    }
  }

  lemma {:induction false} ReplayAppend(img: string, a: seq<Record>, b: seq<Record>)
    requires Fits(a, |img|) && Fits(b, |img|)
    ensures Fits(a + b, |img|) && Replay(img, a + b) == Replay(Replay(img, a), b)
  {
    if b == [] {
      assert a + b == a;
    } else {
      assert (a + b)[..|a + b| - 1] == a + b[..|b| - 1];
      ReplayAppend(img, a, b[..|b| - 1]);
    }
  }

  /** The image after k records and the first b bytes of the next one. */
  function PartialReplay(img: string, records: seq<Record>, k: nat, b: nat): (r: string)
    requires Fits(records, |img|) && k <= |records| && (k < |records| ==> b <= |records[k].data|)
    ensures |r| == |img|
  {
    var done := Replay(img, records[..k]);
    if k < |records| then Patch(done, records[k].offset, records[k].data[..b]) else done
  }

  lemma {:induction false} CoveredLater(records: seq<Record>, k: nat, i: nat)
    requires k < |records| && Covers(records[k], i)
    ensures LastByte(records, i).Some?
  {
    if k < |records| - 1 {
      CoveredLater(records[..|records| - 1], k, i);
    }
  }

  lemma {:induction false} LastByteCovers(records: seq<Record>, i: nat) returns (k: nat)
    requires LastByte(records, i).Some?
    ensures k < |records| && Covers(records[k], i)
  {
    var last := |records| - 1;
    if Covers(records[last], i) {
      k := last;
    } else {
      k := LastByteCovers(records[..last], i);
    }
  }

  /** Replaying a whole log over an image on which it was replayed in part gives the same as
      replaying it once. */
  lemma ReplayIsIdempotent(img: string, records: seq<Record>, k: nat, b: nat)
    requires Fits(records, |img|) && k <= |records| && (k < |records| ==> b <= |records[k].data|)
    ensures Replay(PartialReplay(img, records, k, b), records) == Replay(img, records)
  {
    var part := PartialReplay(img, records, k, b);
    forall i: nat | i < |img| && LastByte(records, i).None? ensures part[i] == img[i] {
      ReplayAt(img, records[..k], i);
      if LastByte(records[..k], i).Some? {
        var j := LastByteCovers(records[..k], i);
        CoveredLater(records, j, i);
      }
      if k < |records| && Covers(records[k], i) {
        CoveredLater(records, k, i);
      }
    }
    ReplayAgrees(part, img, records);
  }

  /** An image extended with zeros, never cut. */
  function GrowTo(img: string, size: nat): (r: string)
    ensures |r| >= size && |r| >= |img|
  {
    if |img| < size then img + Nuls(size - |img|) else img
  }

  /** Bytes behind a prefix are not touched by records that fit into it. */
  lemma {:induction false} ReplayPrefix(img: string, records: seq<Record>, size: nat)
    requires size <= |img| && Fits(records, size)
    ensures Fits(records, |img|)
    ensures Replay(img, records) == Replay(img[..size], records) + img[size..]
  {
    if records == [] {
      assert img == img[..size] + img[size..];
    } else {
      ReplayPrefix(img, records[..|records| - 1], size);
    }
  }

  /** Growing a file and reading a part of it commute with replaying. */
  lemma ReplayGrown(file: string, records: seq<Record>, size: nat)
    requires Fits(records, |file|) && Fits(records, size)
    ensures Fits(records, |GrowTo(file, size)|)
    ensures Replay(GrowTo(file, size), records) == GrowTo(Replay(file, records), size)
    ensures Replay(GrowTo(file, size)[..size], records) == GrowTo(Replay(file, records), size)[..size]
  {
    var grown := GrowTo(file, size);
    assert grown[..|file|] == file;
    ReplayPrefix(grown, records, |file|);
    ReplayPrefix(grown, records, size);
    assert Replay(file, records) + grown[|file|..] == GrowTo(Replay(file, records), size);
  }
}

/** Recoverable virtual memory: the operations of rvm.cpp on memory and disk, runs with
    crashes, and the abstract committed image that they implement. */
module Rvm {
  import opened Wrappers
  import opened Octets
  import opened RedoLog
  import opened Images

  datatype Region = Region(seg: string, offset: nat, len: nat)

  /** The saved contents of a declared region. */
  datatype Undo = Undo(region: Region, saved: string)

  /** Redo entries point at live memory, so only the region is kept. */
  datatype Trans = Trans(undo: seq<Undo>, redo: seq<Region>)

  type Memory = map<string, string>

  /** A log file exists once something has been committed to the segment, and until the next
      truncation. */
  datatype Disk = Disk(files: map<string, string>, logs: map<string, string>)

  predicate InRange(mem: Memory, r: Region) {
    r.seg in mem && r.offset + r.len <= |mem[r.seg]|
  }

  function Bytes(mem: Memory, r: Region): (s: string)
    requires InRange(mem, r)
    ensures |s| == r.len
  {
    mem[r.seg][r.offset..r.offset + r.len]
  }

  predicate AllInRange(mem: Memory, regions: seq<Region>) {
    forall k | 0 <= k < |regions| :: InRange(mem, regions[k])
  }

  predicate UndoInRange(mem: Memory, undo: seq<Undo>) {
    forall k | 0 <= k < |undo| :: InRange(mem, undo[k].region) && |undo[k].saved| == undo[k].region.len
  }

  // ---------------------------------------------------------------------------------
  // The operations.

  /** The file is created or extended with zeros, never cut. */
  function Grown(disk: Disk, name: string, size: nat): string {
    GrowTo(if name in disk.files then disk.files[name] else "", size)
  }

  /** What rvm_map reads and replays; None where the scan goes wrong or a record does not
      fit into the memory that was asked for. */
  function Mapped(disk: Disk, name: string, size: nat): (r: Option<string>)
    ensures r.Some? ==> |r.value| == size
  {
    var mem := Grown(disk, name, size)[..size];
    if name !in disk.logs then Some(mem)
    else
      match ScanAll(disk.logs[name])
      case Undefined => None
      case Done(records) => if Fits(records, size) then Some(Replay(mem, records)) else None
  }

  /** The log files after the redo list has been appended to them, record by record. */
  function Appended(logs: map<string, string>, mem: Memory, redo: seq<Region>): map<string, string>
    requires AllInRange(mem, redo)
  {
    if redo == [] then logs
    else
      var before := Appended(logs, mem, redo[..|redo| - 1]);
      var r := redo[|redo| - 1];
      var log := if r.seg in before then before[r.seg] else "";
      before[r.seg := log + Print(r.seg, Record(r.offset, Bytes(mem, r)))]
  }

  /** Undo records are applied oldest first. */
  function Undone(mem: Memory, undo: seq<Undo>): (m: Memory)
    requires UndoInRange(mem, undo)
    ensures m.Keys == mem.Keys && forall s | s in mem :: |m[s]| == |mem[s]|
  {
    if undo == [] then mem
    else
      var before := Undone(mem, undo[..|undo| - 1]);
      var u := undo[|undo| - 1];
      before[u.region.seg := Patch(before[u.region.seg], u.region.offset, u.saved)]
  }

  // ---------------------------------------------------------------------------------
  // Runs.

  /** Memory and disk, with two history variables: the records that each log file holds, and
      the committed image that the implementation has to keep. */
  datatype System = System(disk: Disk, mem: Memory, trans: Option<Trans>,
                           records: map<string, seq<Record>>, image: map<string, string>)

  const Empty: System := System(Disk(map[], map[]), map[], None, map[], map[])

  datatype Event =
    | Map(name: string, size: nat)
    | Begin
    | Declare(region: Region)
    | Write(name: string, offset: nat, data: string)
    | Commit
    | Abort
    | Truncate
    | Crash
    | CrashInCommit(count: nat)                                                // after `count` records
    | CrashInTruncate(done: set<string>, current: string, k: nat, b: nat)      // in record k, after b bytes

  function Records(s: System, name: string): seq<Record> {
    if name in s.records then s.records[name] else []
  }

  /** Some region of the list holds byte i of the segment. */
  predicate Declared(redo: seq<Region>, name: string, i: nat) {
    exists k :: 0 <= k < |redo| && redo[k].seg == name && redo[k].offset <= i < redo[k].offset + redo[k].len
  }

  /** The abstract commit: exactly the declared bytes take their value at commit time. */
  function Overlay(img: string, mem: Memory, redo: seq<Region>, name: string): (r: string)
    requires AllInRange(mem, redo)
    ensures |r| == |img|
  {
    seq(|img|, i requires 0 <= i < |img| =>
      if Declared(redo, name, i) then mem[name][i] else img[i])
  }

  /** The records that a redo list appends to the log of one segment. */
  function RecordsOf(mem: Memory, redo: seq<Region>, name: string): seq<Record>
    requires AllInRange(mem, redo)
  {
    if redo == [] then []
    else
      var before := RecordsOf(mem, redo[..|redo| - 1], name);
      var r := redo[|redo| - 1];
      if r.seg == name then before + [Record(r.offset, Bytes(mem, r))] else before
  }

  function Touched(redo: seq<Region>): set<string> {
    set k | 0 <= k < |redo| :: redo[k].seg
  }

  function Committed(s: System, redo: seq<Region>): System
    requires AllInRange(s.mem, redo)
  {
    s.(disk := s.disk.(logs := Appended(s.disk.logs, s.mem, redo)),
       trans := None,
       records := map n | n in s.records.Keys + Touched(redo) :: Records(s, n) + RecordsOf(s.mem, redo, n),
       image := map n | n in s.image :: Overlay(s.image[n], s.mem, redo, n))
  }

  function Aborted(s: System): System
    requires s.trans.Some? && UndoInRange(s.mem, s.trans.value.undo)
  {
    s.(mem := Undone(s.mem, s.trans.value.undo), trans := None)
  }

  function Crashed(s: System): System { s.(mem := map[], trans := None) }

  /** The segments that rvm_truncate_log has something to do for. */
  predicate Pending(s: System, name: string) { name in s.mem && name in s.disk.logs && name in s.disk.files }

  function Logged(s: System, name: string): seq<Record>
    requires name in s.disk.logs
  {
    var scan := ScanAll(s.disk.logs[name]);
    if scan.Done? then scan.records else []
  }

  function TruncatedFile(s: System, name: string): string
    requires name in s.disk.logs && name in s.disk.files
  {
    if Fits(Logged(s, name), |s.disk.files[name]|) then Replay(s.disk.files[name], Logged(s, name)) else s.disk.files[name]
  }

  /** The logs of the given segments have been written to their files and removed. */
  function Truncated(s: System, names: set<string>): System
    requires forall n | n in names :: n in s.disk.logs && n in s.disk.files
  {
    s.(disk := Disk(map n | n in s.disk.files :: if n in names then TruncatedFile(s, n) else s.disk.files[n],
                    s.disk.logs - names),
       records := s.records - names)
  }

  function WithMapping(s: System, name: string, size: nat): System {
    var mem := Mapped(s.disk, name, size);
    s.(disk := s.disk.(files := s.disk.files[name := Grown(s.disk, name, size)]),
       mem := if mem.Some? then s.mem[name := mem.value] else s.mem,
       image := s.image[name := GrowTo(if name in s.image then s.image[name] else "", size)])
  }

  predicate Allowed(s: System, e: Event) {
    match e
    case Map(name, size) => Mappable(s, name, size)
    case Begin => s.trans.None?
    case Declare(r) => s.trans.Some? && InRange(s.mem, r)
    case Write(name, offset, data) => name in s.mem && offset + |data| <= |s.mem[name]|
    case Commit => s.trans.Some? && AllInRange(s.mem, s.trans.value.redo) && CleanRedo(s.mem, s.trans.value.redo)
    case Abort => s.trans.Some? && UndoInRange(s.mem, s.trans.value.undo) && s.trans.value.undo != []
    case Truncate => true
    case Crash => true
    case CrashInCommit(count) =>
      && s.trans.Some? && AllInRange(s.mem, s.trans.value.redo) && CleanRedo(s.mem, s.trans.value.redo)
      && count <= |s.trans.value.redo|
    case CrashInTruncate(done, current, k, b) =>
      && (forall n | n in done :: Pending(s, n)) && Pending(s, current) && current !in done
      && Fits(Logged(s, current), |s.disk.files[current]|)
      && k <= |Logged(s, current)| && (k < |Logged(s, current)| ==> b <= |Logged(s, current)[k].data|)
  }

  /** No declared region starts with a white-space byte when it is committed. */
  predicate CleanRedo(mem: Memory, redo: seq<Region>)
    requires AllInRange(mem, redo)
  {
    forall k | 0 <= k < |redo| :: redo[k].len == 0 || !White(mem[redo[k].seg][redo[k].offset])
  }

  function Step(s: System, e: Event): System
    requires Allowed(s, e)
  {
    match e
    case Map(name, size) => WithMapping(s, name, size)
    case Begin => s.(trans := Some(Trans([], [])))
    case Declare(r) =>
      var t := s.trans.value;
      s.(trans := Some(Trans(t.undo + [Undo(r, Bytes(s.mem, r))], t.redo + [r])))
    case Write(name, offset, data) => s.(mem := s.mem[name := Patch(s.mem[name], offset, data)])
    case Commit => Committed(s, s.trans.value.redo)
    case Abort => Aborted(s)
    case Truncate => Truncated(s, set n | n in s.mem && Pending(s, n))
    case Crash => Crashed(s)
    case CrashInCommit(count) => Crashed(Committed(s, s.trans.value.redo[..count]))
    case CrashInTruncate(done, current, k, b) =>
      var t := Truncated(s, done);
      var part := PartialReplay(s.disk.files[current], Logged(s, current), k, b);
      Crashed(t.(disk := t.disk.(files := t.disk.files[current := part])))
  }

  function Run(s: System, events: seq<Event>): Option<System>
    decreases |events|
  {
    if events == [] then Some(s)
    else if Allowed(s, events[0]) then Run(Step(s, events[0]), events[1..])
    else None
  }

  // ---------------------------------------------------------------------------------
  // The invariant, segment by segment.

  predicate SegmentOk(s: System, name: string)
    requires name in s.disk.files
  {
    var file, records := s.disk.files[name], Records(s, name);
    && GoodName(name)
    && Fits(records, |file|) && AllClean(records)
    && (name in s.disk.logs <==> records != [])
    && (name in s.disk.logs ==> s.disk.logs[name] == PrintAll(name, records))
    && name in s.image && s.image[name] == Replay(file, records)
    && (name in s.mem ==> |s.mem[name]| <= |file|)
  }

  ghost predicate SegmentsOk(s: System) {
    forall n | n in s.disk.files :: SegmentOk(s, n)
  }

  predicate KeysOk(s: System) {
    && s.mem.Keys <= s.disk.files.Keys && s.disk.logs.Keys <= s.disk.files.Keys
    && s.image.Keys == s.disk.files.Keys && s.records.Keys <= s.disk.files.Keys
  }

  predicate TransOk(s: System) {
    s.trans.Some? ==> AllInRange(s.mem, s.trans.value.redo) && UndoInRange(s.mem, s.trans.value.undo)
  }

  ghost predicate Inv(s: System) {
    SegmentsOk(s) && KeysOk(s) && TransOk(s)
  }

  /** Scanning the log gives the history of the segment. */
  lemma LogIsHistory(s: System, name: string)
    requires name in s.disk.files && SegmentOk(s, name) && name in s.disk.logs
    ensures ScanAll(s.disk.logs[name]) == Done(Records(s, name)) && Logged(s, name) == Records(s, name)
  {
    ScanPrinted(name, Records(s, name));
  }

  /** Nothing that matters for a segment has changed. */
  predicate SameSegment(s: System, s': System, name: string)
    requires name in s.disk.files
  {
    && name in s'.disk.files && s'.disk.files[name] == s.disk.files[name]
    && (name in s'.disk.logs <==> name in s.disk.logs)
    && (name in s.disk.logs ==> s'.disk.logs[name] == s.disk.logs[name])
    && Records(s', name) == Records(s, name)
    && (name in s.image ==> name in s'.image && s'.image[name] == s.image[name])
    && (name in s'.mem ==> name in s.mem && |s'.mem[name]| == |s.mem[name]|)
  }

  lemma StaysOk(s: System, s': System, name: string)
    requires name in s.disk.files && SegmentOk(s, name) && SameSegment(s, s', name)
    ensures SegmentOk(s', name)
  {
  }

  lemma OneSegment(s: System, s': System, name: string)
    requires SegmentsOk(s) && s'.disk.files.Keys == s.disk.files.Keys + {name} && SegmentOk(s', name)
    requires forall n | n in s.disk.files && n != name :: SameSegment(s, s', n)
    ensures SegmentsOk(s')
  {
    forall n | n in s'.disk.files ensures SegmentOk(s', n) {
      if n != name {
        StaysOk(s, s', n);
      }
    }
  }

  // Mapping.

  lemma NoRecords(s: System, name: string)
    requires Inv(s)
    ensures name !in s.disk.files ==> Records(s, name) == [] && name !in s.disk.logs && name !in s.image
    ensures name in s.disk.files ==> SegmentOk(s, name)
  {
  }

  /** What rvm_map may be asked for: a new segment, or one whose records fit. */
  predicate Mappable(s: System, name: string, size: nat) {
    GoodName(name) && name !in s.mem && Fits(Records(s, name), size)
  }

  lemma MapOk(s: System, name: string, size: nat)
    requires Inv(s) && Mappable(s, name, size)
    ensures var image := GrowTo(if name in s.image then s.image[name] else "", size);
            && Mapped(s.disk, name, size) == Some(image[..size])
            && Fits(Records(s, name), |Grown(s.disk, name, size)|)
            && image == Replay(Grown(s.disk, name, size), Records(s, name))
  {
    NoRecords(s, name);
    var file := if name in s.disk.files then s.disk.files[name] else "";
    ReplayGrown(file, Records(s, name), size);
    if name in s.disk.logs {
      LogIsHistory(s, name);
    }
  }

  lemma MapSegment(s: System, name: string, size: nat)
    requires Inv(s) && Mappable(s, name, size)
    ensures SegmentOk(WithMapping(s, name, size), name)
  {
    MapOk(s, name, size);
    NoRecords(s, name);
  }

  lemma MapOthers(s: System, name: string, size: nat)
    requires Inv(s) && Mappable(s, name, size)
    ensures SegmentsOk(WithMapping(s, name, size))
  {
    MapSegment(s, name, size);
    forall n | n in s.disk.files && n != name ensures SameSegment(s, WithMapping(s, name, size), n) {
      MapElsewhere(s, name, size, n);
    }
    OneSegment(s, WithMapping(s, name, size), name);
  }

  lemma MapElsewhere(s: System, name: string, size: nat, n: string)
    requires n in s.disk.files && n != name
    ensures SameSegment(s, WithMapping(s, name, size), n)
  {
  }

  lemma MapInv(s: System, name: string, size: nat)
    requires Inv(s) && Mappable(s, name, size)
    ensures Inv(WithMapping(s, name, size))
  {
    MapOthers(s, name, size);
    MapKeys(s, name, size);
    MapTrans(s, name, size);
  }

  lemma MapKeys(s: System, name: string, size: nat)
    requires KeysOk(s)
    ensures KeysOk(WithMapping(s, name, size))
  {
  }

  /** Mapping another segment leaves the declared regions in range. */
  lemma MapTrans(s: System, name: string, size: nat)
    requires TransOk(s) && name !in s.mem
    ensures TransOk(WithMapping(s, name, size))
  {
  }

  // Committing.

  lemma {:induction false} PrintAppend(name: string, a: seq<Record>, b: seq<Record>)
    ensures PrintAll(name, a + b) == PrintAll(name, a) + PrintAll(name, b)
  {
    if a == [] {
      assert a + b == b;
    } else {
      assert (a + b)[1..] == a[1..] + b;
      PrintAppend(name, a[1..], b);
    }
  }

  lemma TouchedStep(redo: seq<Region>)
    requires redo != []
    ensures Touched(redo) == Touched(redo[..|redo| - 1]) + {redo[|redo| - 1].seg}
  {
    var pre := redo[..|redo| - 1];
    assert forall k | 0 <= k < |pre| :: pre[k] == redo[k];
  }

  lemma {:induction false} AppendedKeys(logs: map<string, string>, mem: Memory, redo: seq<Region>)
    requires AllInRange(mem, redo)
    ensures Appended(logs, mem, redo).Keys == logs.Keys + Touched(redo)
  {
    if redo != [] {
      AppendedKeys(logs, mem, redo[..|redo| - 1]);
      TouchedStep(redo);
    }
  }

  function TextOf(logs: map<string, string>, name: string): string {
    if name in logs then logs[name] else ""
  }

  lemma PrintMore(name: string, records: seq<Record>, r: Record)
    ensures PrintAll(name, records + [r]) == PrintAll(name, records) + Print(name, r)
  {
    PrintAppend(name, records, [r]);
    assert [r][1..] == [];
    assert PrintAll(name, [r]) == Print(name, r) + "";
  }

  /** The log of each segment grows by the text of its own records. */
  lemma {:induction false} AppendedText(logs: map<string, string>, mem: Memory, redo: seq<Region>, name: string)
    requires AllInRange(mem, redo)
    ensures TextOf(Appended(logs, mem, redo), name) == TextOf(logs, name) + PrintAll(name, RecordsOf(mem, redo, name))
  {
    if redo == [] {
      assert TextOf(logs, name) + "" == TextOf(logs, name);
    } else {
      var pre, r := redo[..|redo| - 1], redo[|redo| - 1];
      AppendedText(logs, mem, pre, name);
      if r.seg == name {
        var rec := Record(r.offset, Bytes(mem, r));
        PrintMore(name, RecordsOf(mem, pre, name), rec);
        Regroup(TextOf(logs, name), PrintAll(name, RecordsOf(mem, pre, name)), Print(name, rec));
      }
    }
  }

  lemma Regroup(a: string, b: string, c: string)
    ensures a + b + c == a + (b + c)
  {
  }

  lemma {:induction false} RecordsOfBytes(mem: Memory, redo: seq<Region>, name: string, size: nat)
    requires AllInRange(mem, redo) && (name in mem ==> |mem[name]| <= size)
    ensures Fits(RecordsOf(mem, redo, name), size)
    ensures CleanRedo(mem, redo) ==> AllClean(RecordsOf(mem, redo, name))
  {
    if redo != [] {
      RecordsOfBytes(mem, redo[..|redo| - 1], name, size);
    }
  }

  lemma {:induction false} RecordsOfUntouched(mem: Memory, redo: seq<Region>, name: string)
    requires AllInRange(mem, redo)
    ensures name in Touched(redo) <==> RecordsOf(mem, redo, name) != []
  {
    if redo != [] {
      var pre := redo[..|redo| - 1];
      RecordsOfUntouched(mem, pre, name);
      TouchedStep(redo);
    }
  }

  /** Whatever the overlaps and the order, a declared byte ends with its commit-time value. */
  lemma {:induction false} RecordsOfLast(mem: Memory, redo: seq<Region>, name: string, i: nat)
    requires AllInRange(mem, redo)
    ensures LastByte(RecordsOf(mem, redo, name), i) ==
              if Declared(redo, name, i) then Some(mem[name][i]) else None
  {
    if redo != [] {
      var pre, r := redo[..|redo| - 1], redo[|redo| - 1];
      RecordsOfLast(mem, pre, name, i);
      assert Declared(redo, name, i) <==> Declared(pre, name, i) || (r.seg == name && r.offset <= i < r.offset + r.len) by {
        assert forall k | 0 <= k < |pre| :: pre[k] == redo[k];
      }
      if r.seg == name {
        var before := RecordsOf(mem, pre, name);
        assert (before + [Record(r.offset, Bytes(mem, r))])[..|before|] == before;
      }
    }
  }

  /** Replaying the records of a commit is the abstract overlay. */
  lemma ReplayIsOverlay(img: string, mem: Memory, redo: seq<Region>, name: string)
    requires AllInRange(mem, redo) && (name in mem ==> |mem[name]| <= |img|)
    ensures Fits(RecordsOf(mem, redo, name), |img|)
    ensures Replay(img, RecordsOf(mem, redo, name)) == Overlay(img, mem, redo, name)
  {
    var more := RecordsOf(mem, redo, name);
    RecordsOfBytes(mem, redo, name, |img|);
    forall i: nat | i < |img| ensures Replay(img, more)[i] == Overlay(img, mem, redo, name)[i] {
      ReplayAt(img, more, i);
      RecordsOfLast(mem, redo, name, i);
    }
  }

  lemma CommitLog(s: System, redo: seq<Region>, name: string)
    requires AllInRange(s.mem, redo) && name in s.disk.files && SegmentOk(s, name)
    ensures var s', all := Committed(s, redo), Records(s, name) + RecordsOf(s.mem, redo, name);
            && Records(s', name) == all && (name in s'.disk.logs <==> all != [])
            && (name in s'.disk.logs ==> s'.disk.logs[name] == PrintAll(name, all))
  {
    var was, more := Records(s, name), RecordsOf(s.mem, redo, name);
    RecordsOfUntouched(s.mem, redo, name);
    AppendedText(s.disk.logs, s.mem, redo, name);
    AppendedKeys(s.disk.logs, s.mem, redo);
    PrintAppend(name, was, more);
  }

  lemma CommitImage(s: System, redo: seq<Region>, name: string)
    requires AllInRange(s.mem, redo) && CleanRedo(s.mem, redo) && name in s.disk.files && SegmentOk(s, name)
    ensures var file, all := s.disk.files[name], Records(s, name) + RecordsOf(s.mem, redo, name);
            && Fits(all, |file|) && AllClean(all)
            && Overlay(s.image[name], s.mem, redo, name) == Replay(file, all)
  {
    var file, was, more := s.disk.files[name], Records(s, name), RecordsOf(s.mem, redo, name);
    RecordsOfBytes(s.mem, redo, name, |file|);
    ReplayAppend(file, was, more);
    ReplayIsOverlay(Replay(file, was), s.mem, redo, name);
  }

  lemma CommitOk(s: System, redo: seq<Region>, name: string)
    requires Inv(s) && AllInRange(s.mem, redo) && CleanRedo(s.mem, redo) && name in s.disk.files
    ensures SegmentOk(Committed(s, redo), name)
  {
    assert SegmentOk(s, name);
    CommitLog(s, redo, name);
    CommitImage(s, redo, name);
  }

  lemma CommitKeys(s: System, redo: seq<Region>)
    requires KeysOk(s) && AllInRange(s.mem, redo)
    ensures KeysOk(Committed(s, redo))
  {
    AppendedKeys(s.disk.logs, s.mem, redo);
    forall n | n in Touched(redo) ensures n in s.disk.files {
      var k :| 0 <= k < |redo| && redo[k].seg == n;
      assert InRange(s.mem, redo[k]);
    }
  }

  lemma CommitInv(s: System, redo: seq<Region>)
    requires Inv(s) && AllInRange(s.mem, redo) && CleanRedo(s.mem, redo)
    ensures Inv(Committed(s, redo))
  {
    var s' := Committed(s, redo);
    forall n | n in s'.disk.files ensures SegmentOk(s', n) {
      CommitOk(s, redo, n);
    }
    CommitKeys(s, redo);
  }

  // Truncating.

  lemma TruncateOk(s: System, names: set<string>, name: string)
    requires Inv(s) && (forall n | n in names :: n in s.disk.logs && n in s.disk.files) && name in s.disk.files
    ensures SegmentOk(Truncated(s, names), name)
  {
    assert SegmentOk(s, name);
    if name in names {
      LogIsHistory(s, name);
    }
  }

  lemma TruncateInv(s: System, names: set<string>)
    requires Inv(s) && (forall n | n in names :: n in s.disk.logs && n in s.disk.files)
    ensures Inv(Truncated(s, names))
  {
    var s' := Truncated(s, names);
    forall n | n in s'.disk.files ensures SegmentOk(s', n) {
      TruncateOk(s, names, n);
    }
  }

  /** A segment whose log stood complete while part of it was written to the file. */
  function PartlyTruncated(t: System, name: string, k: nat, b: nat): System
    requires name in t.disk.files && Fits(Records(t, name), |t.disk.files[name]|)
    requires k <= |Records(t, name)| && (k < |Records(t, name)| ==> b <= |Records(t, name)[k].data|)
  {
    var part := PartialReplay(t.disk.files[name], Records(t, name), k, b);
    Crashed(t.(disk := t.disk.(files := t.disk.files[name := part])))
  }

  lemma PartlySegment(t: System, name: string, k: nat, b: nat)
    requires name in t.disk.files && SegmentOk(t, name)
    requires k <= |Records(t, name)| && (k < |Records(t, name)| ==> b <= |Records(t, name)[k].data|)
    ensures SegmentOk(PartlyTruncated(t, name, k, b), name)
  {
    ReplayIsIdempotent(t.disk.files[name], Records(t, name), k, b);
  }

  lemma PartlyTruncatedInv(t: System, name: string, k: nat, b: nat)
    requires Inv(t) && name in t.disk.files && Fits(Records(t, name), |t.disk.files[name]|)
    requires k <= |Records(t, name)| && (k < |Records(t, name)| ==> b <= |Records(t, name)[k].data|)
    ensures Inv(PartlyTruncated(t, name, k, b))
  {
    var s' := PartlyTruncated(t, name, k, b);
    assert SegmentOk(t, name);
    PartlySegment(t, name, k, b);
    PartlyElsewhere(t, s', name);
    OneSegment(t, s', name);
  }

  lemma PartlyElsewhere(t: System, s': System, name: string)
    requires name in t.disk.files && name in s'.disk.files
    requires s' == Crashed(t.(disk := t.disk.(files := t.disk.files[name := s'.disk.files[name]])))
    ensures s'.disk.files.Keys == t.disk.files.Keys + {name}
    ensures forall n | n in t.disk.files && n != name :: SameSegment(t, s', n)
    ensures KeysOk(t) ==> KeysOk(s')
  {
  }

  lemma CrashInTruncateInv(s: System, e: Event)
    requires Inv(s) && e.CrashInTruncate? && Allowed(s, e)
    ensures Inv(Step(s, e))
  {
    var t := Truncated(s, e.done);
    TruncateInv(s, e.done);
    assert SegmentOk(s, e.current);
    LogIsHistory(s, e.current);
    assert Records(t, e.current) == Records(s, e.current);
    PartlyTruncatedInv(t, e.current, e.k, e.b);
  }

  // The other operations.

  lemma MemoryInv(s: System, s': System)
    requires Inv(s) && s'.disk == s.disk && s'.records == s.records && s'.image == s.image
    requires s'.mem.Keys <= s.mem.Keys && forall n | n in s'.mem :: |s'.mem[n]| == |s.mem[n]|
    requires s'.trans.Some? ==> AllInRange(s'.mem, s'.trans.value.redo) && UndoInRange(s'.mem, s'.trans.value.undo)
    ensures Inv(s')
  {
    forall n | n in s'.disk.files ensures SegmentOk(s', n) {
      StaysOk(s, s', n);
    }
  }

  lemma OtherInv(s: System, e: Event)
    requires Inv(s) && Allowed(s, e) && (e.Begin? || e.Declare? || e.Write? || e.Abort? || e.Crash?)
    ensures Inv(Step(s, e))
  {
    MemoryInv(s, Step(s, e));
  }

  lemma StepInv(s: System, e: Event)
    requires Inv(s) && Allowed(s, e)
    ensures Inv(Step(s, e))
  {
    match e {
      case Map(name, size) => MapInv(s, name, size);
      case Commit => CommitInv(s, s.trans.value.redo);
      case CrashInCommit(count) =>
        var c := Committed(s, s.trans.value.redo[..count]);
        CommitInv(s, s.trans.value.redo[..count]);
        OtherInv(c, Crash);
      case Truncate => TruncateInv(s, set n | n in s.mem && Pending(s, n));
      case CrashInTruncate(_, _, _, _) => CrashInTruncateInv(s, e);
      case _ => OtherInv(s, e);
    }
  }

  lemma {:induction false} RunInv(s: System, events: seq<Event>)
    requires Inv(s) && Run(s, events).Some?
    ensures Inv(Run(s, events).value)
    decreases |events|
  {
    if events != [] {
      StepInv(s, events[0]);
      RunInv(Step(s, events[0]), events[1..]);
    }
  }

  /** Durability: after any run, with crashes between and inside of the calls, mapping a
      segment gives the committed image, in which each commit has overwritten exactly the
      declared bytes with their values at commit time. */
  lemma Durability(events: seq<Event>, name: string, size: nat)
    requires Run(Empty, events).Some? && Allowed(Run(Empty, events).value, Map(name, size))
    ensures var s := Run(Empty, events).value;
            var image := GrowTo(if name in s.image then s.image[name] else "", size);
            Mapped(s.disk, name, size) == Some(image[..size])
  {
    assert Inv(Empty);
    RunInv(Empty, events);
    MapOk(Run(Empty, events).value, name, size);
  }

  /** Truncation, finished or stopped by a crash at any point and in the middle of any record,
      does not change what a later mapping gives; when it finishes, the file of each mapped
      segment holds its committed image and its log is gone. */
  lemma TruncationIsSafe(events: seq<Event>, e: Event, name: string, size: nat)
    requires Run(Empty, events).Some? && (e.Truncate? || e.CrashInTruncate?)
    requires var s := Run(Empty, events).value; Allowed(s, e) && GoodName(name) && Fits(Records(s, name), size)
    ensures var s := Run(Empty, events).value;
            && Mapped(Step(s, e).disk, name, size) == Mapped(s.disk, name, size)
            && (e.Truncate? && Pending(s, name) ==>
                  name !in Step(s, e).disk.logs && name in s.image && Step(s, e).disk.files[name] == s.image[name])
  {
    assert Inv(Empty);
    RunInv(Empty, events);
    var s := Run(Empty, events).value;
    StepInv(s, e);
    MapOk(Crashed(s), name, size) by { MemoryInv(s, Crashed(s)); }
    var t := Step(s, e);
    MapOk(Crashed(t), name, size) by {
      MemoryInv(t, Crashed(t));
      RecordsShrink(s, e, name);
    }
    if e.Truncate? && Pending(s, name) {
      assert SegmentOk(t, name);
    }
  }

  lemma RecordsShrink(s: System, e: Event, name: string)
    requires Allowed(s, e) && (e.Truncate? || e.CrashInTruncate?)
    ensures Records(Step(s, e), name) == Records(s, name) || Records(Step(s, e), name) == []
  {
  }

  /** The log of the segment can be scanned and fits its file, or there is none. */
  predicate Sound(disk: Disk, name: string) {
    name in disk.logs ==>
      name in disk.files && ScanAll(disk.logs[name]).Done? && Fits(ScanAll(disk.logs[name]).records, |disk.files[name]|)
  }

  /** rvm_truncate_log for one segment, and for a list of segments. */
  function WrittenBack(disk: Disk, name: string): Disk {
    if name in disk.logs && Sound(disk, name) then
      Disk(disk.files[name := Replay(disk.files[name], ScanAll(disk.logs[name]).records)], disk.logs - {name})
    else disk
  }

  function WrittenBackAll(disk: Disk, names: seq<string>): Disk {
    if names == [] then disk else WrittenBack(WrittenBackAll(disk, names[..|names| - 1]), names[|names| - 1])
  }

  /** The contents of a sound segment once its log has been written back. */
  function Settled(disk: Disk, name: string): string
    requires name in disk.logs && Sound(disk, name)
  {
    Replay(disk.files[name], ScanAll(disk.logs[name]).records)
  }

  /** What has become of segment n after the listed segments have been written back. */
  predicate SegmentWrittenBack(disk: Disk, names: seq<string>, disk': Disk, n: string)
    requires Sound(disk, n)
  {
    && (n in disk'.files <==> n in disk.files)
    && (n in disk'.logs <==> n in disk.logs && n !in names)
    && (n in disk'.logs ==> disk'.logs[n] == disk.logs[n])
    && (n in disk.files ==> disk'.files[n] == if n in names && n in disk.logs then Settled(disk, n) else disk.files[n])
  }

  lemma OneMoreWrittenBack(disk: Disk, names: seq<string>, disk': Disk, name: string, n: string)
    requires Sound(disk, n) && Sound(disk, name)
    requires SegmentWrittenBack(disk, names, disk', n) && SegmentWrittenBack(disk, names, disk', name)
    ensures SegmentWrittenBack(disk, names + [name], WrittenBack(disk', name), n)
  {
    if name in disk'.logs {
      assert disk'.files[name] == disk.files[name];
    }
  }

  lemma {:induction false} WrittenBackAt(disk: Disk, names: seq<string>, n: string)
    requires Sound(disk, n) && forall k | 0 <= k < |names| :: Sound(disk, names[k])
    ensures SegmentWrittenBack(disk, names, WrittenBackAll(disk, names), n)
  {
    if names != [] {
      var pre, last := names[..|names| - 1], names[|names| - 1];
      assert names == pre + [last];
      WrittenBackAt(disk, pre, n);
      WrittenBackAt(disk, pre, last);
      OneMoreWrittenBack(disk, pre, WrittenBackAll(disk, pre), last, n);
    }
  }

  function WithLog(s: System, names: seq<string>): set<string> {
    set n | n in names && n in s.disk.logs && n in s.disk.files
  }

  lemma SoundEverywhere(s: System, name: string)
    requires Inv(s)
    ensures Sound(s.disk, name)
    ensures name in s.disk.logs ==> name in s.disk.files && TruncatedFile(s, name) == Settled(s.disk, name)
  {
    if name in s.disk.logs {
      assert SegmentOk(s, name);
      LogIsHistory(s, name);
    }
  }

  /** Going through a list of segments is the truncation step of the system, segment by
      segment. */
  lemma WrittenBackIsTruncated(s: System, names: seq<string>, n: string)
    requires Inv(s)
    ensures var t, w := Truncated(s, WithLog(s, names)).disk, WrittenBackAll(s.disk, names);
            && (n in w.files <==> n in t.files) && (n in t.files ==> w.files[n] == t.files[n])
            && (n in w.logs <==> n in t.logs) && (n in t.logs ==> w.logs[n] == t.logs[n])
  {
    SoundEverywhere(s, n);
    forall k | 0 <= k < |names| ensures Sound(s.disk, names[k]) { SoundEverywhere(s, names[k]); }
    WrittenBackAt(s.disk, names, n);
  }

  // ---------------------------------------------------------------------------------
  // Joining runs.

  lemma {:induction false} RunAppend(s: System, a: seq<Event>, b: seq<Event>)
    ensures Run(s, a + b) == if Run(s, a).Some? then Run(Run(s, a).value, b) else None
    decreases |a|
  {
    if a == [] {
      assert a + b == b;
    } else {
      assert (a + b)[0] == a[0] && (a + b)[1..] == a[1..] + b;
      if Allowed(s, a[0]) {
        RunAppend(Step(s, a[0]), a[1..], b);
      }
    }
  }

  lemma RunOne(s: System, e: Event)
    ensures Run(s, [e]) == if Allowed(s, e) then Some(Step(s, e)) else None
  {
    var one := [e];
    assert one[0] == e && one[1..] == [];
    if Allowed(s, e) {
      assert Run(Step(s, e), []) == Some(Step(s, e));
    }
  }
}

/** The library: its lists in memory, its files, and the loops that work on them. */
module RvmLibrary {
  import opened Wrappers
  import opened Octets
  import opened Decimals
  import opened RedoLog
  import opened Images
  import opened Rvm

  /** One pass of the scan loop, seen from the whole log. */
  lemma ScanUnfold(text: string)
    ensures ScanHead(text).Matched? && ScanBody(ScanHead(text).rest).Some? ==>
              var (r, rest, eof) := ScanBody(ScanHead(text).rest).value;
              ScanAll(text) == if eof then Done([r]) else Before(r, ScanAll(rest))
    ensures ScanAll(text).Done? ==> ScanHead(text).Mismatch? || (ScanHead(text).Matched? && ScanBody(ScanHead(text).rest).Some?)
    ensures ScanHead(text).Mismatch? ==> ScanAll(text) == Done([])
  {
  }

  lemma FitsParts(a: seq<Record>, r: Record, b: seq<Record>, size: nat)
    requires Fits(a + ([r] + b), size)
    ensures Fits(a, size) && Fits(a + [r], size) && r.offset + |r.data| <= size && a + ([r] + b) == (a + [r]) + b
  {
    var all := a + ([r] + b);
    forall k | 0 <= k < |a| ensures a[k].offset + |a[k].data| <= size { assert all[k] == a[k]; }
    assert all[|a|] == r;
  }

  lemma StaysSound(disk: Disk, name: string, names: seq<string>)
    requires forall j | 0 <= j < |names| :: Sound(disk, names[j])
    ensures forall j | 0 <= j < |names| :: Sound(WrittenBack(disk, name), names[j])
  {
  }

  /** One more undo record, and one more redo entry. */
  lemma UndoneNext(mem: Memory, undo: seq<Undo>, i: nat)
    requires i < |undo| && UndoInRange(mem, undo)
    ensures UndoInRange(mem, undo[..i]) && UndoInRange(mem, undo[..i + 1])
    ensures var before, u := Undone(mem, undo[..i]), undo[i];
            && u.region.seg in before && u.region.offset + |u.saved| <= |before[u.region.seg]|
            && Undone(mem, undo[..i + 1]) == before[u.region.seg := Patch(before[u.region.seg], u.region.offset, u.saved)]
  {
    assert undo[..i + 1][..i] == undo[..i];
    assert InRange(mem, undo[i].region);
  }

  lemma AppendedNext(logs: map<string, string>, mem: Memory, redo: seq<Region>, i: nat)
    requires i < |redo| && AllInRange(mem, redo)
    ensures AllInRange(mem, redo[..i]) && AllInRange(mem, redo[..i + 1])
    ensures var before, r := Appended(logs, mem, redo[..i]), redo[i];
            Appended(logs, mem, redo[..i + 1]) ==
              before[r.seg := TextOf(before, r.seg) + Print(r.seg, Record(r.offset, Bytes(mem, r)))]
  {
    assert redo[..i + 1][..i] == redo[..i];
    assert InRange(mem, redo[i]);
  }

  class Library {
    var files: map<string, string>
    var logs: map<string, string>
    var segList: seq<string>          // the mapped segments in list order
    var mem: Memory
    var active: bool                  // a transaction is under way
    var undo: seq<Undo>
    var redo: seq<Region>

    ghost function Files(): Disk
      reads this
    {
      Disk(files, logs)
    }

    constructor ()
      ensures Files() == Disk(map[], map[]) && mem == map[] && segList == [] && !active
    {
      files, logs, mem, segList := map[], map[], map[], [];
      active, undo, redo := false, [], [];
    }

    /** Defined for logs whose scan is, and for records that fit into the segment. */
    method MapSegment(name: string, size: nat)
      requires Mapped(Files(), name, size).Some?
      modifies this`files, this`mem, this`segList
      ensures files == old(files)[name := Grown(old(Files()), name, size)]
      ensures mem == old(mem)[name := Mapped(old(Files()), name, size).value]
      ensures segList == old(segList) + [name]
    {
      var file := GrowFile(if name in files then files[name] else "", size);
      files := files[name := file];
      var base := file[..size];
      if name in logs {
        base := ApplyRedo(logs[name], base);
      }
      mem := mem[name := base];
      segList := segList + [name];
    }

    /** A file that is too short is extended with zeros. */
    static method GrowFile(contents: string, size: nat) returns (file: string)
      ensures file == GrowTo(contents, size)
    {
      file := contents;
      if |file| < size {
        file := file + Nuls(size - |file|);
      }
    }

    /** The loop over the log in rvm_map. */
    static method ApplyRedo(log: string, start: string) returns (base: string)
      requires ScanAll(log).Done? && Fits(ScanAll(log).records, |start|)
      ensures base == Replay(start, ScanAll(log).records)
    {
      base := start;
      var rest, eof := log, false;
      ghost var all := ScanAll(log).records;
      ghost var done: seq<Record> := [];
      while !eof
        invariant Fits(done, |start|) && base == Replay(start, done)
        invariant if eof then done == all else ScanAll(rest).Done? && done + ScanAll(rest).records == all
        decreases !eof, |rest|
      {
        ScanUnfold(rest);
        var head := ScanHead(rest);
        if head.Mismatch? {
          assert done + [] == done;
          break;
        }
        var (r, after, end) := ScanBody(head.rest).value;
        ghost var more := if end then [] else ScanAll(after).records;
        assert [r] + [] == [r];
        FitsParts(done, r, more, |start|);
        assert (done + [r])[..|done|] == done;
        base := Patch(base, r.offset, r.data);
        done := done + [r];
        rest, eof := after, end;
      }
    }

    method BeginTrans()
      requires !active
      modifies this`active, this`undo, this`redo
      ensures active && undo == [] && redo == []
    {
      active, undo, redo := true, [], [];
    }

    /** The undo record takes a copy, the redo record only points at the memory. */
    method AboutToModify(r: Region)
      requires active && InRange(mem, r)
      modifies this`undo, this`redo
      ensures undo == old(undo) + [Undo(r, Bytes(mem, r))] && redo == old(redo) + [r]
    {
      undo := undo + [Undo(r, mem[r.seg][r.offset..r.offset + r.len])];
      redo := redo + [r];
    }

    /** At least one region must have been declared: the source reads the first undo record. */
    method AbortTrans()
      requires active && undo != [] && UndoInRange(mem, undo)
      modifies this`mem, this`active, this`undo, this`redo
      ensures mem == Undone(old(mem), old(undo)) && !active
    {
      var i := 0;
      while i < |undo|
        invariant 0 <= i <= |undo| && undo == old(undo) && UndoInRange(old(mem), undo[..i])
        invariant mem == Undone(old(mem), undo[..i])
      {
        var u := undo[i];
        UndoneNext(old(mem), undo, i);
        mem := mem[u.region.seg := Patch(mem[u.region.seg], u.region.offset, u.saved)];
        i := i + 1;
      }
      assert undo[..i] == undo;
      active, undo, redo := false, [], [];
    }

    /** Every record is appended to the log of its segment; the payload goes out byte by byte. */
    method CommitTrans()
      requires active && AllInRange(mem, redo)
      modifies this`logs, this`active, this`undo, this`redo
      ensures logs == Appended(old(logs), mem, old(redo)) && !active
    {
      var i := 0;
      while i < |redo|
        invariant 0 <= i <= |redo| && redo == old(redo) && AllInRange(mem, redo[..i])
        invariant logs == Appended(old(logs), mem, redo[..i])
      {
        var r := redo[i];
        AppendedNext(old(logs), mem, redo, i);
        var log := if r.seg in logs then logs[r.seg] else "";
        var text := PrintRegion(r);
        logs := logs[r.seg := log + text];
        i := i + 1;
      }
      assert redo[..i] == redo;
      active, undo, redo := false, [], [];
    }

    method PrintRegion(r: Region) returns (text: string)
      requires InRange(mem, r)
      ensures text == Print(r.seg, Record(r.offset, Bytes(mem, r)))
    {
      var bytes := "";
      var i := 0;
      while i < r.len
        invariant 0 <= i <= r.len && bytes == mem[r.seg][r.offset..r.offset + i]
      {
        bytes := bytes + [mem[r.seg][r.offset + i]];
        i := i + 1;
      }
      text := Head(r.seg) + (Decimal(r.offset) + " " + (Decimal(r.len) + "\n" + (bytes + "\n")));
    }

    /** One segment: the scan loop writes the records to the file one by one, then the log is
        removed. */
    method TruncateSegment(name: string)
      requires name in logs && Sound(Files(), name)
      modifies this`files, this`logs
      ensures Files() == WrittenBack(old(Files()), name)
    {
      var file := ApplyRedo(logs[name], files[name]);
      files := files[name := file];
      logs := logs - {name};
    }

    /** All mapped segments in list order; those without a log are passed over. */
    method TruncateLog()
      requires forall k | 0 <= k < |segList| :: Sound(Files(), segList[k])
      modifies this`files, this`logs
      ensures Files() == WrittenBackAll(old(Files()), segList)
    {
      var k := 0;
      while k < |segList|
        invariant 0 <= k <= |segList| && segList == old(segList)
        invariant Files() == WrittenBackAll(old(Files()), segList[..k])
        invariant forall j | 0 <= j < |segList| :: Sound(Files(), segList[j])
      {
        var name := segList[k];
        assert segList[..k + 1][..k] == segList[..k];
        StaysSound(Files(), name, segList);
        if name in logs {
          TruncateSegment(name);
        }
        k := k + 1;
      }
      assert segList[..k] == segList;
    }
  }
}
