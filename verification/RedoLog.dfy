/** The text of a redo log in aos/l-recoverable-vm/prj4/rvm.cpp: how rvm_commit_trans prints
    records and how rvm_map scans them again. */
module RedoLog {

  import opened Wrappers
  import opened Decimals

  /** A region of a segment and the bytes to put there. */
  datatype Record = Record(offset: nat, data: string)

  // ---------------------------------------------------------------------------------
  // Printing.

  function Head(name: string): string { "#REDO" + " " + "LOG#" + name + "\n" }

  /** One record as it is appended to the log. */
  function Print(name: string, r: Record): string {
    Head(name) + (Decimal(r.offset) + " " + (Decimal(|r.data|) + "\n" + (r.data + "\n")))
  }

  function PrintAll(name: string, records: seq<Record>): string {
    if records == [] then "" else Print(name, records[0]) + PrintAll(name, records[1..])
  }

  // ---------------------------------------------------------------------------------
  // Scanning, in the way of fscanf.  A white-space directive skips any amount of white space.

  predicate White(c: char) { c == ' ' || '\t' <= c <= '\r' }

  function SkipWhite(s: string): (r: string)
    ensures |r| <= |s|
  {
    if s != "" && White(s[0]) then SkipWhite(s[1..]) else s
  }

  /** The longest prefix without white space. */
  function WordLength(s: string): (n: nat)
    ensures n <= |s|
  {
    if s == "" || White(s[0]) then 0 else 1 + WordLength(s[1..])
  }

  datatype Word = Matched(rest: string) | Mismatch | AtEnd

  /** A literal of the format, which must be in the input as it stands. */
  function Literal(s: string, lit: string): (w: Word)
    ensures w.Matched? ==> |w.rest| + |lit| == |s|
  {
    if lit == "" then Matched(s)
    else if s == "" then AtEnd
    else if s[0] == lit[0] then Literal(s[1..], lit[1..])
    else Mismatch
  }

  /** "#REDO LOG#%s\n": a mismatch makes fscanf return 0, the end of the input makes it
      return EOF, which the caller does not tell from success. */
  function ScanHead(s: string): (w: Word)
    ensures w.Matched? ==> |w.rest| < |s|
  {
    match Literal(s, "#REDO")
    case Mismatch => Mismatch
    case AtEnd => AtEnd
    case Matched(s1) =>
      match Literal(SkipWhite(s1), "LOG#")
      case Mismatch => Mismatch
      case AtEnd => AtEnd
      case Matched(s2) =>
        var s3 := SkipWhite(s2);
        if s3 == "" then AtEnd else Matched(SkipWhite(s3[WordLength(s3)..]))
  }

  /** "%d" without the signs that the printer never writes. */
  function ScanNumber(s: string): (r: Option<(nat, string)>)
    ensures r.Some? ==> |r.value.1| < |s|
  {
    var t := SkipWhite(s);
    var n := DigitsLength(t);
    if n == 0 then None else Some((Value(t[..n]), t[n..]))
  }

  /** The outcome of scanning a log: the records, or a situation in which the code goes on
      with variables that were never set. */
  datatype Scan = Done(records: seq<Record>) | Undefined

  /** The body of the loop for one record: the record, what is left, and whether the end of
      the file has been met. */
  function ScanBody(s: string): (r: Option<(Record, string, bool)>)
    ensures r.Some? ==> |r.value.1| < |s|
  {
    match ScanNumber(s)
    case None => None
    case Some((offset, s1)) =>
      match ScanNumber(s1)
      case None => None
      case Some((n, s2)) =>
        var s3 := SkipWhite(s2);
        if |s3| < n then None
        else
          var s4 := SkipWhite(s3[n..]);
          Some((Record(offset, s3[..n]), s4, s3 == "" || s4 == ""))
  }

  /** while (!feof) ...; `s` is what has not been read. */
  function ScanAll(s: string): Scan
    decreases |s|
  {
    match ScanHead(s)
    case Mismatch => Done([])
    case AtEnd => Undefined
    case Matched(s1) =>
      match ScanBody(s1)
      case None => Undefined
      case Some((r, rest, eof)) =>
        if eof then Done([r])
        else
          match ScanAll(rest)
          case Undefined => Undefined
          case Done(more) => Done([r] + more)
  }

  // ---------------------------------------------------------------------------------
  // Scanning what was printed.

  predicate GoodName(name: string) {
    name != "" && forall i | 0 <= i < |name| :: !White(name[i])
  }

  /** The payload does not start with white space. */
  predicate Clean(r: Record) {
    r.data == "" || !White(r.data[0])
  }

  /** What can follow a record: the end of the file or another record. */
  predicate Follows(tail: string) { tail == "" || tail[0] == '#' }

  lemma {:induction false} WordStops(word: string, rest: string)
    requires forall i | 0 <= i < |word| :: !White(word[i])
    requires rest == "" || White(rest[0])
    ensures WordLength(word + rest) == |word|
  {
    if word == "" {
      assert word + rest == rest;
    } else {
      assert (word + rest)[1..] == word[1..] + rest;
      WordStops(word[1..], rest);
    }
  }

  lemma NumberScans(n: nat, rest: string)
    requires rest == "" || !IsDigit(rest[0])
    ensures ScanNumber(Decimal(n) + rest) == Some((n, rest))
    ensures ScanNumber(" " + (Decimal(n) + rest)) == Some((n, rest))
  {
    DecimalDigits(n);
    DigitsStop(Decimal(n), rest);
    var s := Decimal(n) + rest;
    assert s[0] == Decimal(n)[0] && SkipWhite(s) == s;
    assert s[..|Decimal(n)|] == Decimal(n) && s[|Decimal(n)|..] == rest;
    assert (" " + s)[1..] == s;
  }

  lemma {:induction false} LiteralMatches(lit: string, rest: string)
    ensures Literal(lit + rest, lit) == Matched(rest)
  {
    if lit == "" {
      assert lit + rest == rest;
    } else {
      assert (lit + rest)[1..] == lit[1..] + rest;
      LiteralMatches(lit[1..], rest);
    }
  }

  lemma HeadScans(name: string, rest: string)
    requires GoodName(name) && rest != "" && !White(rest[0])
    ensures ScanHead(Head(name) + rest) == Matched(rest)
  {
    var s2 := name + ("\n" + rest);
    var s1 := "LOG#" + s2;
    assert Head(name) + rest == "#REDO" + (" " + s1);
    LiteralMatches("#REDO", " " + s1);
    assert (" " + s1)[1..] == s1;
    assert SkipWhite(" " + s1) == s1;
    LiteralMatches("LOG#", s2);
    assert s2[0] == name[0] && SkipWhite(s2) == s2;
    WordStops(name, "\n" + rest);
    assert s2[|name|..] == "\n" + rest;
    assert ("\n" + rest)[1..] == rest;
    assert SkipWhite(rest) == rest && SkipWhite("\n" + rest) == rest;
  }

  /** The part of a printed record behind its head. */
  function Body(r: Record, tail: string): string {
    Decimal(r.offset) + (" " + (Decimal(|r.data|) + ("\n" + (r.data + ("\n" + tail)))))
  }

  lemma PrintParts(name: string, r: Record, tail: string)
    ensures Print(name, r) + tail == Head(name) + Body(r, tail)
  {
    var a, b, c := Decimal(r.offset), Decimal(|r.data|), r.data;
    assert Print(name, r) + tail == Head(name) + ((a + " " + (b + "\n" + (c + "\n"))) + tail);
    assert (a + " " + (b + "\n" + (c + "\n"))) + tail == a + (" " + (b + ("\n" + (c + ("\n" + tail)))));
  }

  /** After the two numbers the scan skips white space, and with it any white space that the
      payload starts with. */
  lemma NumbersScan(r: Record, tail: string)
    ensures ScanBody(Body(r, tail)) ==
              var s3 := SkipWhite("\n" + (r.data + ("\n" + tail)));
              if |s3| < |r.data| then None
              else
                var s4 := SkipWhite(s3[|r.data|..]);
                Some((Record(r.offset, s3[..|r.data|]), s4, s3 == "" || s4 == ""))
  {
    var rest := "\n" + (r.data + ("\n" + tail));
    NumberScans(r.offset, " " + (Decimal(|r.data|) + rest));
    NumberScans(|r.data|, rest);
  }

  lemma CleanBodyScans(r: Record, tail: string)
    requires Clean(r) && Follows(tail)
    ensures ScanBody(Body(r, tail)) == Some((r, tail, tail == ""))
  {
    NumbersScan(r, tail);
    var rest := r.data + ("\n" + tail);
    assert ("\n" + rest)[1..] == rest && ("\n" + tail)[1..] == tail;
    assert SkipWhite(tail) == tail && SkipWhite("\n" + tail) == tail;
    if r.data == "" {
      assert rest == "\n" + tail;
      assert tail[0..] == tail;
    } else {
      assert rest[0] == r.data[0];
      assert SkipWhite("\n" + rest) == rest;
      assert rest[..|r.data|] == r.data && rest[|r.data|..] == "\n" + tail;
    }
  }

  lemma {:induction false} SkippedIsNotWhite(s: string)
    ensures SkipWhite(s) != "" ==> !White(SkipWhite(s)[0])
  {
    if s != "" && White(s[0]) {
      SkippedIsNotWhite(s[1..]);
    }
  }

  lemma DirtyBodyFails(r: Record, tail: string)
    requires !Clean(r)
    ensures ScanBody(Body(r, tail)).None? || ScanBody(Body(r, tail)).value.0 != r
  {
    NumbersScan(r, tail);
    var s3 := SkipWhite("\n" + (r.data + ("\n" + tail)));
    SkippedIsNotWhite("\n" + (r.data + ("\n" + tail)));
    if |s3| >= |r.data| {
      assert s3[..|r.data|][0] == s3[0];
    }
  }

  lemma PrintAllFollows(name: string, records: seq<Record>)
    ensures Follows(PrintAll(name, records)) && (records != [] ==> PrintAll(name, records) != "")
  {
    if records != [] {
      assert PrintAll(name, records)[0] == Head(name)[0];
    }
  }

  lemma BodyStarts(r: Record, tail: string)
    ensures Body(r, tail) != "" && !White(Body(r, tail)[0])
  {
    DecimalDigits(r.offset);
    assert Body(r, tail)[0] == Decimal(r.offset)[0];
  }

  lemma FirstRecord(name: string, records: seq<Record>)
    requires GoodName(name) && records != []
    ensures ScanHead(PrintAll(name, records)) == Matched(Body(records[0], PrintAll(name, records[1..])))
  {
    var tail := PrintAll(name, records[1..]);
    PrintParts(name, records[0], tail);
    BodyStarts(records[0], tail);
    HeadScans(name, Body(records[0], tail));
  }

  /** Scanning one clean record and going on. */
  lemma ScanClean(name: string, records: seq<Record>)
    requires GoodName(name) && records != [] && Clean(records[0])
    ensures ScanAll(PrintAll(name, records)) ==
              if |records| == 1 then Done(records)
              else Before(records[0], ScanAll(PrintAll(name, records[1..])))
  {
    PrintAllFollows(name, records[1..]);
    FirstRecord(name, records);
    CleanBodyScans(records[0], PrintAll(name, records[1..]));
    if |records| == 1 {
      assert records == [records[0]] && records[1..] == [];
    }
  }

  lemma ScanDirty(name: string, records: seq<Record>)
    requires GoodName(name) && records != [] && !Clean(records[0])
    ensures ScanAll(PrintAll(name, records)) != Done(records)
  {
    FirstRecord(name, records);
    DirtyBodyFails(records[0], PrintAll(name, records[1..]));
  }

  predicate AllClean(records: seq<Record>) {
    forall i | 0 <= i < |records| :: Clean(records[i])
  }

  lemma CleanTail(records: seq<Record>)
    requires records != []
    ensures AllClean(records) <==> Clean(records[0]) && AllClean(records[1..])
  {
    if Clean(records[0]) && AllClean(records[1..]) {
      forall i | 0 <= i < |records| ensures Clean(records[i]) {
        if i > 0 {
          assert Clean(records[1..][i - 1]);
        }
      }
    }
  }

  /** Putting a record in front of a scan. */
  function Before(r: Record, rest: Scan): Scan {
    match rest
    case Undefined => Undefined
    case Done(more) => Done([r] + more)
  }

  lemma BeforeIsDone(rest: Scan, records: seq<Record>)
    requires records != []
    ensures Before(records[0], rest) == Done(records) <==> rest == Done(records[1..])
  {
    assert records == [records[0]] + records[1..];
    if rest.Done? {
      assert ([records[0]] + rest.records)[1..] == rest.records;
    }
  }

  /** Scanning a printed log gives back the records, and stops at the end of the file, exactly
      when no payload starts with white space. */
  lemma {:induction false} ScanPrinted(name: string, records: seq<Record>)
    requires GoodName(name) && records != []
    ensures ScanAll(PrintAll(name, records)) == Done(records) <==> AllClean(records)
  {
    CleanTail(records);
    if !Clean(records[0]) {
      ScanDirty(name, records);
    } else {
      ScanClean(name, records);
      if |records| > 1 {
        ScanPrinted(name, records[1..]);
        BeforeIsDone(ScanAll(PrintAll(name, records[1..])), records);
      }
    }
  }

  /** For example, one leading blank is lost, and the line feed that ends the record is taken
      for the last byte of the payload. */
  lemma BlankIsLost(name: string, offset: nat, x: string)
    requires GoodName(name) && x != "" && !White(x[0])
    ensures ScanAll(PrintAll(name, [Record(offset, " " + x)])) == Done([Record(offset, x + "\n")])
  {
    var r := Record(offset, " " + x);
    assert [r][1..] == [];
    FirstRecord(name, [r]);
    NumbersScan(r, "");
    BlankSkipped(x);
    var s3 := x + "\n";
    assert s3[..|r.data|] == s3 && s3[|r.data|..] == "";
  }

  lemma BlankSkipped(x: string)
    requires x != "" && !White(x[0])
    ensures SkipWhite("\n" + ((" " + x) + ("\n" + ""))) == x + "\n"
  {
    var s3 := x + "\n";
    var s2 := " " + s3;
    assert (" " + x) + ("\n" + "") == s2;
    assert ("\n" + s2)[1..] == s2 && s2[1..] == s3;
    assert s3[0] == x[0] && SkipWhite(s3) == s3 && SkipWhite(s2) == s3;
  }

  // ---------------------------------------------------------------------------------
  // The format, character by character.

  /** isspace in the C locale. */
  lemma WhiteIs(c: char)
    ensures White(c) <==> c in [' ', '\t', '\n', 0x0b as char, 0x0c as char, '\r']
  {
  }

  /** The text of a commit of two regions. */
  lemma SampleLog()
    ensures PrintAll("seg", [Record(0, "ab"), Record(17, "")]) == "#REDO LOG#seg\n" + "0 2\nab\n" + "#REDO LOG#seg\n" + "17 0\n\n"
  {
    var records := [Record(0, "ab"), Record(17, "")];
    assert records[1..] == [Record(17, "")] && records[1..][1..] == [];
    assert Decimal(0) == "0" && Decimal(2) == "2" && Decimal(17) == "17";
    assert Print("seg", Record(0, "ab")) == "#REDO LOG#seg\n" + "0 2\nab\n";
    assert Print("seg", Record(17, "")) == "#REDO LOG#seg\n" + "17 0\n\n";
  }

  /** A literal is found if the input starts with it; the end of the input in the middle of it is
      told from a difference. */
  lemma {:induction false} LiteralMeans(s: string, lit: string)
    ensures Literal(s, lit) == if lit <= s then Matched(s[|lit|..]) else if s <= lit then AtEnd else Mismatch
  {
    if lit != "" && s != "" {
      LiteralMeans(s[1..], lit[1..]);
      assert lit <= s <==> lit[0] == s[0] && lit[1..] <= s[1..];
      assert s <= lit <==> lit[0] == s[0] && s[1..] <= lit[1..];
    }
  }

  /** What does not start like a record ends the scan without one. */
  lemma NoRecord(s: string)
    requires !("#REDO" <= s) && !(s <= "#REDO")
    ensures ScanAll(s) == Done([])
  {
    LiteralMeans(s, "#REDO");
  }

  /** A head without a name meets the end of the file, and the code goes on with what was never set. */
  lemma HeadCutOff()
    ensures ScanAll("#REDO LOG#") == Undefined
  {
    var s: string := " LOG#";
    assert "#REDO LOG#" == "#REDO" + s;
    LiteralMatches("#REDO", s);
    assert s[1..] == "LOG#" && SkipWhite(s) == "LOG#";
    LiteralMatches("LOG#", "");
    assert "LOG#" + "" == "LOG#";
  }
}
