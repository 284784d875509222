/** agent_unprotect gives back what agent_protect was given. */
module ProtectRoundTrip {
  import opened Wrappers
  import opened Decimals
  import opened CanonicalSexp
  import opened KeyProtection

  // ---------------------------------------------------------------------------------
  // Keys as structures, and their texts in front of whatever follows.

  datatype Param = Param(name: string, value: string)

  /** A private key: the public and the secret parameters, and whatever else the outer list
      holds, for example a comment. */
  datatype Key = Key(algo: string, pub: seq<Param>, sec: seq<Param>, rest: seq<Sexp>)

  function Pair(p: Param, tail: string): string { "(" + Net(p.name, Net(p.value, ")" + tail)) }

  function Pairs(ps: seq<Param>, tail: string): string {
    if ps == [] then tail else Pair(ps[0], Pairs(ps[1..], tail))
  }

  predicate SolidPairs(ps: seq<Param>) {
    forall i | 0 <= i < |ps| :: ps[i].name != "" && ps[i].value != ""
  }

  /** From the list of the algorithm on. */
  function AlgoText(algo: string, ps: seq<Param>, tail: string): string { "(" + Net(algo, Pairs(ps, tail)) }

  /** The end of a key behind its last parameter. */
  function EndText(k: Key, tail: string): string { ")" + TextAll(k.rest, ")" + tail) }

  /** The canonical text of a key. */
  function KeyText(k: Key, tail: string): string {
    "(" + Net("private-key", AlgoText(k.algo, k.pub + k.sec, EndText(k, tail)))
  }

  /** The names of the parameters are those of the table, or those of the curve variant. */
  predicate Named(ps: seq<Param>, parmlist: string) {
    |ps| == |parmlist| && forall i | 0 <= i < |ps| :: ps[i].name == [parmlist[i]]
  }

  predicate NamedByCurve(ps: seq<Param>) {
    |ps| == 3 && ps[0].name == "curve" && ps[1].name == "q" && ps[2].name == "d"
  }

  predicate Fits(k: Key, info: Info) {
    && k.algo == info.algo
    && ((Named(k.pub + k.sec, info.parmlist) && |k.pub| == info.protFrom)
        || (info.eccHack && NamedByCurve(k.pub + k.sec) && |k.pub| == 2))
  }

  /** A clear key of a listed algorithm. */
  predicate WellFormed(k: Key) {
    && (exists j :: 0 <= j < |Table| && Fits(k, Table[j]))
    && SolidPairs(k.pub) && SolidPairs(k.sec) && SolidAll(k.rest)
  }

  // ---------------------------------------------------------------------------------
  // Reading and joining texts.

  lemma Opened(s: string)
    ensures At("(" + s) == '(' && Drop("(" + s, 1) == s
    ensures At(")" + s) == ')' && Drop(")" + s, 1) == s
  {
    assert ("(" + s)[1..] == s && (")" + s)[1..] == s;
  }

  lemma BetweenJoined(a: string, b: string)
    ensures Between(a + b, b) == a
  {
  }

  lemma PairReads(p: Param, tail: string)
    requires p.name != "" && p.value != ""
    ensures At(Pair(p, tail)) == '('
    ensures Snext(Drop(Pair(p, tail), 1)) == (|p.name|, p.name + Net(p.value, ")" + tail))
    ensures Drop(p.name + Net(p.value, ")" + tail), |p.name|) == Net(p.value, ")" + tail)
    ensures Snext(Net(p.value, ")" + tail)) == (|p.value|, p.value + (")" + tail))
    ensures Drop(p.value + (")" + tail), |p.value|) == ")" + tail
    ensures At(")" + tail) == ')' && Drop(")" + tail, 1) == tail
  {
    var v := Net(p.value, ")" + tail);
    Opened(Net(p.name, v));
    NetParts(p.name, v);
    NetParts(p.value, ")" + tail);
    Opened(tail);
  }

  lemma SkipPair(p: Param, tail: string, depth: nat, canonical: bool)
    requires p.name != "" && p.value != "" && depth > 0
    ensures Skip(Pair(p, tail), depth, canonical) == Skip(tail, depth, canonical)
  {
    var v := Net(p.value, ")" + tail);
    SkipOpen(Net(p.name, v), depth, canonical);
    SkipNet(p.name, v, depth + 1, canonical);
    SkipNet(p.value, ")" + tail, depth + 1, canonical);
    SkipClose(tail, depth + 1, canonical);
  }

  lemma {:induction false} SkipAllPairs(ps: seq<Param>, tail: string, depth: nat, canonical: bool)
    requires SolidPairs(ps) && depth > 0
    ensures Skip(Pairs(ps, tail), depth, canonical) == Skip(tail, depth, canonical)
  {
    if ps != [] {
      SkipPair(ps[0], Pairs(ps[1..], tail), depth, canonical);
      SkipAllPairs(ps[1..], tail, depth, canonical);
    }
  }

  lemma {:induction false} SkipPairsStops(ps: seq<Param>, tail: string)
    requires SolidPairs(ps) && At(tail) != '('
    ensures SkipPairs(Pairs(ps, tail)) == Some(tail)
  {
    if ps != [] {
      PairReads(ps[0], Pairs(ps[1..], tail));
      SkipPairsStops(ps[1..], tail);
    }
  }

  lemma PairAppend(p: Param, a: string, b: string)
    ensures Pair(p, a + b) == Pair(p, a) + b
  {
    assert ")" + (a + b) == (")" + a) + b;
    NetAppend(p.value, ")" + a, b);
    NetAppend(p.name, Net(p.value, ")" + a), b);
    var n := Net(p.name, Net(p.value, ")" + a));
    assert "(" + (n + b) == ("(" + n) + b;
  }

  lemma {:induction false} PairsAppend(ps: seq<Param>, a: string, b: string)
    ensures Pairs(ps, a + b) == Pairs(ps, a) + b
  {
    if ps != [] {
      PairsAppend(ps[1..], a, b);
      PairAppend(ps[0], Pairs(ps[1..], a), b);
    }
  }

  lemma {:induction false} PairsSplit(ps: seq<Param>, qs: seq<Param>, tail: string)
    ensures Pairs(ps + qs, tail) == Pairs(ps, Pairs(qs, tail))
  {
    if ps == [] {
      assert ps + qs == qs;
    } else {
      assert (ps + qs)[0] == ps[0] && (ps + qs)[1..] == ps[1..] + qs;
      PairsSplit(ps[1..], qs, tail);
    }
  }

  lemma AlgoAppend(algo: string, ps: seq<Param>, a: string, b: string)
    ensures AlgoText(algo, ps, a + b) == AlgoText(algo, ps, a) + b
  {
    PairsAppend(ps, a, b);
    NetAppend(algo, Pairs(ps, a), b);
    var n := Net(algo, Pairs(ps, a));
    assert "(" + (n + b) == ("(" + n) + b;
  }

  /** A text behind the parameters, seen as a pointer. */
  lemma AlgoBetween(algo: string, ps: seq<Param>, tail: string)
    ensures Between(AlgoText(algo, ps, tail), tail) == AlgoText(algo, ps, "")
    ensures AlgoText(algo, ps, "") + tail == AlgoText(algo, ps, tail)
  {
    assert "" + tail == tail;
    AlgoAppend(algo, ps, "", tail);
    BetweenJoined(AlgoText(algo, ps, ""), tail);
  }

  lemma PairsBetween(ps: seq<Param>, tail: string)
    ensures Between(Pairs(ps, tail), tail) == Pairs(ps, "")
    ensures Pairs(ps, "") + tail == Pairs(ps, tail)
  {
    assert "" + tail == tail;
    PairsAppend(ps, "", tail);
    BetweenJoined(Pairs(ps, ""), tail);
  }

  // ---------------------------------------------------------------------------------
  // The first half: what agent_protect makes of a key.

  lemma AlgosDiffer(i: nat, j: nat)
    requires i < j < |Table|
    ensures Table[i].algo != Table[j].algo
  {
  }

  lemma {:induction false} InfoFound(j: nat, i: nat, tail: string)
    requires i <= j < |Table|
    ensures FindInfo(Table[j].algo + tail, |Table[j].algo|, i) == Some((Table[j], tail))
    decreases j - i
  {
    var algo := Table[j].algo;
    var s := algo + tail;
    assert s[..|algo|] == algo && s[|algo|..] == tail;
    if i < j {
      AlgosDiffer(i, j);
      assert Smatch(s, |algo|, Table[i].algo).None?;
      InfoFound(j, i + 1, tail);
    }
  }

  lemma LetterRead(ecc: bool, c: char, i: nat, p: Param, tail: string)
    requires p.name == [c] && p.value != ""
    ensures ReadParam(ecc, c, i, Pair(p, tail)) == Ok((true, ")" + tail)) && Drop(")" + tail, 1) == tail
  {
    PairReads(p, tail);
    assert At(p.name + Net(p.value, ")" + tail)) == c;
  }

  lemma CurveRead(c: char, p: Param, tail: string)
    requires p.name == "curve" && p.value != ""
    ensures ReadParam(true, c, 0, Pair(p, tail)) == Ok((false, ")" + tail)) && Drop(")" + tail, 1) == tail
  {
    PairReads(p, tail);
    assert Take(p.name + Net(p.value, ")" + tail), 5) == "curve";
  }

  lemma LetterStep(ecc: bool, scan: Scan, p: Param, tail: string)
    requires scan.i < |scan.parmlist| && p.name == [scan.parmlist[scan.i]] && p.value != "" && scan.s == Pair(p, tail)
    ensures var r := ScanParam(ecc, scan);
            && r.Ok? && r.value.parmlist == scan.parmlist && r.value.from == scan.from && r.value.to == scan.to
            && r.value.i == scan.i + 1 && r.value.s == tail
            && r.value.begin == (if scan.i == scan.from then Some(scan.s) else scan.begin)
            && r.value.end == (if scan.i == scan.to then Some(")" + tail) else scan.end)
  {
    LetterRead(ecc, scan.parmlist[scan.i], scan.i, p, tail);
  }

  lemma PairsFrom(ps: seq<Param>, i: nat, tail: string)
    requires i < |ps|
    ensures Pairs(ps[i..], tail) == Pair(ps[i], Pairs(ps[i + 1..], tail))
  {
    assert ps[i..][1..] == ps[i + 1..];
  }

  /** The loop stands before parameter i. */
  predicate Before(scan: Scan, ps: seq<Param>, i: nat, tail: string) {
    && |scan.parmlist| == |ps| && scan.i == i <= |ps| && scan.from < |ps| && scan.to == |ps| - 1
    && scan.s == Pairs(ps[i..], tail)
    && (scan.from < i ==> scan.begin == Some(Pairs(ps[scan.from..], tail)))
    && (i == |ps| ==> scan.end == Some(")" + tail))
  }

  lemma BeforeNext(ecc: bool, scan: Scan, ps: seq<Param>, tail: string)
    requires Before(scan, ps, scan.i, tail) && scan.i < |ps|
    requires ps[scan.i].name == [scan.parmlist[scan.i]] && ps[scan.i].value != ""
    ensures var r := ScanParam(ecc, scan);
            r.Ok? && r.value.parmlist == scan.parmlist && r.value.from == scan.from && Before(r.value, ps, scan.i + 1, tail)
  {
    var i := scan.i;
    PairsFrom(ps, i, tail);
    LetterStep(ecc, scan, ps[i], Pairs(ps[i + 1..], tail));
  }

  /** The loop over parameters that are named by one letter each. */
  lemma {:induction false} LettersScanned(ecc: bool, scan: Scan, ps: seq<Param>, tail: string)
    requires Before(scan, ps, scan.i, tail)
    requires forall j | scan.i <= j < |ps| :: ps[j].name == [scan.parmlist[j]] && ps[j].value != ""
    ensures var r := ScanParams(ecc, scan); r.Ok? && r.value.from == scan.from && Before(r.value, ps, |ps|, tail)
    decreases |ps| - scan.i
  {
    if scan.i < |ps| {
      BeforeNext(ecc, scan, ps, tail);
      LettersScanned(ecc, ScanParam(ecc, scan).value, ps, tail);
    }
  }

  lemma CurveStep(scan: Scan, p: Param, tail: string)
    requires |scan.parmlist| > 0 && 0 < scan.from && scan.i == 0 && p.name == "curve" && p.value != "" && scan.s == Pair(p, tail)
    ensures var r := ScanParam(true, scan);
            && r.Ok? && r.value.parmlist == "?qd" && r.value.from == 2 && r.value.to == 2
            && r.value.i == 1 && r.value.s == tail
  {
    CurveRead(scan.parmlist[0], p, tail);
  }

  /** The curve variant: the first parameter changes the list. */
  lemma CurveScanned(scan: Scan, ps: seq<Param>, tail: string)
    requires NamedByCurve(ps) && SolidPairs(ps) && 0 < scan.from && |scan.parmlist| > 0 && scan.i == 0
    requires scan.s == Pairs(ps, tail)
    ensures var r := ScanParams(true, scan); r.Ok? && r.value.from == 2 && Before(r.value, ps, 3, tail)
  {
    CurveStep(scan, ps[0], Pairs(ps[1..], tail));
    LettersScanned(true, ScanParam(true, scan).value, ps, tail);
  }

  /** In each row the protected parameters are the last ones. */
  lemma ProtectedAreLast(info: Info)
    requires info in Table
    ensures info.algo != "" && info.protTo == |info.parmlist| - 1 && 0 < info.protFrom < |info.parmlist|
  {
  }

  function Start(info: Info, s: string): Scan { Scan(info.parmlist, info.protFrom, info.protTo, 0, s, None, None) }

  lemma NamedScanned(info: Info, ps: seq<Param>, tail: string)
    requires Named(ps, info.parmlist) && SolidPairs(ps) && info.protFrom < |ps| && info.protTo == |ps| - 1
    ensures var r := ScanParams(info.eccHack, Start(info, Pairs(ps, tail)));
            r.Ok? && r.value.from == info.protFrom && Before(r.value, ps, |ps|, tail)
  {
    assert ps[0..] == ps;
    LettersScanned(info.eccHack, Start(info, Pairs(ps, tail)), ps, tail);
  }

  lemma ParamsScanned(k: Key, info: Info, tail: string)
    requires info in Table && Fits(k, info) && SolidPairs(k.pub + k.sec)
    ensures var r := ScanParams(info.eccHack, Start(info, Pairs(k.pub + k.sec, tail)));
            r.Ok? && r.value.s == tail && r.value.begin == Some(Pairs(k.sec, tail)) && r.value.end == Some(")" + tail)
  {
    var all := k.pub + k.sec;
    ProtectedAreLast(info);
    if Named(all, info.parmlist) && |k.pub| == info.protFrom {
      NamedScanned(info, all, tail);
    } else {
      CurveScanned(Start(info, Pairs(all, tail)), all, tail);
    }
    assert all[|k.pub|..] == k.sec;
  }

  lemma TokenRead(token: string, rest: string)
    requires token != "" && At(rest) == '('
    ensures ReadToken("(" + Net(token, rest), token) == Ok(rest)
  {
    Opened(Net(token, rest));
    NetParts(token, rest);
    assert (token + rest)[..|token|] == token;
  }

  lemma AlgoReads(algo: string, ps: seq<Param>, tail: string)
    requires algo != ""
    ensures At(AlgoText(algo, ps, tail)) == '('
    ensures Snext(Drop(AlgoText(algo, ps, tail), 1)) == (|algo|, algo + Pairs(ps, tail))
    ensures Drop(algo + Pairs(ps, tail), |algo|) == Pairs(ps, tail)
  {
    Opened(Net(algo, Pairs(ps, tail)));
    NetParts(algo, Pairs(ps, tail));
  }

  /** The head of a key, clear or protected. */
  lemma HeadRead(token: string, info: Info, ps: seq<Param>, tail: string)
    requires token != "" && info in Table
    ensures var list := AlgoText(info.algo, ps, tail);
            ReadHead("(" + Net(token, list), token) == Ok((list, info, Pairs(ps, tail)))
  {
    ProtectedAreLast(info);
    AlgoReads(info.algo, ps, tail);
    TokenRead(token, AlgoText(info.algo, ps, tail));
    var j :| 0 <= j < |Table| && Table[j] == info;
    InfoFound(j, 0, Pairs(ps, tail));
  }

  lemma EndSkipped(k: Key, tail: string)
    requires SolidAll(k.rest)
    ensures At(EndText(k, tail)) == ')' && Sskip(Drop(EndText(k, tail), 1), 1) == Some(tail)
    ensures Skip(EndText(k, tail), 2, true) == Some(tail) && Skip(EndText(k, tail), 2, false) == Some(tail)
  {
    var more := TextAll(k.rest, ")" + tail);
    Opened(more);
    forall canonical: bool ensures Skip(more, 1, canonical) == Some(tail) {
      SkipTextAll(k.rest, ")" + tail, 1, canonical);
      SkipClose(tail, 1, canonical);
    }
    SkipClose(more, 2, true);
    SkipClose(more, 2, false);
  }

  lemma ClearParsed(k: Key, info: Info, tail: string)
    requires info in Table && Fits(k, info) && SolidPairs(k.pub + k.sec) && SolidAll(k.rest)
    ensures var end := EndText(k, tail);
            ParseClear(KeyText(k, tail)) ==
              Ok(Clear(AlgoText(k.algo, k.pub + k.sec, end), end, Pairs(k.sec, end), ")" + end, tail))
  {
    var end := EndText(k, tail);
    HeadRead("private-key", info, k.pub + k.sec, end);
    ParamsScanned(k, info, end);
    EndSkipped(k, tail);
  }

  // ---------------------------------------------------------------------------------
  // The literals of the printer are atoms with their lengths.

  lemma NetIs(data: string, digits: string, tail: string)
    requires Decimal(|data|) == digits
    ensures Net(data, tail) == (digits + (":" + data)) + tail
  {
    assert ":" + (data + tail) == (":" + data) + tail;
    assert digits + ((":" + data) + tail) == (digits + (":" + data)) + tail;
  }

  lemma Join(a: string, b: string, c: string)
    ensures (a + b) + c == a + (b + c)
  {
  }

  function Stamp(at: string): Param { Param("protected-at", at) }

  lemma StampWord()
    ensures Decimal(12) == "12" && Decimal(15) == "15"
    ensures "(" + ("12" + (":" + ("protected-at" + ("15" + ":")))) == "(12:protected-at15:"
  {
  }

  lemma StampHead(tail: string)
    ensures "(12:protected-at15:" + tail == "(" + (Decimal(12) + (":" + ("protected-at" + (Decimal(15) + (":" + tail)))))
  {
    StampWord();
    Join("15", ":", tail);
    Join("protected-at", "15" + ":", tail);
    Join(":", "protected-at" + ("15" + ":"), tail);
    Join("12", ":" + ("protected-at" + ("15" + ":")), tail);
    Join("(", "12" + (":" + ("protected-at" + ("15" + ":"))), tail);
  }

  lemma TimestampText(at: string, tail: string)
    requires |at| == 15
    ensures Timestamp(at) + tail == Pair(Stamp(at), tail)
    ensures |Timestamp(at)| == 35
  {
    StampHead(at + (")" + tail));
    Join(at, ")", tail);
    Join("(12:protected-at15:", at + ")", tail);
  }

  /** What stands in the protected list behind its first atom. */
  function Protected(salt: string, count: nat, iv: string, data: string, tail: string): string {
    Net(Mode, "((" + Net("sha1", Net(salt, Net(Decimal(count), ")" + Net(iv, ")" + Net(data, tail))))))
  }

  lemma IvText(iv: string, tail: string)
    requires |iv| == 16
    ensures ")16:" + (iv + tail) == ")" + Net(iv, tail)
  {
    assert Decimal(16) == "16";
    assert Net(iv, tail) == "16" + (":" + (iv + tail));
    Join("16", ":", iv + tail);
    Join(")", "16" + ":", iv + tail);
    assert ")" + ("16" + ":") == ")16:";
  }

  lemma SaltText(salt: string, tail: string)
    requires |salt| == 8
    ensures "((4:sha18:" + (salt + tail) == "((" + Net("sha1", Net(salt, tail))
  {
    assert Decimal(4) == "4" && Decimal(8) == "8";
    NetIs("sha1", "4", Net(salt, tail));
    assert "4" + (":" + "sha1") == "4:sha1";
    assert Net(salt, tail) == "8" + (":" + (salt + tail));
    Join("8", ":", salt + tail);
    Join("4:sha1", "8" + ":", salt + tail);
    Join("((", "4:sha1" + ("8" + ":"), salt + tail);
    assert "((" + ("4:sha1" + ("8" + ":")) == "((4:sha18:";
  }

  lemma ModeText(tail: string)
    ensures "(9:protected25:" + (Mode + tail) == "(" + Net("protected", Net(Mode, tail))
  {
    assert Decimal(9) == "9" && Decimal(25) == "25";
    NetIs("protected", "9", Net(Mode, tail));
    assert "9" + (":" + "protected") == "9:protected";
    assert |Mode| == 25;
    assert Net(Mode, tail) == "25" + (":" + (Mode + tail));
    Join("25", ":", Mode + tail);
    Join("9:protected", "25" + ":", Mode + tail);
    Join("(", "9:protected" + ("25" + ":"), Mode + tail);
    assert "(" + ("9:protected" + ("25" + ":")) == "(9:protected25:";
  }

  lemma ListText(salt: string, count: nat, iv: string, data: string, tail: string)
    requires |salt| == 8 && |iv| == 16
    ensures ProtectedList(salt, count, iv, data, tail) == "(" + Net("protected", Protected(salt, count, iv, data, ")" + tail))
  {
    IvText(iv, ")" + Net(data, ")" + tail));
    var x := Net(Decimal(count), ")" + Net(iv, ")" + Net(data, ")" + tail)));
    SaltText(salt, x);
    ModeText("((" + Net("sha1", Net(salt, x)));
  }

  // ---------------------------------------------------------------------------------
  // Reading the protected list.

  /** An atom that is the expected token. */
  lemma TokenMatches(token: string, tail: string)
    requires token != ""
    ensures Snext(Net(token, tail)) == (|token|, token + tail)
    ensures Smatch(token + tail, |token|, token) == Some(tail)
  {
    NetParts(token, tail);
    assert (token + tail)[..|token|] == token;
  }

  lemma ModeRead(tail: string)
    ensures ParseMode(Net(Mode, "((" + tail)) == Ok(tail)
  {
    TokenMatches(Mode, "((" + tail);
    assert ("((" + tail)[2..] == tail;
  }

  lemma SaltRead(salt: string, tail: string)
    requires |salt| == 8
    ensures ParseSalt(Net("sha1", Net(salt, tail))) == Ok((salt, tail))
  {
    TokenMatches("sha1", Net(salt, tail));
    NetParts(salt, tail);
  }

  lemma CountRead(count: nat, tail: string)
    requires count >= 65536
    ensures ParseCount(Net(Decimal(count), ")" + tail)) == Ok((count, tail))
  {
    var d := Decimal(count);
    NetParts(d, ")" + tail);
    Opened(tail);
    DecimalDigits(count);
    DigitsStop(d, ")" + tail);
    assert (d + (")" + tail))[..|d|] == d;
  }

  lemma DataRead(iv: string, data: string, tail: string)
    requires |iv| == 16 && data != ""
    ensures ParseData(Net(iv, ")" + Net(data, tail))) == Ok((iv, data))
  {
    NetParts(iv, ")" + Net(data, tail));
    Opened(Net(data, tail));
    NetParts(data, tail);
  }

  lemma ProtectionRead(p: Protection, tail: string)
    requires |p.salt| == 8 && p.count >= 65536 && |p.iv| == 16 && p.data != ""
    ensures ParseProtection(Protected(p.salt, p.count, p.iv, p.data, tail)) == Ok(p)
  {
    var s2 := Net(p.iv, ")" + Net(p.data, tail));
    var s1 := Net(Decimal(p.count), ")" + s2);
    ModeRead(Net("sha1", Net(p.salt, s1)));
    SaltRead(p.salt, s1);
    CountRead(p.count, s2);
    DataRead(p.iv, p.data, tail);
  }

  lemma SkipParameters(salt: string, count: string, iv: string, tail: string, depth: nat, canonical: bool)
    requires salt != "" && count != "" && iv != "" && depth > 0
    ensures Skip("((" + Net("sha1", Net(salt, Net(count, ")" + Net(iv, ")" + tail)))), depth, canonical) == Skip(tail, depth, canonical)
  {
    var s3 := Net(iv, ")" + tail);
    var s2 := Net(count, ")" + s3);
    var s1 := Net("sha1", Net(salt, s2));
    assert "((" + s1 == "(" + ("(" + s1);
    SkipOpen("(" + s1, depth, canonical);
    SkipOpen(s1, depth + 1, canonical);
    SkipNet("sha1", Net(salt, s2), depth + 2, canonical);
    SkipNet(salt, s2, depth + 2, canonical);
    SkipNet(count, ")" + s3, depth + 2, canonical);
    SkipClose(s3, depth + 2, canonical);
    SkipNet(iv, ")" + tail, depth + 1, canonical);
    SkipClose(tail, depth + 1, canonical);
  }

  lemma SkipProtected(p: Protection, tail: string, depth: nat, canonical: bool)
    requires |p.salt| == 8 && |p.iv| == 16 && p.data != "" && depth > 0
    ensures Skip(Protected(p.salt, p.count, p.iv, p.data, ")" + tail), depth, canonical) == Skip(tail, depth - 1, canonical)
  {
    var data := Net(p.data, ")" + tail);
    SkipNet(Mode, "((" + Net("sha1", Net(p.salt, Net(Decimal(p.count), ")" + Net(p.iv, ")" + data)))), depth, canonical);
    SkipParameters(p.salt, Decimal(p.count), p.iv, data, depth, canonical);
    SkipNet(p.data, ")" + tail, depth, canonical);
    SkipClose(tail, depth, canonical);
  }

  // ---------------------------------------------------------------------------------
  // Finding lists.

  lemma OtherName(name: string, tail: string, token: string)
    requires name != token
    ensures Smatch(name + tail, |name|, token).None?
  {
    assert (name + tail)[..|name|] == name;
  }

  predicate NotNamed(ps: seq<Param>, token: string) {
    forall i | 0 <= i < |ps| :: ps[i].name != token
  }

  lemma PairPassed(p: Param, tail: string)
    requires p.name != "" && p.value != ""
    ensures Sskip(Drop(p.name + Net(p.value, ")" + tail), |p.name|), 1) == Some(tail)
  {
    PairReads(p, tail);
    SkipNet(p.value, ")" + tail, 1, false);
    SkipClose(tail, 1, false);
  }

  lemma {:induction false} PastPublic(ps: seq<Param>, tail: string)
    requires SolidPairs(ps) && NotNamed(ps, "protected") && NotNamed(ps, "protected-at")
    ensures FindProtected(Pairs(ps, tail)) == FindProtected(tail)
    ensures FindTimestamp(Pairs(ps, tail)) == FindTimestamp(tail)
  {
    if ps != [] {
      var p, more := ps[0], Pairs(ps[1..], tail);
      PairReads(p, more);
      PairPassed(p, more);
      OtherName(p.name, Net(p.value, ")" + more), "protected");
      OtherName(p.name, Net(p.value, ")" + more), "protected-at");
      PastPublic(ps[1..], tail);
    }
  }

  lemma ListFound(s: string)
    ensures FindProtected("(" + Net("protected", s)) == Ok(("(" + Net("protected", s), s))
  {
    Opened(Net("protected", s));
    NetParts("protected", s);
    assert ("protected" + s)[..9] == "protected";
  }

  lemma TimestampBehind(p: Protection, at: string, tail: string)
    requires |p.salt| == 8 && |p.iv| == 16 && p.data != "" && |at| == 15
    ensures FindTimestamp("(" + Net("protected", Protected(p.salt, p.count, p.iv, p.data, ")" + Pair(Stamp(at), tail)))) == Ok(Some(at))
  {
    var next := Pair(Stamp(at), tail);
    var s := Protected(p.salt, p.count, p.iv, p.data, ")" + next);
    Opened(Net("protected", s));
    NetParts("protected", s);
    OtherName("protected", s, "protected-at");
    SkipProtected(p, next, 1, false);
    TimestampFound(at, tail);
  }

  lemma TimestampFound(at: string, tail: string)
    requires |at| == 15
    ensures FindTimestamp(Pair(Stamp(at), tail)) == Ok(Some(at))
  {
    PairReads(Stamp(at), tail);
    var v := Net(at, ")" + tail);
    assert ("protected-at" + v)[..12] == "protected-at";
    NetParts(at, ")" + tail);
  }

  lemma PublicNames(k: Key, info: Info)
    requires Fits(k, info)
    ensures NotNamed(k.pub, "protected") && NotNamed(k.pub, "protected-at")
  {
    forall i | 0 <= i < |k.pub| ensures k.pub[i].name != "protected" && k.pub[i].name != "protected-at" {
      assert k.pub[i] == (k.pub + k.sec)[i];
      if !Named(k.pub + k.sec, info.parmlist) {
        assert i == 0 || i == 1;
      }
    }
  }

  // ---------------------------------------------------------------------------------
  // The text that agent_protect returns.

  function ProtectedText(k: Key, p: Protection, at: string): string {
    "(" + Net("protected-private-key",
              AlgoText(k.algo, k.pub, ProtectedList(p.salt, p.count, p.iv, p.data, Pair(Stamp(at), EndText(k, "")))))
  }

  /** What the integrity code is computed over. */
  function MicText(k: Key, at: string): string { AlgoText(k.algo, k.pub + k.sec + [Stamp(at)], ")") }

  lemma ListAppend(salt: string, count: nat, iv: string, data: string, tail: string)
    ensures ProtectedList(salt, count, iv, data, "") + tail == ProtectedList(salt, count, iv, data, tail)
  {
    assert ")" + tail == (")" + "") + tail;
    NetAppend(data, ")" + "", tail);
    var x := Net(data, ")" + "");
    Join(")", x, tail);
    Join(iv, ")" + x, tail);
    Join(")16:", iv + (")" + x), tail);
    var y := ")16:" + (iv + (")" + x));
    NetAppend(Decimal(count), y, tail);
    var z := Net(Decimal(count), y);
    Join(salt, z, tail);
    Join("((4:sha18:", salt + z, tail);
    Join(Mode, "((4:sha18:" + (salt + z), tail);
    Join("(9:protected25:", Mode + ("((4:sha18:" + (salt + z)), tail);
  }

  lemma EndAppend(k: Key, junk: string)
    ensures EndText(k, junk) == EndText(k, "") + junk
  {
    assert ")" + junk == (")" + "") + junk;
    TextAllAppend(k.rest, ")" + "", junk);
    Join(")", TextAll(k.rest, ")" + ""), junk);
  }

  lemma HashedText(k: Key, at: string, end: string)
    requires |at| == 15
    ensures Between(AlgoText(k.algo, k.pub + k.sec, end), end) + Timestamp(at) + ")" == MicText(k, at)
  {
    var all := k.pub + k.sec;
    AlgoBetween(k.algo, all, end);
    TimestampText(at, ")");
    Join(AlgoText(k.algo, all, ""), Timestamp(at), ")");
    AlgoBetween(k.algo, all, Pair(Stamp(at), ")"));
    StampLast(all, at, ")");
  }

  lemma StampLast(ps: seq<Param>, at: string, tail: string)
    ensures Pairs(ps + [Stamp(at)], tail) == Pairs(ps, Pair(Stamp(at), tail))
  {
    PairsSplit(ps, [Stamp(at)], tail);
    var one := [Stamp(at)];
    assert one[1..] == [] && one[0] == Stamp(at);
    assert Pairs(one, tail) == Pair(one[0], Pairs(one[1..], tail));
  }

  lemma BehindFour(list: string)
    ensures Drop("(" + Net("private-key", list), 4) == "private-key" + list
  {
    assert Decimal(11) == "11";
    var key := "private-key" + list;
    Join("11", ":", key);
    Join("(", "11" + ":", key);
    assert ("(" + ("11" + ":") + key)[4..] == key;
  }

  /** The key from its fifth byte up to the secret parameters. */
  lemma PublicPart(k: Key, junk: string)
    ensures var begin := Pairs(k.sec, EndText(k, junk));
            Between(Drop(KeyText(k, junk), 4), begin) == "private-key" + AlgoText(k.algo, k.pub, "")
  {
    var end := EndText(k, junk);
    var begin := Pairs(k.sec, end);
    var list := AlgoText(k.algo, k.pub + k.sec, end);
    PairsSplit(k.pub, k.sec, end);
    AlgoBetween(k.algo, k.pub, begin);
    BehindFour(list);
    Join("private-key", AlgoText(k.algo, k.pub, ""), begin);
    BetweenJoined("private-key" + AlgoText(k.algo, k.pub, ""), begin);
  }

  lemma ProtectedWord()
    ensures "(" + ("21" + (":" + "protected-private-key")) == "(21:protected-" + "private-key"
  {
  }

  lemma ProtectedHead(rest: string)
    ensures "(21:protected-" + ("private-key" + rest) == "(" + Net("protected-private-key", rest)
  {
    assert Decimal(21) == "21";
    NetIs("protected-private-key", "21", rest);
    ProtectedWord();
    Join("(", "21" + (":" + "protected-private-key"), rest);
    Join("(21:protected-", "private-key", rest);
  }

  lemma ProtectedJoined(k: Key, p: Protection, at: string)
    requires |at| == 15
    ensures "(21:protected-" + ("private-key" + AlgoText(k.algo, k.pub, "")) + ProtectedList(p.salt, p.count, p.iv, p.data, "")
              + Timestamp(at) + EndText(k, "") == ProtectedText(k, p, at)
  {
    var a, b, c, d := AlgoText(k.algo, k.pub, ""), ProtectedList(p.salt, p.count, p.iv, p.data, ""), Timestamp(at), EndText(k, "");
    TimestampText(at, d);
    ListAppend(p.salt, p.count, p.iv, p.data, c + d);
    AlgoBetween(k.algo, k.pub, b + (c + d));
    ProtectedHead(a + (b + (c + d)));
    Regroup("(21:protected-", "private-key", a, b, c, d);
  }

  lemma Regroup(h: string, t: string, a: string, b: string, c: string, d: string)
    ensures h + (t + a) + b + c + d == h + (t + (a + (b + (c + d))))
  {
    Join(h + (t + a) + b, c, d);
    Join(h + (t + a), b, c + d);
    Join(h, t + a, b + (c + d));
    Join(t, a, b + (c + d));
  }

  function Sealed(lib: Lib, nonce: Nonce, count: nat, at: string, passphrase: string, k: Key): Protection {
    Protection(nonce.salt, count, nonce.iv,
               Encrypted(lib, nonce, count, passphrase, Pairs(k.sec, ""), lib.sha1(MicText(k, at))))
  }

  /** What agent_protect makes of a key, whatever follows the key in memory. */
  lemma ProtectResult(lib: Lib, nonce: Nonce, count: nat, at: string, passphrase: string, k: Key, info: Info, junk: string)
    requires |at| == 15 && info in Table && Fits(k, info) && SolidPairs(k.pub + k.sec) && SolidAll(k.rest)
    ensures Protect(lib, nonce, count, at, passphrase, KeyText(k, junk)) ==
              Ok(ProtectedText(k, Sealed(lib, nonce, count, at, passphrase, k), at))
  {
    var end := EndText(k, junk);
    ClearParsed(k, info, junk);
    HashedText(k, at, end);
    Opened(end);
    PairsBetween(k.sec, end);
    PublicPart(k, junk);
    EndAppend(k, junk);
    BetweenJoined(EndText(k, ""), junk);
    ProtectedJoined(k, Sealed(lib, nonce, count, at, passphrase, k), at);
  }

  // ---------------------------------------------------------------------------------
  // The second half: what agent_unprotect makes of it.

  /** The part of the cleartext behind the parameters. */
  function MicList(hash: string, tail: string): string { "(" + Net("hash", Net("sha1", Net(hash, ")" + tail))) }

  lemma MicWord()
    ensures Decimal(4) == "4" && Decimal(20) == "20"
    ensures ")" + ("(" + ("4:hash" + ("4:sha1" + "20:"))) == ")(4:hash4:sha120:"
  {
  }

  lemma MicListText(hash: string, tail: string)
    requires |hash| == 20
    ensures ")(4:hash4:sha120:" + (hash + (")" + tail)) == ")" + MicList(hash, tail)
  {
    var x := hash + (")" + tail);
    MicWord();
    NetIs("hash", "4", Net("sha1", Net(hash, ")" + tail)));
    NetIs("sha1", "4", Net(hash, ")" + tail));
    assert "4" + (":" + "hash") == "4:hash" && "4" + (":" + "sha1") == "4:sha1";
    Join("20", ":", x);
    assert "20" + ":" == "20:";
    Join("4:sha1", "20:", x);
    Join("4:hash", "4:sha1" + "20:", x);
    Join("(", "4:hash" + ("4:sha1" + "20:"), x);
    Join(")", "(" + ("4:hash" + ("4:sha1" + "20:")), x);
  }

  /** The cleartext as a list. */
  function Cleartext(sec: seq<Param>, hash: string, tail: string): string {
    "(" + ("(" + Pairs(sec, ")" + MicList(hash, ")" + tail)))
  }

  lemma PlaintextText(sec: seq<Param>, hash: string, pad: string)
    requires |hash| == 20
    ensures Plaintext(Pairs(sec, ""), hash, pad) == Cleartext(sec, hash, pad)
  {
    Join(")", ")", pad);
    assert ")" + ")" == "))";
    MicListText(hash, ")" + pad);
    PairsBetween(sec, ")" + MicList(hash, ")" + pad));
    Join("(", "(", Pairs(sec, ")" + MicList(hash, ")" + pad)));
    assert "(" + "(" == "((";
  }

  lemma SkipMicList(hash: string, tail: string, depth: nat, canonical: bool)
    requires hash != "" && depth > 0
    ensures Skip(MicList(hash, tail), depth, canonical) == Skip(tail, depth, canonical)
  {
    var s1 := Net(hash, ")" + tail);
    SkipOpen(Net("hash", Net("sha1", s1)), depth, canonical);
    SkipNet("hash", Net("sha1", s1), depth + 1, canonical);
    SkipNet("sha1", s1, depth + 1, canonical);
    SkipNet(hash, ")" + tail, depth + 1, canonical);
    SkipClose(tail, depth + 1, canonical);
  }

  lemma CleartextIsCanonical(sec: seq<Param>, hash: string, tail: string)
    requires SolidPairs(sec) && hash != ""
    ensures Canonical(Cleartext(sec, hash, tail), tail)
  {
    var mic := MicList(hash, ")" + tail);
    var body := Pairs(sec, ")" + mic);
    Opened("(" + body);
    SkipOpen(body, 1, true);
    SkipAllPairs(sec, ")" + mic, 2, true);
    SkipClose(mic, 2, true);
    SkipMicList(hash, ")" + tail, 1, true);
    SkipClose(tail, 1, true);
  }

  /** The padding that is encrypted: at most one block, and nothing of the list is cut off. */
  lemma PaddingFits(block: string, hash: string, pad: string)
    requires |hash| == 20 && |pad| == 16
    ensures var n := EncLen(|block|);
            && n % 16 == 0 && |Plaintext(block, hash, pad)| == |block| + 57
            && |block| + 41 <= n <= |block| + 57
            && Take(Plaintext(block, hash, pad), n) == Plaintext(block, hash, pad[..n - (|block| + 41)])
  {
    var n := EncLen(|block|);
    var a := "((" + (block + (")(4:hash4:sha120:" + (hash + "))")));
    forall t: string ensures Plaintext(block, hash, t) == a + t {
      Join(hash, "))", t);
      Join(")(4:hash4:sha120:", hash + "))", t);
      Join(block, ")(4:hash4:sha120:" + (hash + "))"), t);
      Join("((", block + (")(4:hash4:sha120:" + (hash + "))")), t);
    }
    assert (a + pad)[..n] == a + pad[..n - |a|];
  }

  lemma Accepted(lib: Lib, passphrase: string, p: Protection, out: string, rest: string)
    requires Lawful(lib) && Canonical(out, rest) && |rest| <= 16 && |rest| + 4 <= |out| && |out| % 16 == 0 && |p.data| == |out|
    requires lib.decrypt(SessionKey(lib, p.salt, p.count, passphrase), p.iv, p.data) == out
    ensures Decrypted(lib, passphrase, p) == Ok(out)
  {
  }

  lemma Deciphered(lib: Lib, key: string, iv: string, data: string)
    requires Lawful(lib) && |data| % 16 == 0
    ensures |lib.encrypt(key, iv, data)| == |data| && lib.decrypt(key, iv, lib.encrypt(key, iv, data)) == data
  {
  }

  /** Decrypting gives back the cleartext with a part of the padding, and neither the quick
      check nor the padding-length test rejects it. */
  lemma DecryptedBack(lib: Lib, nonce: Nonce, count: nat, passphrase: string, sec: seq<Param>, hash: string) returns (pad: string)
    requires Lawful(lib) && NonceOk(nonce) && SolidPairs(sec) && |hash| == 20
    ensures var data := Encrypted(lib, nonce, count, passphrase, Pairs(sec, ""), hash);
            && data != ""
            && Decrypted(lib, passphrase, Protection(nonce.salt, count, nonce.iv, data)) == Ok(Cleartext(sec, hash, pad))
  {
    var block := Pairs(sec, "");
    var n := EncLen(|block|);
    PaddingFits(block, hash, nonce.pad);
    pad := nonce.pad[..n - (|block| + 41)];
    PlaintextText(sec, hash, pad);
    CleartextIsCanonical(sec, hash, pad);
    var out := Cleartext(sec, hash, pad);
    assert |out| == n;
    Deciphered(lib, SessionKey(lib, nonce.salt, count, passphrase), nonce.iv, out);
    var data := Encrypted(lib, nonce, count, passphrase, block, hash);
    Accepted(lib, passphrase, Protection(nonce.salt, count, nonce.iv, data), out, pad);
  }

  lemma MicRead(hash: string, tail: string)
    requires |hash| == 20
    ensures ParseMic(MicList(hash, tail)) == Some(hash)
  {
    var s1 := Net(hash, ")" + tail);
    Opened(Net("hash", Net("sha1", s1)));
    TokenMatches("hash", Net("sha1", s1));
    TokenMatches("sha1", s1);
    NetParts(hash, ")" + tail);
    Opened(tail);
  }

  lemma ProtectedIsCanonical(k: Key, p: Protection, at: string)
    requires |p.salt| == 8 && |p.iv| == 16 && p.data != "" && |at| == 15
    requires k.algo != "" && SolidPairs(k.pub) && SolidAll(k.rest)
    ensures Canonical(ProtectedText(k, p, at), "")
  {
    var end := EndText(k, "");
    var stamp := Pair(Stamp(at), end);
    var inner := Protected(p.salt, p.count, p.iv, p.data, ")" + stamp);
    var list := ProtectedList(p.salt, p.count, p.iv, p.data, stamp);
    ListText(p.salt, p.count, p.iv, p.data, stamp);
    Opened(Net("protected-private-key", AlgoText(k.algo, k.pub, list)));
    SkipNet("protected-private-key", AlgoText(k.algo, k.pub, list), 1, true);
    SkipOpen(Net(k.algo, Pairs(k.pub, list)), 1, true);
    SkipNet(k.algo, Pairs(k.pub, list), 2, true);
    SkipAllPairs(k.pub, list, 2, true);
    SkipOpen(Net("protected", inner), 2, true);
    SkipNet("protected", inner, 3, true);
    SkipProtected(p, stamp, 3, true);
    SkipPair(Stamp(at), end, 2, true);
    EndSkipped(k, "");
  }

  lemma KeyIsCanonical(k: Key)
    requires k.algo != "" && SolidPairs(k.pub + k.sec) && SolidAll(k.rest)
    ensures Canonical(KeyText(k, ""), "")
  {
    var ps, end := k.pub + k.sec, EndText(k, "");
    Opened(Net("private-key", AlgoText(k.algo, ps, end)));
    SkipNet("private-key", AlgoText(k.algo, ps, end), 1, true);
    SkipOpen(Net(k.algo, Pairs(ps, end)), 1, true);
    SkipNet(k.algo, Pairs(ps, end), 2, true);
    SkipAllPairs(ps, end, 2, true);
    EndSkipped(k, "");
  }

  /** The merged list up to the time stamp. */
  function Front(k: Key): string { "(11:private-key" + (AlgoText(k.algo, k.pub, "") + Pairs(k.sec, "")) }

  lemma PrivateHead(list: string)
    ensures "(11:private-key" + list == "(" + Net("private-key", list)
  {
    assert Decimal(11) == "11";
    NetIs("private-key", "11", list);
    assert "(" + ("11" + (":" + "private-key")) == "(11:private-key";
    Join("(", "11" + (":" + "private-key"), list);
  }

  lemma FrontText(k: Key, tail: string)
    ensures Front(k) + tail == "(" + Net("private-key", AlgoText(k.algo, k.pub + k.sec, tail))
  {
    var a, b := AlgoText(k.algo, k.pub, ""), Pairs(k.sec, "");
    Join("(11:private-key", a + b, tail);
    Join(a, b, tail);
    PairsBetween(k.sec, tail);
    AlgoBetween(k.algo, k.pub, Pairs(k.sec, tail));
    PairsSplit(k.pub, k.sec, tail);
    PrivateHead(a + (b + tail));
  }

  /** The merged list is the clear key with the time stamp as one more parameter. */
  function StampedKey(k: Key, at: string): string {
    "(" + Net("private-key", AlgoText(k.algo, k.pub + k.sec + [Stamp(at)], EndText(k, "")))
  }

  lemma StampedText(k: Key, at: string)
    ensures Front(k) + Pair(Stamp(at), EndText(k, "")) == StampedKey(k, at)
  {
    FrontText(k, Pair(Stamp(at), EndText(k, "")));
    StampLast(k.pub + k.sec, at, EndText(k, ""));
  }

  lemma MicOfStamped(lib: Lib, k: Key, at: string)
    requires k.algo != "" && SolidPairs(k.pub + k.sec) && at != ""
    ensures Mic(lib, StampedKey(k, at)) == Ok(lib.sha1(MicText(k, at)))
  {
    var ps, end := k.pub + k.sec + [Stamp(at)], EndText(k, "");
    var list := AlgoText(k.algo, ps, end);
    AlgoReads(k.algo, ps, end);
    TokenRead("private-key", list);
    var more := TextAll(k.rest, ")" + "");
    Opened(more);
    SkipPairsStops(ps, end);
    MicBetween(k.algo, ps, more);
  }

  lemma MicBetween(algo: string, ps: seq<Param>, more: string)
    ensures Between(AlgoText(algo, ps, ")" + more), more) == AlgoText(algo, ps, ")")
  {
    AlgoAppend(algo, ps, ")", more);
    BetweenJoined(AlgoText(algo, ps, ")"), more);
  }

  lemma KeyFront(k: Key, begin: string)
    ensures var key := "(" + Net("protected-private-key", AlgoText(k.algo, k.pub, begin));
            |Between(key, begin)| >= 26 && Between(Drop(key, 25), begin) == AlgoText(k.algo, k.pub, "")
  {
    var list := AlgoText(k.algo, k.pub, begin);
    AlgoBetween(k.algo, k.pub, begin);
    ProtectedHead(list);
    Join("(21:protected-", "private-key", list);
    var head := "(21:protected-" + "private-key";
    assert |head| == 25 && (head + list)[25..] == list;
    Join(head, AlgoText(k.algo, k.pub, ""), begin);
    BetweenJoined(head + AlgoText(k.algo, k.pub, ""), begin);
  }

  /** Where the protected list stands. */
  function Begin(k: Key, p: Protection, at: string): string {
    "(" + Net("protected", Protected(p.salt, p.count, p.iv, p.data, ")" + Pair(Stamp(at), EndText(k, ""))))
  }

  /** What merge_lists should return. */
  function MergedKey(k: Key, at: string, hash: string): Merged {
    Merged(Front(k) + Pair(Stamp(at), EndText(k, "")), hash, |Front(k)|, 35)
  }

  lemma CutFound(at: string, tail: string)
    requires |at| == 15
    ensures CutLength(Pair(Stamp(at), tail)) == Some(35)
  {
    var t := Pair(Stamp(at), tail);
    PairReads(Stamp(at), tail);
    TokenMatches("protected-at", Net(at, ")" + tail));
    SkipNet(at, ")" + tail, 1, false);
    SkipClose(tail, 1, false);
    TimestampText(at, tail);
    BetweenJoined(Timestamp(at), tail);
  }

  lemma RestMerged(front: string, hash: string, k: Key, p: Protection, at: string)
    requires |p.salt| == 8 && |p.iv| == 16 && p.data != "" && |at| == 15 && SolidAll(k.rest)
    ensures MergeRest(front, hash, Begin(k, p, at)) == Ok(Merged(front + Pair(Stamp(at), EndText(k, "")), hash, |front|, 35))
  {
    var t := Pair(Stamp(at), EndText(k, ""));
    var inner := Protected(p.salt, p.count, p.iv, p.data, ")" + t);
    Opened(Net("protected", inner));
    SkipNet("protected", inner, 1, false);
    SkipProtected(p, t, 1, false);
    CutFound(at, EndText(k, ""));
    SkipPair(Stamp(at), EndText(k, ""), 2, false);
    EndSkipped(k, "");
    assert Between(t, "") == t;
  }

  lemma CleartextRead(sec: seq<Param>, hash: string, pad: string)
    requires SolidPairs(sec) && |hash| == 20
    ensures var clear, end := Cleartext(sec, hash, pad), ")" + MicList(hash, ")" + pad);
            && At(clear) == '(' && Drop(clear, 2) == Pairs(sec, end)
            && SkipPairs(Pairs(sec, end)) == Some(end) && At(end) == ')'
            && ParseMic(Drop(end, 1)) == Some(hash) && Between(Pairs(sec, end), end) == Pairs(sec, "")
  {
    var mic := MicList(hash, ")" + pad);
    var body := Pairs(sec, ")" + mic);
    assert ("(" + ("(" + body))[2..] == body;
    Opened(mic);
    SkipPairsStops(sec, ")" + mic);
    MicRead(hash, ")" + pad);
    PairsBetween(sec, ")" + mic);
  }

  /** gcry_sexp_canon_len is right for the texts it is asked about. */
  predicate Measured(lib: Lib, k: Key, p: Protection, at: string, hash: string, pad: string) {
    && lib.canonLen(ProtectedText(k, p, at)) == |ProtectedText(k, p, at)| > 0
    && lib.canonLen(Cleartext(k.sec, hash, pad)) == |Cleartext(k.sec, hash, pad)| - |pad| > 0
    && lib.canonLen(KeyText(k, "")) == |KeyText(k, "")|
  }

  lemma LengthsMeasured(lib: Lib, k: Key, p: Protection, at: string, hash: string, pad: string)
    requires Lawful(lib) && |p.salt| == 8 && |p.iv| == 16 && p.data != "" && |at| == 15 && hash != ""
    requires k.algo != "" && SolidPairs(k.pub) && SolidPairs(k.sec) && SolidAll(k.rest)
    ensures Measured(lib, k, p, at, hash, pad)
  {
    ProtectedIsCanonical(k, p, at);
    CleartextIsCanonical(k.sec, hash, pad);
    KeyIsCanonical(k);
    LengthKnown(lib, ProtectedText(k, p, at), "");
    LengthKnown(lib, Cleartext(k.sec, hash, pad), pad);
    LengthKnown(lib, KeyText(k, ""), "");
  }

  lemma LengthKnown(lib: Lib, s: string, rest: string)
    requires Lawful(lib) && Canonical(s, rest)
    ensures lib.canonLen(s) == |s| - |rest| > 0
  {
  }

  lemma KeyParts(k: Key, p: Protection, at: string)
    requires |p.salt| == 8 && |p.iv| == 16
    ensures ProtectedText(k, p, at) == "(" + Net("protected-private-key", AlgoText(k.algo, k.pub, Begin(k, p, at)))
    ensures |Between(ProtectedText(k, p, at), Begin(k, p, at))| >= 26
    ensures Between(Drop(ProtectedText(k, p, at), 25), Begin(k, p, at)) == AlgoText(k.algo, k.pub, "")
  {
    ListText(p.salt, p.count, p.iv, p.data, Pair(Stamp(at), EndText(k, "")));
    KeyFront(k, Begin(k, p, at));
  }

  lemma MergedBack(lib: Lib, k: Key, p: Protection, at: string, hash: string, pad: string)
    requires Measured(lib, k, p, at, hash, pad)
    requires |p.salt| == 8 && |p.iv| == 16 && p.data != "" && |at| == 15 && |hash| == 20
    requires SolidPairs(k.sec) && SolidAll(k.rest)
    ensures Merge(lib, ProtectedText(k, p, at), Begin(k, p, at), Cleartext(k.sec, hash, pad)) == Ok(MergedKey(k, at, hash))
  {
    var end := ")" + MicList(hash, ")" + pad);
    var front := "(11:private-key" + (Between(Drop(ProtectedText(k, p, at), 25), Begin(k, p, at)) + Between(Pairs(k.sec, end), end));
    KeyParts(k, p, at);
    CleartextRead(k.sec, hash, pad);
    MergeIs(lib, ProtectedText(k, p, at), Begin(k, p, at), Cleartext(k.sec, hash, pad), Pairs(k.sec, end), end, hash);
    assert front == Front(k);
    RestMerged(front, hash, k, p, at);
  }

  /** The buffer for the merged list, as long as the two lists together, is large enough. */
  lemma MergedFits(lib: Lib, k: Key, p: Protection, at: string, hash: string, pad: string)
    requires Measured(lib, k, p, at, hash, pad) && |p.salt| == 8 && |p.iv| == 16
    ensures |MergedKey(k, at, hash).list| <= lib.canonLen(ProtectedText(k, p, at)) + lib.canonLen(Cleartext(k.sec, hash, pad))
  {
    var list := ProtectedList(p.salt, p.count, p.iv, p.data, Pair(Stamp(at), EndText(k, "")));
    var t := Pair(Stamp(at), EndText(k, ""));
    AlgoBetween(k.algo, k.pub, list);
    ListAppend(p.salt, p.count, p.iv, p.data, t);
    ProtectedHead(AlgoText(k.algo, k.pub, list));
    PairsBetween(k.sec, ")" + MicList(hash, ")" + pad));
    MicLonger(hash, pad);
  }

  lemma MicLonger(hash: string, pad: string)
    ensures |MicList(hash, ")" + pad)| >= |pad|
  {
  }

  lemma MergeIs(lib: Lib, key: string, begin: string, clear: string, start: string, end: string, hash: string)
    requires |Between(key, begin)| >= 26 && lib.canonLen(key) > 0 && lib.canonLen(clear) > 0
    requires At(clear) == '(' && Drop(clear, 2) == start && SkipPairs(start) == Some(end) && At(end) == ')'
    requires ParseMic(Drop(end, 1)) == Some(hash)
    ensures Merge(lib, key, begin, clear) ==
              MergeRest("(11:private-key" + (Between(Drop(key, 25), begin) + Between(start, end)), hash, begin)
  {
  }

  lemma Finished(lib: Lib, k: Key, at: string)
    requires lib.canonLen(KeyText(k, "")) == |KeyText(k, "")|
    requires k.algo != "" && SolidPairs(k.pub + k.sec) && |at| == 15
    ensures var m := MergedKey(k, at, lib.sha1(MicText(k, at))); Finish(lib, m, Mic(lib, m.list)) == Ok(KeyText(k, ""))
  {
    StampedText(k, at);
    MicOfStamped(lib, k, at);
    TimestampText(at, EndText(k, ""));
    FrontText(k, EndText(k, ""));
    FinishIs(lib, Front(k), Timestamp(at), EndText(k, ""), Pair(Stamp(at), EndText(k, "")),
             lib.sha1(MicText(k, at)), KeyText(k, ""));
  }

  lemma FinishIs(lib: Lib, front: string, stamp: string, end: string, both: string, hash: string, key: string)
    requires both == stamp + end && |stamp| > 0
    requires key == front + end && lib.canonLen(key) == |key|
    ensures Finish(lib, Merged(front + both, hash, |front|, |stamp|), Ok(hash)) == Ok(key)
  {
    CutOut(front, stamp, end, both);
    TakeAll(key);
  }

  lemma TakeAll(s: string)
    ensures Take(s, |s|) == s
  {
  }

  lemma CutOut(front: string, stamp: string, end: string, both: string)
    requires both == stamp + end
    ensures Take(front + both, |front|) + Drop(front + both, |front| + |stamp|) == front + end
  {
    assert (front + both)[..|front|] == front && (front + both)[|front| + |stamp|..] == end;
  }

  lemma ListsFound(k: Key, info: Info, p: Protection, at: string)
    requires |p.salt| == 8 && |p.iv| == 16 && p.data != "" && |at| == 15
    requires info in Table && Fits(k, info) && SolidPairs(k.pub)
    ensures var head := ReadHead(ProtectedText(k, p, at), "protected-private-key");
            head.Ok? && head.value.2 == Pairs(k.pub, Begin(k, p, at))
    ensures FindTimestamp(Pairs(k.pub, Begin(k, p, at))) == Ok(Some(at))
    ensures FindProtected(Pairs(k.pub, Begin(k, p, at))) ==
              Ok((Begin(k, p, at), Protected(p.salt, p.count, p.iv, p.data, ")" + Pair(Stamp(at), EndText(k, "")))))
  {
    var t := Pair(Stamp(at), EndText(k, ""));
    ListText(p.salt, p.count, p.iv, p.data, t);
    HeadRead("protected-private-key", info, k.pub, Begin(k, p, at));
    PublicNames(k, info);
    PastPublic(k.pub, Begin(k, p, at));
    TimestampBehind(p, at, EndText(k, ""));
    ListFound(Protected(p.salt, p.count, p.iv, p.data, ")" + t));
  }

  lemma UnprotectIs(lib: Lib, passphrase: string, key: string, lists: string, begin: string, s: string, p: Protection,
                    clear: string, m: Merged, result: string)
    requires FindProtected(lists) == Ok((begin, s)) && ParseProtection(s) == Ok(p)
    requires Decrypted(lib, passphrase, p) == Ok(clear) && Merge(lib, key, begin, clear) == Ok(m) && Finish(lib, m, Mic(lib, m.list)) == Ok(result)
    ensures UnprotectLists(lib, passphrase, key, lists) == Ok(result)
  {
  }

  lemma ReadBack(k: Key, info: Info, p: Protection, at: string) returns (s: string)
    requires |p.salt| == 8 && p.count >= 65536 && |p.iv| == 16 && p.data != "" && |at| == 15
    requires info in Table && Fits(k, info) && SolidPairs(k.pub)
    ensures FindProtected(Pairs(k.pub, Begin(k, p, at))) == Ok((Begin(k, p, at), s)) && ParseProtection(s) == Ok(p)
  {
    s := Protected(p.salt, p.count, p.iv, p.data, ")" + Pair(Stamp(at), EndText(k, "")));
    ListsFound(k, info, p, at);
    ProtectionRead(p, ")" + Pair(Stamp(at), EndText(k, "")));
  }

  lemma UnprotectedBack(lib: Lib, passphrase: string, k: Key, p: Protection, at: string, hash: string, pad: string, lists: string, s: string)
    requires |p.salt| == 8 && |p.iv| == 16 && p.data != "" && |at| == 15
    requires k.algo != "" && SolidPairs(k.pub + k.sec) && SolidPairs(k.sec) && SolidAll(k.rest)
    requires hash == lib.sha1(MicText(k, at)) && |hash| == 20 && Measured(lib, k, p, at, hash, pad)
    requires FindProtected(lists) == Ok((Begin(k, p, at), s)) && ParseProtection(s) == Ok(p)
    requires Decrypted(lib, passphrase, p) == Ok(Cleartext(k.sec, hash, pad))
    ensures UnprotectLists(lib, passphrase, ProtectedText(k, p, at), lists) == Ok(KeyText(k, ""))
  {
    MergedBack(lib, k, p, at, hash, pad);
    Finished(lib, k, at);
    UnprotectIs(lib, passphrase, ProtectedText(k, p, at), lists, Begin(k, p, at), s, p,
                Cleartext(k.sec, hash, pad), MergedKey(k, at, hash), KeyText(k, ""));
  }

  /** For every well-formed clear key of a listed algorithm, whatever follows it in memory,
      agent_unprotect with the same passphrase gives back the original bytes, and the time
      stamp that was put in. */
  lemma RoundTrip(lib: Lib, nonce: Nonce, count: nat, at: string, passphrase: string, k: Key, junk: string, wanted: bool)
    requires Lawful(lib) && NonceOk(nonce) && count >= 65536 && |at| == 15 && WellFormed(k)
    ensures var r := Protect(lib, nonce, count, at, passphrase, KeyText(k, junk));
            && r.Ok?
            && Unprotect(lib, passphrase, r.value, wanted) == Ok((KeyText(k, ""), if wanted then Some(at) else None))
  {
    var j :| 0 <= j < |Table| && Fits(k, Table[j]);
    ProtectResult(lib, nonce, count, at, passphrase, k, Table[j], junk);
    var p, hash := Sealed(lib, nonce, count, at, passphrase, k), lib.sha1(MicText(k, at));
    var pad := DecryptedBack(lib, nonce, count, passphrase, k.sec, hash);
    ProtectedAreLast(Table[j]);
    LengthsMeasured(lib, k, p, at, hash, pad);
    ListsFound(k, Table[j], p, at);
    var s := ReadBack(k, Table[j], p, at);
    UnprotectedBack(lib, passphrase, k, p, at, hash, pad, Pairs(k.pub, Begin(k, p, at)), s);
  }

  function Cut(m: Merged): string {
    if m.cutlen == 0 then m.list else Take(m.list, m.cutoff) + Drop(m.list, m.cutoff + m.cutlen)
  }

  /** What agent_unprotect comes across on its way through a protected key. */
  datatype Way = Way(lists: string, begin: string, s: string, p: Protection, cleartext: string, end: string, m: Merged)

  /** The way leads from the text of the key through its protected list and the decrypted
      cleartext to the merged list and the integrity code that stands in the cleartext. */
  predicate Leads(lib: Lib, passphrase: string, key: string, w: Way) {
    && ReadHead(key, "protected-private-key").Ok? && ReadHead(key, "protected-private-key").value.2 == w.lists
    && FindProtected(w.lists) == Ok((w.begin, w.s)) && ParseProtection(w.s) == Ok(w.p)
    && Decrypted(lib, passphrase, w.p) == Ok(w.cleartext)
    && Merge(lib, key, w.begin, w.cleartext) == Ok(w.m)
    && SkipPairs(Drop(w.cleartext, 2)) == Some(w.end) && ParseMic(Drop(w.end, 1)) == Some(w.m.hash)
  }

  lemma FinishChecks(lib: Lib, m: Merged, mic: Outcome<string>)
    ensures Finish(lib, m, mic).Ok? <==> mic == Ok(m.hash)
    ensures Finish(lib, m, mic).Ok? ==> Finish(lib, m, mic).value == Take(Cut(m), lib.canonLen(Cut(m)))
  {
  }

  lemma MergeTakesMic(lib: Lib, key: string, begin: string, cleartext: string) returns (end: string)
    requires Merge(lib, key, begin, cleartext).Ok?
    ensures SkipPairs(Drop(cleartext, 2)) == Some(end)
    ensures ParseMic(Drop(end, 1)) == Some(Merge(lib, key, begin, cleartext).value.hash)
  {
    end := SkipPairs(Drop(cleartext, 2)).value;
  }

  lemma ListsChecked(lib: Lib, passphrase: string, key: string, lists: string)
      returns (begin: string, s: string, p: Protection, cleartext: string, m: Merged)
    requires UnprotectLists(lib, passphrase, key, lists).Ok?
    ensures FindProtected(lists) == Ok((begin, s)) && ParseProtection(s) == Ok(p)
    ensures Decrypted(lib, passphrase, p) == Ok(cleartext) && Merge(lib, key, begin, cleartext) == Ok(m)
    ensures Finish(lib, m, Mic(lib, m.list)) == UnprotectLists(lib, passphrase, key, lists)
  {
    begin, s := FindProtected(lists).value.0, FindProtected(lists).value.1;
    p := ParseProtection(s).value;
    cleartext := Decrypted(lib, passphrase, p).value;
    m := Merge(lib, key, begin, cleartext).value;
  }

  /** Whatever it is given, agent_unprotect returns a key only if the integrity code that stands
      in the decrypted cleartext is the one recomputed over the merged list, and the key is that
      list without the time stamp. */
  lemma OnlyChecked(lib: Lib, passphrase: string, key: string, wanted: bool) returns (w: Way)
    requires Unprotect(lib, passphrase, key, wanted).Ok?
    ensures Leads(lib, passphrase, key, w) && Mic(lib, w.m.list) == Ok(w.m.hash)
    ensures Unprotect(lib, passphrase, key, wanted).value.0 == Take(Cut(w.m), lib.canonLen(Cut(w.m)))
  {
    var lists := ReadHead(key, "protected-private-key").value.2;
    var begin, s, p, cleartext, m := ListsChecked(lib, passphrase, key, lists);
    var end := MergeTakesMic(lib, key, begin, cleartext);
    FinishChecks(lib, m, Mic(lib, m.list));
    w := Way(lists, begin, s, p, cleartext, end, m);
  }

  /** And once it has come that far, the comparison of the two codes alone decides. */
  lemma CheckDecides(lib: Lib, passphrase: string, key: string, w: Way)
    requires Leads(lib, passphrase, key, w)
    ensures Unprotect(lib, passphrase, key, false).Ok? <==> Mic(lib, w.m.list) == Ok(w.m.hash)
    ensures Mic(lib, w.m.list).Ok? && Mic(lib, w.m.list).value != w.m.hash ==>
              Unprotect(lib, passphrase, key, false) == Err(CorruptedProtection)
  {
    FinishChecks(lib, w.m, Mic(lib, w.m.list));
    ListsDecided(lib, passphrase, key, w);
  }

  lemma ListsDecided(lib: Lib, passphrase: string, key: string, w: Way)
    requires Leads(lib, passphrase, key, w)
    ensures UnprotectLists(lib, passphrase, key, w.lists) == Finish(lib, w.m, Mic(lib, w.m.list))
  {
  }

  // ---------------------------------------------------------------------------------
  // The assumptions can be met.

  /** The length of the first list, where there is one. */
  function ListLength(s: string): nat {
    if At(s) == '(' && Skip(Drop(s, 1), 1, true).Some? then |s| - |Skip(Drop(s, 1), 1, true).value| else 0
  }

  /** A cipher that does nothing and a hash that is always the same. */
  function PlainLib(): Lib {
    Lib((key, iv, data) => data, (key, iv, data) => data, data => seq(20, i => '#'), s => ListLength(s))
  }

  lemma LawsAreConsistent()
    ensures Lawful(PlainLib())
  {
    var lib := PlainLib();
    forall s, rest | Canonical(s, rest) ensures lib.canonLen(s) == |s| - |rest| {
      assert lib.canonLen(s) == ListLength(s);
    }
    assert forall data :: lib.sha1(data) == seq(20, i => '#');
  }

  /** A key of the curve variant with a comment. */
  const SampleKey: Key :=
    Key("ecc", [Param("curve", "P-256"), Param("q", "1")], [Param("d", "2")], [List([Atom("comment"), Atom("main key")])])

  lemma SampleIsWellFormed()
    ensures WellFormed(SampleKey)
  {
    var k := SampleKey;
    var all := k.pub + k.sec;
    assert all[0].name == "curve" && all[1].name == "q" && all[2].name == "d";
    assert Fits(k, Table[5]);
    SolidOne(Atom("main key"));
    SolidMore(Atom("comment"), [Atom("main key")]);
    assert [Atom("comment")] + [Atom("main key")] == [Atom("comment"), Atom("main key")];
    SolidOne(List([Atom("comment"), Atom("main key")]));
  }

  lemma SolidMore(x: Sexp, items: seq<Sexp>)
    requires Solid(x) && SolidAll(items)
    ensures SolidAll([x] + items)
  {
    assert ([x] + items)[0] == x && ([x] + items)[1..] == items;
  }

  lemma SolidOne(x: Sexp)
    requires Solid(x)
    ensures SolidAll([x])
  {
    assert [x] + [] == [x];
    SolidMore(x, []);
  }
}
