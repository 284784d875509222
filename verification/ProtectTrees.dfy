/** agent_protect and agent_unprotect on any canonical S-expression, well-formed as a key or not. */
module ProtectTrees {
  import opened Wrappers
  import opened Decimals
  import opened CanonicalSexp
  import opened KeyProtection
  import opened ProtectRoundTrip
  import opened ProtectFormat

  // ---------------------------------------------------------------------------------
  // What stands at the start of a text.

  lemma NoAtom(s: string)
    requires s == "" || !IsDigit(s[0])
    ensures Snext(s) == (0, s)
  {
  }

  /** The items of a list and its end: what is seen first. */
  lemma Seen(items: seq<Sexp>, tail: string)
    requires SolidAll(items)
    ensures At(TextAll(items, ")" + tail)) == '(' <==> items != [] && items[0].List?
    ensures At(TextAll(items, ")" + tail)) == ')' <==> items == []
    ensures items != [] && items[0].Atom? ==>
              Snext(TextAll(items, ")" + tail)) == (|items[0].data|, items[0].data + TextAll(items[1..], ")" + tail))
    ensures items == [] || items[0].List? ==> Snext(TextAll(items, ")" + tail)) == (0, TextAll(items, ")" + tail))
  {
    Opened(tail);
    if items == [] {
      NoAtom(")" + tail);
    } else {
      match items[0]
      case Atom(data) => NetParts(data, TextAll(items[1..], ")" + tail));
      case List(inner) =>
        var s := "(" + TextAll(inner, ")" + TextAll(items[1..], ")" + tail));
        Opened(TextAll(inner, ")" + TextAll(items[1..], ")" + tail)));
        NoAtom(s);
    }
  }

  lemma SolidRest(items: seq<Sexp>)
    requires SolidAll(items) && items != []
    ensures SolidAll(items[1..]) && Solid(items[0])
    ensures items[0].Atom? ==> items[0].data != ""
    ensures items[0].List? ==> SolidAll(items[0].items)
  {
  }

  /** The first atom of a list, behind what opens it. */
  lemma Behind1(data: string, rest: string)
    ensures Drop(data + rest, |data|) == rest && Take(data + rest, |data|) == data
  {
  }

  // ---------------------------------------------------------------------------------
  // The protected list.

  /** The digits that an atom starts with. */
  function Leading(data: string): nat { Value(data[..DigitsLength(data)]) }

  function SaltVerdict(m: seq<Sexp>): Outcome<string> {
    if m == [] || m[0].List? then Err(InvSexp)
    else if m[0].data != "sha1" then Err(UnsupportedProtection)
    else if |m| == 1 || m[1].List? || |m[1].data| != 8 then Err(CorruptedProtection)
    else Ok(m[1].data)
  }

  function CountVerdict(m: seq<Sexp>): Outcome<nat> {
    if m == [] || m[0].List? then Err(CorruptedProtection)
    else if |m| != 1 then Err(InvSexp)
    else if !CountAccepted(Leading(m[0].data)) then Err(CorruptedProtection)
    else Ok(CountMeant(Leading(m[0].data)))
  }

  /** The vector, and the data behind the list that it is in. */
  function DataVerdict(l: seq<Sexp>, items: seq<Sexp>): Outcome<(string, string)> {
    if l == [] || l[0].List? || |l[0].data| != 16 then Err(CorruptedProtection)
    else if |l| != 1 then Err(InvSexp)
    else if items == [] || items[0].List? then Err(InvSexp)
    else Ok((l[0].data, items[0].data))
  }

  /** Mode, then a list that starts with a list. */
  function ModeVerdict(items: seq<Sexp>): Outcome<()> {
    if items == [] || items[0].List? then Err(InvSexp)
    else if items[0].data != "openpgp-s2k3-sha1-aes-cbc" then Err(UnsupportedProtection)
    else if |items| == 1 || items[1].Atom? || items[1].items == [] || items[1].items[0].Atom? then Err(InvSexp)
    else Ok(())
  }

  /** The verdict on what stands in a protected list, whatever that is. */
  function TreeVerdict(items: seq<Sexp>): Outcome<Protection> {
    if ModeVerdict(items).Err? then Err(ModeVerdict(items).error)
    else ListVerdict(items[1].items[0].items, items[1].items[1..], items[2..])
  }

  /** The innermost list, what follows it in its list, and what follows that. */
  function ListVerdict(m: seq<Sexp>, l: seq<Sexp>, items: seq<Sexp>): Outcome<Protection> {
    if SaltVerdict(m).Err? then Err(SaltVerdict(m).error)
    else if CountVerdict(m[2..]).Err? then Err(CountVerdict(m[2..]).error)
    else if DataVerdict(l, items).Err? then Err(DataVerdict(l, items).error)
    else Ok(Protection(m[1].data, CountVerdict(m[2..]).value, DataVerdict(l, items).value.0, DataVerdict(l, items).value.1))
  }

  lemma SaltTree(m: seq<Sexp>, tail: string)
    requires SolidAll(m)
    ensures ParseSalt(TextAll(m, ")" + tail)) ==
              if SaltVerdict(m).Err? then Err(SaltVerdict(m).error) else Ok((m[1].data, TextAll(m[2..], ")" + tail)))
  {
    Seen(m, tail);
    if m != [] && m[0].Atom? {
      var s := TextAll(m[1..], ")" + tail);
      SolidRest(m);
      if m[0].data == "sha1" {
        TokenMatches("sha1", s);
        Seen(m[1..], tail);
        if |m| > 1 && m[1].Atom? {
          assert m[1..][1..] == m[2..];
          Behind1(m[1].data, TextAll(m[2..], ")" + tail));
        }
      } else {
        OtherName(m[0].data, s, "sha1");
      }
    }
  }

  lemma {:induction false} DigitsOf(data: string, rest: string)
    requires rest == "" || !IsDigit(rest[0])
    ensures DigitsLength(data + rest) == DigitsLength(data)
  {
    if data == "" {
      assert data + rest == rest;
    } else {
      assert (data + rest)[1..] == data[1..] + rest;
      DigitsOf(data[1..], rest);
    }
  }

  lemma LeadingRead(data: string, tail: string)
    ensures Strtoul(data + (")" + tail)) == Leading(data)
  {
    DigitsOf(data, ")" + tail);
    assert (data + (")" + tail))[..DigitsLength(data)] == data[..DigitsLength(data)];
  }

  lemma CountTree(m: seq<Sexp>, tail: string)
    requires SolidAll(m)
    ensures ParseCount(TextAll(m, ")" + tail)) ==
              if CountVerdict(m).Err? then Err(CountVerdict(m).error) else Ok((CountVerdict(m).value, tail))
  {
    Seen(m, tail);
    if m != [] && m[0].Atom? {
      var data, s := m[0].data, TextAll(m[1..], ")" + tail);
      SolidRest(m);
      Behind1(data, s);
      Seen(m[1..], tail);
      if |m| == 1 {
        assert m[1..] == [];
        LeadingRead(data, tail);
        CountDecides(Leading(data));
        Opened(tail);
      }
    }
  }

  lemma DataTree(l: seq<Sexp>, items: seq<Sexp>, tail: string)
    requires SolidAll(l) && SolidAll(items)
    ensures ParseData(TextAll(l, ")" + TextAll(items, ")" + tail))) == DataVerdict(l, items)
  {
    var rest := TextAll(items, ")" + tail);
    Seen(l, rest);
    if l != [] && l[0].Atom? {
      var s := TextAll(l[1..], ")" + rest);
      SolidRest(l);
      Behind1(l[0].data, s);
      Seen(l[1..], rest);
      Opened(rest);
      if |l| == 1 {
        assert l[1..] == [];
        Seen(items, tail);
        if items != [] && items[0].Atom? {
          Behind1(items[0].data, TextAll(items[1..], ")" + tail));
        }
      }
    }
  }

  lemma ModeTree(items: seq<Sexp>, tail: string)
    requires SolidAll(items)
    ensures ParseMode(TextAll(items, ")" + tail)) ==
              if ModeVerdict(items).Err? then Err(ModeVerdict(items).error)
              else Ok(TextAll(items[1].items[0].items, ")" + TextAll(items[1].items[1..], ")" + TextAll(items[2..], ")" + tail))))
  {
    Seen(items, tail);
    if items != [] && items[0].Atom? {
      var s := TextAll(items[1..], ")" + tail);
      SolidRest(items);
      if items[0].data != "openpgp-s2k3-sha1-aes-cbc" {
        ModeRefused(items[0].data, s);
      } else {
        TokenMatches(Mode, s);
        ModeLists(items[1..], tail);
      }
    }
  }

  /** The two opening parentheses behind the mode. */
  lemma ModeLists(items: seq<Sexp>, tail: string)
    requires SolidAll(items)
    ensures var s := TextAll(items, ")" + tail); var good := items != [] && items[0].List? && items[0].items != [] && items[0].items[0].List?;
            && (At(s) == '(' && At(Drop(s, 1)) == '(' <==> good)
            && (good ==> Drop(s, 2) == TextAll(items[0].items[0].items, ")" + TextAll(items[0].items[1..], ")" + TextAll(items[1..], ")" + tail))))
  {
    Seen(items, tail);
    if items != [] && items[0].List? {
      var l, rest := items[0].items, TextAll(items[1..], ")" + tail);
      SolidRest(items);
      Seen(l, rest);
      Opened(TextAll(l, ")" + rest));
      if l != [] && l[0].List? {
        var body := TextAll(l[0].items, ")" + TextAll(l[1..], ")" + rest));
        Opened(body);
        assert ("(" + ("(" + body))[2..] == body;
      }
    }
  }

  lemma ListParsed(s: string, m: seq<Sexp>, l: seq<Sexp>, items: seq<Sexp>, tail: string, x: string)
    requires SolidAll(m) && SolidAll(l) && SolidAll(items) && (|m| >= 2 ==> SolidAll(m[2..]))
    requires x == TextAll(l, ")" + TextAll(items, ")" + tail)) && ParseMode(s) == Ok(TextAll(m, ")" + x))
    ensures ParseProtection(s) == ListVerdict(m, l, items)
  {
    SaltTree(m, x);
    if SaltVerdict(m).Ok? {
      CountTree(m[2..], x);
      DataTree(l, items, tail);
    }
  }

  /** So this is the verdict on every protected list. */
  lemma TreeParsed(items: seq<Sexp>, tail: string)
    requires SolidAll(items)
    ensures ParseProtection(TextAll(items, ")" + tail)) == TreeVerdict(items)
  {
    ModeTree(items, tail);
    if ModeVerdict(items).Ok? {
      var l := items[1].items;
      TreeSolid(items);
      ListParsed(TextAll(items, ")" + tail), l[0].items, l[1..], items[2..], tail, TextAll(l[1..], ")" + TextAll(items[2..], ")" + tail)));
    }
  }

  lemma TreeSolid(items: seq<Sexp>)
    requires SolidAll(items) && ModeVerdict(items).Ok?
    ensures var l := items[1].items;
            SolidAll(l[0].items) && SolidAll(l[1..]) && SolidAll(items[2..]) && (|l[0].items| >= 2 ==> SolidAll(l[0].items[2..]))
  {
    SolidRest(items);
    SolidRest(items[1..]);
    assert items[1..][1..] == items[2..];
    var l := items[1].items;
    SolidRest(l);
    var m := l[0].items;
    if |m| >= 2 {
      SolidRest(m);
      SolidRest(m[1..]);
      assert m[1..][1..] == m[2..];
    }
  }

  // ---------------------------------------------------------------------------------
  // The head of a key.

  /** The verdict on the head of a key with this token: the algorithm and what follows it. */
  function HeadVerdict(x: Sexp, token: string): Outcome<(string, seq<Sexp>)> {
    if x.Atom? || x.items == [] || x.items[0].List? then Err(InvSexp)
    else if x.items[0].data != token then Err(UnknownSexp)
    else if |x.items| == 1 || x.items[1].Atom? then Err(UnknownSexp)
    else if x.items[1].items == [] || x.items[1].items[0].List? then Err(InvSexp)
    else if forall j | 0 <= j < |Table| :: Table[j].algo != x.items[1].items[0].data then Err(UnsupportedAlgorithm)
    else Ok((x.items[1].items[0].data, x.items[1].items[1..]))
  }

  lemma TokenTree(items: seq<Sexp>, tail: string, token: string)
    requires SolidAll(items)
    ensures ReadToken("(" + TextAll(items, ")" + tail), token) ==
              if items == [] || items[0].List? then Err(InvSexp)
              else if items[0].data != token || |items| == 1 || items[1].Atom? then Err(UnknownSexp)
              else Ok(TextAll(items[1..], ")" + tail))
  {
    Opened(TextAll(items, ")" + tail));
    Seen(items, tail);
    if items != [] && items[0].Atom? {
      var s := TextAll(items[1..], ")" + tail);
      SolidRest(items);
      Seen(items[1..], tail);
      if items[0].data == token {
        TokenMatches(token, s);
      } else {
        OtherName(items[0].data, s, token);
      }
    }
  }

  lemma NotAList(x: Sexp, tail: string, token: string)
    requires Solid(x) && x.Atom?
    ensures ReadToken(Text(x, tail), token) == Err(InvSexp)
  {
    NetParts(x.data, tail);
  }

  /** The list of the algorithm. */
  lemma AlgoTree(l: seq<Sexp>, rest: string)
    requires SolidAll(l)
    ensures var s := "(" + TextAll(l, ")" + rest); var n := Snext(Drop(s, 1));
            && At(s) == '('
            && (n.0 == 0 <==> l == [] || l[0].List?)
            && (n.0 != 0 ==> n == (|l[0].data|, l[0].data + TextAll(l[1..], ")" + rest)))
  {
    Opened(TextAll(l, ")" + rest));
    Seen(l, rest);
    if l != [] && l[0].Atom? {
      SolidRest(l);
    }
  }

  predicate Listed(algo: string) { exists j :: 0 <= j < |Table| && Table[j].algo == algo }

  lemma InfoTree(algo: string, rest: string) returns (info: Info)
    requires Listed(algo)
    ensures info in Table && info.algo == algo && FindInfo(algo + rest, |algo|, 0) == Some((info, rest))
  {
    var j :| 0 <= j < |Table| && Table[j].algo == algo;
    InfoFound(j, 0, rest);
    info := Table[j];
  }

  lemma HeadIs(key: string, token: string, s: string, n: (nat, string), found: Option<(Info, string)>)
    requires ReadToken(key, token) == Ok(s) && Snext(Drop(s, 1)) == n && (n.0 != 0 ==> FindInfo(n.1, n.0, 0) == found)
    ensures ReadHead(key, token) == if n.0 == 0 then Err(InvSexp) else if found.None? then Err(UnsupportedAlgorithm)
                                    else Ok((s, found.value.0, found.value.1))
  {
  }

  /** The errors of the head. */
  lemma HeadTree(x: Sexp, tail: string, token: string)
    requires Solid(x) && HeadVerdict(x, token).Err?
    ensures ReadHead(Text(x, tail), token) == Err(HeadVerdict(x, token).error)
  {
    if x.Atom? {
      NotAList(x, tail, token);
    } else {
      TokenTree(x.items, tail, token);
      if x.items != [] && x.items[0] == Atom(token) && |x.items| > 1 && x.items[1].List? {
        SolidRest(x.items);
        SolidRest(x.items[1..]);
        AlgoRefused(x.items[1].items, TextAll(x.items[1..][1..], ")" + tail), Text(x, tail), token);
      }
    }
  }

  lemma AlgoRefused(l: seq<Sexp>, rest: string, key: string, token: string)
    requires SolidAll(l) && ReadToken(key, token) == Ok("(" + TextAll(l, ")" + rest))
    requires l == [] || l[0].List? || !Listed(l[0].data)
    ensures ReadHead(key, token) == Err(if l == [] || l[0].List? then InvSexp else UnsupportedAlgorithm)
  {
    var s := "(" + TextAll(l, ")" + rest);
    AlgoTree(l, rest);
    if l != [] && l[0].Atom? {
      NotInTable(l[0].data, TextAll(l[1..], ")" + rest), 0);
    }
    HeadIs(key, token, s, Snext(Drop(s, 1)), None);
  }

  /** What follows the algorithm, where the head is right. */
  lemma HeadOk(x: Sexp, tail: string, token: string) returns (info: Info, s: string, rest: string)
    requires Solid(x) && HeadVerdict(x, token).Ok?
    ensures info in Table && info.algo == HeadVerdict(x, token).value.0 && rest == TextAll(x.items[2..], ")" + tail)
    ensures ReadHead(Text(x, tail), token) == Ok((s, info, TextAll(HeadVerdict(x, token).value.1, ")" + rest)))
    ensures SolidAll(HeadVerdict(x, token).value.1)
  {
    var l := x.items[1].items;
    rest := TextAll(x.items[2..], ")" + tail);
    s := "(" + TextAll(l, ")" + rest);
    SolidRest(x.items);
    SolidRest(x.items[1..]);
    SolidRest(l);
    assert x.items[1..][1..] == x.items[2..];
    TokenTree(x.items, tail, token);
    AlgoTree(l, rest);
    info := InfoTree(l[0].data, TextAll(l[1..], ")" + rest));
    HeadIs(Text(x, tail), token, s, Snext(Drop(s, 1)), Some((info, TextAll(l[1..], ")" + rest))));
  }

  // ---------------------------------------------------------------------------------
  // The parameters of a clear key.

  predicate IsPair(x: Sexp) { x.List? && |x.items| == 2 && x.items[0].Atom? && x.items[1].Atom? }

  function PairName(x: Sexp): string
    requires IsPair(x)
  {
    x.items[0].data
  }

  /** A parameter is read exactly if it is a name and a value, and the name is the right one or that
      of a curve. */
  lemma ParamTree(ecc: bool, c: char, i: nat, ps: seq<Sexp>, rest: string)
    requires SolidAll(ps)
    ensures ReadParam(ecc, c, i, TextAll(ps, ")" + rest)) ==
              if ps != [] && IsPair(ps[0]) && (PairName(ps[0]) == [c] || (ecc && i == 0 && PairName(ps[0]) == "curve"))
              then Ok((PairName(ps[0]) == [c], ")" + TextAll(ps[1..], ")" + rest))) else Err(InvSexp)
  {
    Seen(ps, rest);
    if ps != [] && ps[0].List? {
      SolidRest(ps);
      ParamItems(ecc, c, i, ps[0].items, TextAll(ps[1..], ")" + rest));
    }
  }

  lemma ParamItems(ecc: bool, c: char, i: nat, m: seq<Sexp>, rest: string)
    requires SolidAll(m)
    ensures var good := |m| == 2 && m[0].Atom? && m[1].Atom?;
            ReadParam(ecc, c, i, "(" + TextAll(m, ")" + rest)) ==
              if good && (m[0].data == [c] || (ecc && i == 0 && m[0].data == "curve")) then Ok((m[0].data == [c], ")" + rest)) else Err(InvSexp)
  {
    Opened(TextAll(m, ")" + rest));
    Seen(m, rest);
    if m != [] && m[0].Atom? {
      var s := TextAll(m[1..], ")" + rest);
      SolidRest(m);
      NameSeen(m[0].data, s, c);
      NameRead(m[0].data, s, c);
      Behind1(m[0].data, s);
      ParamValue(m[1..], rest);
    }
  }

  lemma NameRead(name: string, s: string, c: char)
    ensures name == [c] ==> |name| == 1 && At(name + s) == c
    ensures name == "curve" ==> |name| == 5 && Take(name + s, 5) == "curve"
  {
    assert name == "curve" ==> (name + s)[..5] == name;
  }

  /** The value and the end of the parameter. */
  lemma ParamValue(m: seq<Sexp>, rest: string)
    requires SolidAll(m)
    ensures var (n, s) := Snext(TextAll(m, ")" + rest));
            && (n != 0 && At(Drop(s, n)) == ')' <==> |m| == 1 && m[0].Atom?)
            && (|m| == 1 && m[0].Atom? ==> Drop(s, n) == ")" + rest)
  {
    Seen(m, rest);
    if m != [] && m[0].Atom? {
      SolidRest(m);
      Behind1(m[0].data, TextAll(m[1..], ")" + rest));
      Seen(m[1..], rest);
      if |m| == 1 {
        assert m[1..] == [];
      }
    }
  }

  /** The loop has failed, or has not come to the closing parenthesis, or all parameters were right. */
  predicate JudgedTree(r: Outcome<Scan>, ps: seq<Sexp>, parmlist: string, i: nat) {
    && (r.Err? ==> r.error == InvSexp)
    && (r.Ok? && At(r.value.s) == ')' ==>
          |ps| == |parmlist| && forall j | i <= j < |ps| :: IsPair(ps[j]) && PairName(ps[j]) == [parmlist[j]])
  }

  lemma {:induction false} SolidFrom(ps: seq<Sexp>, i: nat)
    requires SolidAll(ps) && i <= |ps|
    ensures SolidAll(ps[i..])
  {
    if i == 0 {
      assert ps[0..] == ps;
    } else {
      SolidRest(ps);
      SolidFrom(ps[1..], i - 1);
      assert ps[1..][i - 1..] == ps[i..];
    }
  }

  /** One pass of the loop. */
  lemma ScanTree(ecc: bool, scan: Scan, ps: seq<Sexp>, rest: string)
    requires SolidAll(ps) && scan.i <= |ps| && scan.i < |scan.parmlist| && scan.s == TextAll(ps[scan.i..], ")" + rest)
    ensures var i := scan.i; var r := ScanParam(ecc, scan);
            if i < |ps| && IsPair(ps[i]) && (PairName(ps[i]) == [scan.parmlist[i]] || (ecc && i == 0 && PairName(ps[i]) == "curve")) then
              && r.Ok? && r.value.i == i + 1 && r.value.s == TextAll(ps[i + 1..], ")" + rest)
              && r.value.parmlist == if PairName(ps[i]) == [scan.parmlist[i]] then scan.parmlist else "?qd"
            else r == Err(InvSexp)
  {
    var i := scan.i;
    SolidFrom(ps, i);
    ParamTree(ecc, scan.parmlist[i], i, ps[i..], rest);
    if i < |ps| {
      assert ps[i..][0] == ps[i] && ps[i..][1..] == ps[i + 1..];
      Opened(TextAll(ps[i + 1..], ")" + rest));
    }
  }

  lemma ScanEnds(ecc: bool, scan: Scan, ps: seq<Sexp>, rest: string)
    requires SolidAll(ps) && scan.i <= |ps| && scan.i == |scan.parmlist| && scan.s == TextAll(ps[scan.i..], ")" + rest)
    ensures JudgedTree(ScanParams(ecc, scan), ps, scan.parmlist, scan.i)
  {
    SolidFrom(ps, scan.i);
    Seen(ps[scan.i..], rest);
  }

  lemma OneRightTree(ecc: bool, scan: Scan, next: Scan, ps: seq<Sexp>)
    requires scan.i < |scan.parmlist| && scan.i < |ps| && IsPair(ps[scan.i]) && PairName(ps[scan.i]) == [scan.parmlist[scan.i]]
    requires ScanParam(ecc, scan) == Ok(next) && JudgedTree(ScanParams(ecc, next), ps, scan.parmlist, scan.i + 1)
    ensures JudgedTree(ScanParams(ecc, scan), ps, scan.parmlist, scan.i)
  {
    assert ScanParams(ecc, scan) == ScanParams(ecc, next);
  }

  lemma {:induction false} ScanJudged(ecc: bool, scan: Scan, ps: seq<Sexp>, rest: string)
    requires SolidAll(ps) && scan.i <= |ps| && scan.i <= |scan.parmlist| && scan.s == TextAll(ps[scan.i..], ")" + rest)
    requires ecc && scan.i == 0 && ps != [] && IsPair(ps[0]) ==> PairName(ps[0]) != "curve"
    ensures JudgedTree(ScanParams(ecc, scan), ps, scan.parmlist, scan.i)
    decreases |ps| - scan.i
  {
    if scan.i == |scan.parmlist| {
      ScanEnds(ecc, scan, ps, rest);
    } else {
      ScanTree(ecc, scan, ps, rest);
      if scan.i < |ps| && IsPair(ps[scan.i]) && PairName(ps[scan.i]) == [scan.parmlist[scan.i]] {
        var next := ScanParam(ecc, scan).value;
        ScanJudged(ecc, next, ps, rest);
        OneRightTree(ecc, scan, next, ps);
      }
    }
  }

  /** The parameters are those of the table for the algorithm, or those of the curve variant. */
  predicate ItemsFit(ps: seq<Sexp>, info: Info) {
    || (|ps| == |info.parmlist| && forall j | 0 <= j < |ps| :: IsPair(ps[j]) && PairName(ps[j]) == [info.parmlist[j]])
    || (info.eccHack && |ps| == 3 && IsPair(ps[0]) && IsPair(ps[1]) && IsPair(ps[2])
        && PairName(ps[0]) == "curve" && PairName(ps[1]) == "q" && PairName(ps[2]) == "d")
  }

  lemma ItemsJudged(info: Info, ps: seq<Sexp>, rest: string)
    requires info in Table && SolidAll(ps)
    ensures var r := ScanParams(info.eccHack, Start(info, TextAll(ps, ")" + rest)));
            (r.Err? ==> r.error == InvSexp) && (r.Ok? && At(r.value.s) == ')' ==> ItemsFit(ps, info))
  {
    var scan := Start(info, TextAll(ps, ")" + rest));
    ProtectedAreLast(info);
    assert ps[0..] == ps;
    if info.eccHack && ps != [] && IsPair(ps[0]) && PairName(ps[0]) == "curve" {
      CurveJudged(info, ps, rest);
    } else {
      ScanJudged(info.eccHack, scan, ps, rest);
    }
  }

  lemma ScanGoesOn(ecc: bool, scan: Scan, next: Scan)
    requires scan.i < |scan.parmlist| && ScanParam(ecc, scan) == Ok(next)
    ensures ScanParams(ecc, scan) == ScanParams(ecc, next)
  {
  }

  lemma CurveFits(r: Outcome<Scan>, ps: seq<Sexp>, info: Info)
    requires info.eccHack && ps != [] && IsPair(ps[0]) && PairName(ps[0]) == "curve" && JudgedTree(r, ps, "?qd", 1)
    ensures (r.Err? ==> r.error == InvSexp) && (r.Ok? && At(r.value.s) == ')' ==> ItemsFit(ps, info))
  {
  }

  lemma CurveFirst(scan: Scan, ps: seq<Sexp>, rest: string) returns (next: Scan)
    requires scan.i == 0 && |scan.parmlist| > 0 && scan.s == TextAll(ps, ")" + rest)
    requires SolidAll(ps) && ps != [] && IsPair(ps[0]) && PairName(ps[0]) == "curve"
    ensures ScanParam(true, scan) == Ok(next) && next.i == 1 && next.parmlist == "?qd" && next.s == TextAll(ps[1..], ")" + rest)
  {
    assert ps[0..] == ps;
    ScanTree(true, scan, ps, rest);
    next := ScanParam(true, scan).value;
    assert |"curve"| == 5;
  }

  lemma CurveJudged(info: Info, ps: seq<Sexp>, rest: string)
    requires info in Table && info.eccHack && SolidAll(ps) && ps != [] && IsPair(ps[0]) && PairName(ps[0]) == "curve"
    ensures var r := ScanParams(true, Start(info, TextAll(ps, ")" + rest)));
            (r.Err? ==> r.error == InvSexp) && (r.Ok? && At(r.value.s) == ')' ==> ItemsFit(ps, info))
  {
    var scan := Start(info, TextAll(ps, ")" + rest));
    ProtectedAreLast(info);
    var next := CurveFirst(scan, ps, rest);
    ScanGoesOn(true, scan, next);
    ScanJudged(true, next, ps, rest);
    CurveFits(ScanParams(true, next), ps, info);
  }

  /** Items that fit are parameters. */
  function ParamsOf(ps: seq<Sexp>): seq<Param>
    requires forall j | 0 <= j < |ps| :: IsPair(ps[j])
  {
    seq(|ps|, j requires 0 <= j < |ps| => ParamOf(ps[j]))
  }

  function ParamOf(x: Sexp): Param
    requires IsPair(x)
  {
    Param(x.items[0].data, x.items[1].data)
  }

  lemma {:induction false} ListsOf(ps: seq<Sexp>)
    requires SolidAll(ps) && forall j | 0 <= j < |ps| :: IsPair(ps[j])
    ensures Lists(ParamsOf(ps)) == ps && SolidPairs(ParamsOf(ps))
  {
    if ps != [] {
      SolidRest(ps);
      ListsOf(ps[1..]);
      SolidRest(ps[0].items);
      SolidRest(ps[0].items[1..]);
      assert ps[0].items == [ps[0].items[0], ps[0].items[1]];
      assert ParamsOf(ps)[0] == ParamOf(ps[0]);
      assert ParamsOf(ps)[1..] == ParamsOf(ps[1..]);
      assert [ps[0]] + ps[1..] == ps;
    }
  }

  /** The expression is a clear key of a listed algorithm. */
  ghost predicate IsKey(x: Sexp) { exists k: Key :: WellFormed(k) && x == KeySexp(k) }

  lemma FitsIsKey(x: Sexp, info: Info, ps: seq<Sexp>) returns (k: Key)
    requires Solid(x) && HeadVerdict(x, "private-key") == Ok((info.algo, ps)) && info in Table && ItemsFit(ps, info)
    ensures x == KeySexp(k) && Fits(k, info) && SolidPairs(k.pub + k.sec) && SolidAll(k.rest)
  {
    var params, rest := ParamsOf(ps), x.items[2..];
    HeadSolid(x, info.algo, ps);
    ListsOf(ps);
    var n := PublicCount(params, info);
    Splits(info.algo, params, rest, info);
    k := Key(info.algo, params[..n], params[n..], rest);
    assert Lists(params) + [] == ps;
  }

  lemma HeadSolid(x: Sexp, algo: string, ps: seq<Sexp>)
    requires Solid(x) && HeadVerdict(x, "private-key") == Ok((algo, ps))
    ensures SolidAll(ps) && SolidAll(x.items[2..])
    ensures x == List([Atom("private-key"), List([Atom(algo)] + ps)] + x.items[2..])
  {
    var l := x.items[1].items;
    SolidRest(x.items);
    SolidRest(x.items[1..]);
    SolidRest(l);
    assert x.items[1..][1..] == x.items[2..];
    assert l == [Atom(algo)] + ps;
    assert x.items == [Atom("private-key"), x.items[1]] + x.items[2..];
  }

  lemma ClearRefused(key: string, s: string, info: Info, rest: string, scan: Outcome<Scan>)
    requires ReadHead(key, "private-key") == Ok((s, info, rest)) && ScanParams(info.eccHack, Start(info, rest)) == scan
    requires scan.Err? || At(scan.value.s) != ')'
    ensures ParseClear(key) == if scan.Err? then Err(scan.error) else Err(InvSexp)
  {
  }

  lemma ItemsDecide(lib: Lib, nonce: Nonce, count: nat, at: string, passphrase: string, x: Sexp, junk: string)
    requires |at| == 15 && Solid(x) && HeadVerdict(x, "private-key").Ok?
    ensures var r := Protect(lib, nonce, count, at, passphrase, Text(x, junk)); r.Ok? || r == Err(InvSexp)
    ensures Protect(lib, nonce, count, at, passphrase, Text(x, junk)).Ok? ==> IsKey(x)
  {
    var info, s, rest := HeadOk(x, junk, "private-key");
    var ps := HeadVerdict(x, "private-key").value.1;
    ItemsJudged(info, ps, rest);
    var scan := ScanParams(info.eccHack, Start(info, TextAll(ps, ")" + rest)));
    if scan.Err? || At(scan.value.s) != ')' {
      ClearRefused(Text(x, junk), s, info, TextAll(ps, ")" + rest), scan);
    } else {
      var k := FitsIsKey(x, info, ps);
      KeySexpText(k, junk);
      ProtectResult(lib, nonce, count, at, passphrase, k, info, junk);
      KeyIsWellFormed(k, info);
    }
  }

  lemma KeyIsWellFormed(k: Key, info: Info)
    requires info in Table && Fits(k, info) && SolidPairs(k.pub + k.sec) && SolidAll(k.rest)
    ensures WellFormed(k)
  {
    var j :| 0 <= j < |Table| && Table[j] == info;
    assert Fits(k, Table[j]);
    forall i | 0 <= i < |k.pub| ensures k.pub[i].name != "" && k.pub[i].value != "" {
      assert (k.pub + k.sec)[i] == k.pub[i];
    }
    forall i | 0 <= i < |k.sec| ensures k.sec[i].name != "" && k.sec[i].value != "" {
      assert (k.pub + k.sec)[|k.pub| + i] == k.sec[i];
    }
  }

  lemma KeyHead(k: Key)
    requires WellFormed(k)
    ensures HeadVerdict(KeySexp(k), "private-key").Ok? && Solid(KeySexp(k))
  {
    var j :| 0 <= j < |Table| && Fits(k, Table[j]);
    ProtectedAreLast(Table[j]);
    var l := [Atom(k.algo)] + (Lists(k.pub + k.sec) + []);
    assert l[0] == Atom(k.algo);
    assert SolidPairs(k.pub + k.sec);
    SolidLists(k.pub + k.sec);
    SolidAppend(Lists(k.pub + k.sec), []);
    SolidMore(Atom(k.algo), Lists(k.pub + k.sec) + []);
    SolidTwo(Atom("private-key"), List(l));
    SolidAppend([Atom("private-key"), List(l)], k.rest);
  }

  /** The verdict of agent_protect on every canonical S-expression: a clear key of a listed algorithm is
      protected; a head that is wrong gives its error; and everything else is an invalid expression. */
  lemma ProtectTotal(lib: Lib, nonce: Nonce, count: nat, at: string, passphrase: string, x: Sexp, junk: string)
    requires |at| == 15 && Solid(x)
    ensures var r := Protect(lib, nonce, count, at, passphrase, Text(x, junk));
            && (r.Ok? <==> IsKey(x))
            && (r.Err? ==> r.error == if HeadVerdict(x, "private-key").Err? then HeadVerdict(x, "private-key").error else InvSexp)
  {
    if IsKey(x) {
      var k: Key :| WellFormed(k) && x == KeySexp(k);
      var j :| 0 <= j < |Table| && Fits(k, Table[j]);
      KeySexpText(k, junk);
      ProtectResult(lib, nonce, count, at, passphrase, k, Table[j], junk);
    } else if HeadVerdict(x, "private-key").Err? {
      HeadTree(x, junk, "private-key");
    } else {
      ItemsDecide(lib, nonce, count, at, passphrase, x, junk);
    }
  }

  // ---------------------------------------------------------------------------------
  // Which parameters are secret.

  predicate Names(ps: seq<Param>, names: string) { |ps| == |names| && forall i | 0 <= i < |ps| :: ps[i].name == [names[i]] }

  /** The parameters that stay readable and those that are encrypted, by algorithm. */
  predicate Standard(k: Key) {
    || (k.algo == "rsa" && Names(k.pub, "ne") && Names(k.sec, "dpqu"))
    || (k.algo == "dsa" && Names(k.pub, "pqgy") && Names(k.sec, "x"))
    || (k.algo == "elg" && Names(k.pub, "pgy") && Names(k.sec, "x"))
    || ((k.algo == "ecdsa" || k.algo == "ecdh" || k.algo == "ecc")
        && ((Names(k.pub, "pabgnq") && Names(k.sec, "d"))
            || (|k.pub| == 2 && k.pub[0].name == "curve" && k.pub[1].name == "q" && Names(k.sec, "d"))))
  }

  lemma NamesSplit(k: Key, pub: string, sec: string)
    ensures Named(k.pub + k.sec, pub + sec) && |k.pub| == |pub| <==> Names(k.pub, pub) && Names(k.sec, sec)
  {
    var all, names := k.pub + k.sec, pub + sec;
    if Named(all, names) && |k.pub| == |pub| {
      forall i | 0 <= i < |k.pub| ensures k.pub[i].name == [pub[i]] {
        assert all[i] == k.pub[i] && names[i] == pub[i];
      }
      forall i | 0 <= i < |k.sec| ensures k.sec[i].name == [sec[i]] {
        assert all[|pub| + i] == k.sec[i] && names[|pub| + i] == sec[i];
      }
    }
  }

  lemma CurveNames(k: Key)
    ensures NamedByCurve(k.pub + k.sec) && |k.pub| == 2 <==>
              |k.pub| == 2 && k.pub[0].name == "curve" && k.pub[1].name == "q" && Names(k.sec, "d")
  {
    var all := k.pub + k.sec;
    if |k.pub| == 2 {
      assert all[0] == k.pub[0] && all[1] == k.pub[1];
      if |k.sec| == 1 {
        assert all[2] == k.sec[0];
      }
    }
  }

  lemma RowFits(k: Key, j: nat, pub: string, sec: string)
    requires j < |Table| && Table[j].parmlist == pub + sec && Table[j].protFrom == |pub|
    ensures Fits(k, Table[j]) <==>
              k.algo == Table[j].algo &&
              ((Names(k.pub, pub) && Names(k.sec, sec))
               || (Table[j].eccHack && |k.pub| == 2 && k.pub[0].name == "curve" && k.pub[1].name == "q" && Names(k.sec, "d")))
  {
    NamesSplit(k, pub, sec);
    CurveNames(k);
  }

  /** A key is well-formed exactly if it is one of these, without empty atoms. */
  lemma WellFormedIff(k: Key)
    ensures WellFormed(k) <==> Standard(k) && SolidPairs(k.pub) && SolidPairs(k.sec) && SolidAll(k.rest)
  {
    assert "ne" + "dpqu" == "nedpqu" && "pqgy" + "x" == "pqgyx" && "pgy" + "x" == "pgyx" && "pabgnq" + "d" == "pabgnqd";
    RowFits(k, 0, "ne", "dpqu");
    RowFits(k, 1, "pqgy", "x");
    RowFits(k, 2, "pgy", "x");
    RowFits(k, 3, "pabgnq", "d");
    RowFits(k, 4, "pabgnq", "d");
    RowFits(k, 5, "pabgnq", "d");
    assert |Table| == 6;
    if exists j :: 0 <= j < |Table| && Fits(k, Table[j]) {
      var j :| 0 <= j < |Table| && Fits(k, Table[j]);
      assert j == 0 || j == 1 || j == 2 || j == 3 || j == 4 || j == 5;
    }
  }

  // ---------------------------------------------------------------------------------
  // The lists of a protected key.

  /** A list that starts with an atom. */
  predicate HasName(x: Sexp) { x.List? && x.items != [] && x.items[0].Atom? }

  /** The position of the protected list; everything in front of it has to have a name. */
  function Where(items: seq<Sexp>): (r: Option<nat>)
    ensures r.Some? ==> r.value < |items| && HasName(items[r.value]) && items[r.value].items[0].data == "protected"
  {
    if items == [] || !HasName(items[0]) then None
    else if items[0].items[0].data == "protected" then Some(0)
    else
      match Where(items[1..])
      case None => None
      case Some(i) => Some(i + 1)
  }

  /** The value of the first time stamp. */
  function StampVerdict(items: seq<Sexp>): Outcome<Option<string>> {
    if items == [] || items[0].Atom? then Ok(None)
    else if !HasName(items[0]) then Err(InvSexp)
    else if items[0].items[0].data != "protected-at" then StampVerdict(items[1..])
    else if |items[0].items| == 1 || items[0].items[1].List? then Err(InvSexp)
    else if |items[0].items[1].data| != 15 then Err(UnknownSexp)
    else Ok(Some(items[0].items[1].data))
  }

  lemma ListSeen(m: seq<Sexp>, rest: string)
    requires SolidAll(m)
    ensures var s := "(" + TextAll(m, ")" + rest); var (n, s1) := Snext(Drop(s, 1));
            && At(s) == '(' && (n == 0 <==> m == [] || m[0].List?)
            && (n != 0 ==> n == |m[0].data| && s1 == m[0].data + TextAll(m[1..], ")" + rest)
                           && Drop(s1, n) == TextAll(m[1..], ")" + rest) && Sskip(Drop(s1, n), 1) == Some(rest))
  {
    Opened(TextAll(m, ")" + rest));
    Seen(m, rest);
    if m != [] && m[0].Atom? {
      SolidRest(m);
      Behind1(m[0].data, TextAll(m[1..], ")" + rest));
      SkipTextAll(m[1..], ")" + rest, 1, false);
      SkipClose(rest, 1, false);
    }
  }

  lemma NameMatches(data: string, s: string, token: string)
    ensures Smatch(data + s, |data|, token) == if data == token then Some(s) else None
  {
    if data == token {
      assert (data + s)[..|data|] == data && (data + s)[|data|..] == s;
    } else {
      OtherName(data, s, token);
    }
  }

  lemma FindStep(items: seq<Sexp>, rest: string)
    requires SolidAll(items)
    ensures FindProtected(TextAll(items, ")" + rest)) ==
              if items == [] || !HasName(items[0]) then Err(InvSexp)
              else if items[0].items[0].data == "protected" then
                Ok((TextAll(items, ")" + rest), TextAll(items[0].items[1..], ")" + TextAll(items[1..], ")" + rest))))
              else FindProtected(TextAll(items[1..], ")" + rest))
  {
    Seen(items, rest);
    if items != [] && items[0].List? {
      var m, tail := items[0].items, TextAll(items[1..], ")" + rest);
      SolidRest(items);
      ListSeen(m, tail);
      if HasName(items[0]) {
        NameMatches(m[0].data, TextAll(m[1..], ")" + tail), "protected");
      }
    }
  }

  /** What the search returns for the position i. */
  function FoundAt(items: seq<Sexp>, rest: string, i: nat): (string, string)
    requires i < |items| && HasName(items[i])
  {
    (TextAll(items[i..], ")" + rest), TextAll(items[i].items[1..], ")" + TextAll(items[i + 1..], ")" + rest)))
  }

  lemma {:induction false} WhereFound(items: seq<Sexp>, rest: string)
    requires SolidAll(items)
    ensures FindProtected(TextAll(items, ")" + rest)) == if Where(items).None? then Err(InvSexp) else Ok(FoundAt(items, rest, Where(items).value))
    decreases |items|
  {
    FindStep(items, rest);
    if items != [] && HasName(items[0]) {
      SolidRest(items);
      if items[0].items[0].data == "protected" {
        assert items[0..] == items;
      } else {
        WhereFound(items[1..], rest);
        NextPlace(items);
      }
    }
  }

  lemma NextPlace(items: seq<Sexp>)
    requires items != [] && HasName(items[0]) && items[0].items[0].data != "protected"
    ensures Where(items).Some? <==> Where(items[1..]).Some?
    ensures Where(items).Some? ==> var i := Where(items[1..]).value;
              Where(items).value == i + 1 && items[1..][i..] == items[i + 1..] && items[1..][i + 1..] == items[i + 2..] && items[1..][i] == items[i + 1]
  {
  }

  lemma {:induction false} StampFound(items: seq<Sexp>, rest: string)
    requires SolidAll(items)
    ensures FindTimestamp(TextAll(items, ")" + rest)) == StampVerdict(items)
    decreases |items|
  {
    Seen(items, rest);
    if items != [] && items[0].List? {
      var m, tail := items[0].items, TextAll(items[1..], ")" + rest);
      SolidRest(items);
      ListSeen(m, tail);
      if HasName(items[0]) {
        NameMatches(m[0].data, TextAll(m[1..], ")" + tail), "protected-at");
        if m[0].data == "protected-at" {
          StampValue(m[1..], tail);
        } else {
          StampFound(items[1..], rest);
        }
      }
    }
  }

  lemma StampValue(m: seq<Sexp>, tail: string)
    requires SolidAll(m)
    ensures var (n, s) := Snext(TextAll(m, ")" + tail));
            && (n == 0 <==> m == [] || m[0].List?)
            && (n != 0 ==> n == |m[0].data| && (n == 15 ==> Take(s, 15) == m[0].data))
  {
    Seen(m, tail);
    if m != [] && m[0].Atom? {
      SolidRest(m);
      Behind1(m[0].data, TextAll(m[1..], ")" + tail));
    }
  }

  // ---------------------------------------------------------------------------------
  // Lists of names and values.

  /** What is left where a run of pairs ends; nothing if a list is no pair. */
  function PairRun(ps: seq<Sexp>): Option<seq<Sexp>> {
    if ps == [] || ps[0].Atom? then Some(ps) else if IsPair(ps[0]) then PairRun(ps[1..]) else None
  }

  predicate AllPairs(ps: seq<Sexp>) { forall j | 0 <= j < |ps| :: IsPair(ps[j]) }

  lemma {:induction false} RunOfPairs(ps: seq<Sexp>)
    ensures PairRun(ps) == Some([]) <==> AllPairs(ps)
  {
    if ps != [] && IsPair(ps[0]) {
      RunOfPairs(ps[1..]);
      assert AllPairs(ps) <==> AllPairs(ps[1..]) by {
        assert forall j | 1 <= j < |ps| :: ps[j] == ps[1..][j - 1];
      }
    } else if ps != [] {
      assert !IsPair(ps[0]);
    }
  }

  lemma PairStep(m: seq<Sexp>, rest: string)
    requires SolidAll(m)
    ensures SkipPairs("(" + TextAll(m, ")" + rest)) == if |m| == 2 && m[0].Atom? && m[1].Atom? then SkipPairs(rest) else None
  {
    ListSeen(m, rest);
    if m != [] && m[0].Atom? {
      SolidRest(m);
      ParamValue(m[1..], rest);
      Opened(rest);
    }
  }

  lemma {:induction false} RunSkipped(ps: seq<Sexp>, rest: string)
    requires SolidAll(ps)
    ensures SkipPairs(TextAll(ps, ")" + rest)) == if PairRun(ps).None? then None else Some(TextAll(PairRun(ps).value, ")" + rest))
    ensures PairRun(ps).Some? ==> SolidAll(PairRun(ps).value)
  {
    Seen(ps, rest);
    if ps != [] && ps[0].List? {
      SolidRest(ps);
      PairStep(ps[0].items, TextAll(ps[1..], ")" + rest));
      if IsPair(ps[0]) {
        RunSkipped(ps[1..], rest);
      }
    }
  }

  /** The run comes to the end of the list exactly if all items are pairs. */
  lemma PairsDecide(ps: seq<Sexp>, rest: string)
    requires SolidAll(ps)
    ensures var r := SkipPairs(TextAll(ps, ")" + rest));
            && (r.Some? && At(r.value) == ')' <==> AllPairs(ps))
            && (AllPairs(ps) ==> r == Some(")" + rest))
  {
    RunSkipped(ps, rest);
    RunOfPairs(ps);
    if PairRun(ps).Some? {
      Seen(PairRun(ps).value, rest);
    }
  }

  // ---------------------------------------------------------------------------------
  // Putting a key together again.

  function AlgoList(algo: string, ps: seq<Sexp>): Sexp { List([Atom(algo)] + ps) }

  function KeyTree(token: string, algo: string, ps: seq<Sexp>, rest: seq<Sexp>): Sexp { List([Atom(token), AlgoList(algo, ps)] + rest) }

  /** The text of the algorithm's list up to where something else goes on. */
  function AlgoFront(algo: string, ps: seq<Sexp>, tail: string): string { "(" + Net(algo, TextAll(ps, tail)) }

  /** The text behind the outer list's second item. */
  function After(rest: seq<Sexp>): string { TextAll(rest, ")" + "") }

  lemma TreeText(token: string, algo: string, ps: seq<Sexp>, rest: seq<Sexp>)
    ensures Text(KeyTree(token, algo, ps, rest), "") == "(" + Net(token, AlgoFront(algo, ps, ")" + After(rest)))
  {
    OuterText(token, AlgoList(algo, ps), rest, "");
    TextCons(Atom(algo), ps, ")" + After(rest));
  }

  lemma FrontAppend(algo: string, ps: seq<Sexp>, a: string, b: string)
    ensures AlgoFront(algo, ps, a + b) == AlgoFront(algo, ps, a) + b
  {
    TextAllAppend(ps, a, b);
    NetAppend(algo, TextAll(ps, a), b);
    Join("(", Net(algo, TextAll(ps, a)), b);
  }

  lemma FrontJoin(algo: string, ps: seq<Sexp>, qs: seq<Sexp>, tail: string)
    ensures AlgoFront(algo, ps + qs, tail) == AlgoFront(algo, ps, "") + TextAll(qs, tail)
  {
    TextAllSplit(ps, qs, tail);
    FrontAppend(algo, ps, "", TextAll(qs, tail));
    assert "" + TextAll(qs, tail) == TextAll(qs, tail);
  }

  lemma ItemsJoin(ps: seq<Sexp>, tail: string)
    ensures TextAll(ps, tail) == TextAll(ps, "") + tail
  {
    TextAllAppend(ps, "", tail);
    assert "" + tail == tail;
  }

  lemma HeadCut(head: string, begin: string)
    requires head != ""
    ensures var key := "(" + Net("protected-private-key", head + begin);
            |Between(key, begin)| >= 26 && Between(Drop(key, 25), begin) == head
  {
    ProtectedHead(head + begin);
    Join("(21:protected-", "private-key", head + begin);
    var front := "(21:protected-" + "private-key";
    assert |front| == 25 && (front + (head + begin))[25..] == head + begin;
    Join(front, head, begin);
    BetweenJoined(front + head, begin);
    BetweenJoined(head, begin);
  }

  /** The first list behind the protected one is a time stamp. */
  predicate StampFirst(extras: seq<Sexp>) { extras != [] && HasName(extras[0]) && extras[0].items[0].data == "protected-at" }

  function Uncut(extras: seq<Sexp>): seq<Sexp> { if StampFirst(extras) then extras[1..] else extras }

  function CutOff(extras: seq<Sexp>): string { if StampFirst(extras) then Text(extras[0], "") else "" }

  /** A list behind the protected one that is not the time stamp is not cut. */
  lemma CutNothing(extras: seq<Sexp>, tail: string)
    requires SolidAll(extras) && !StampFirst(extras)
    ensures CutLength(TextAll(extras, ")" + tail)) == Some(0)
  {
    Seen(extras, tail);
    if extras != [] && extras[0].List? {
      var m, rest := extras[0].items, TextAll(extras[1..], ")" + tail);
      SolidRest(extras);
      ListSeen(m, rest);
      if HasName(extras[0]) {
        NameMatches(m[0].data, TextAll(m[1..], ")" + rest), "protected-at");
      }
    }
  }

  lemma CutStamp(stamp: Sexp, rest: string)
    requires Solid(stamp) && HasName(stamp) && stamp.items[0].data == "protected-at"
    ensures CutLength(Text(stamp, rest)) == Some(|Text(stamp, "")|) && Text(stamp, rest) == Text(stamp, "") + rest && Text(stamp, "") != ""
  {
    var m := stamp.items;
    ListSeen(m, rest);
    NameMatches(m[0].data, TextAll(m[1..], ")" + rest), "protected-at");
    TextAppend(stamp, "", rest);
    assert "" + rest == rest;
    BetweenJoined(Text(stamp, ""), rest);
  }

  lemma CutTree(extras: seq<Sexp>, tail: string)
    requires SolidAll(extras)
    ensures CutLength(TextAll(extras, ")" + tail)) == Some(|CutOff(extras)|)
    ensures TextAll(extras, ")" + tail) == CutOff(extras) + TextAll(Uncut(extras), ")" + tail)
    ensures CutOff(extras) != "" <==> StampFirst(extras)
  {
    var s := TextAll(extras, ")" + tail);
    if StampFirst(extras) {
      SolidRest(extras);
      CutStamp(extras[0], TextAll(extras[1..], ")" + tail));
    } else {
      CutNothing(extras, tail);
      assert "" + s == s;
    }
  }

  lemma RestTree(front: string, hash: string, seal: Sexp, extras: seq<Sexp>, rest: seq<Sexp>)
    requires Solid(seal) && seal.List? && SolidAll(extras) && SolidAll(rest)
    ensures var t := TextAll(extras, ")" + After(rest));
            MergeRest(front, hash, Text(seal, t)) ==
              Ok(Merged(front + t, hash, if StampFirst(extras) then |front| else 0, |CutOff(extras)|))
  {
    var t := TextAll(extras, ")" + After(rest));
    ListIsCanonical(seal.items, t);
    CutTree(extras, After(rest));
    SkipTextAll(extras, ")" + After(rest), 2, false);
    SkipClose(After(rest), 2, false);
    SkipTextAll(rest, ")" + "", 1, false);
    SkipClose("", 1, false);
    assert Between(t, "") == t;
  }

  /** The integrity code over the merged list, which has to consist of pairs. */
  lemma MicTree(lib: Lib, algo: string, ps: seq<Sexp>, rest: seq<Sexp>)
    requires algo != "" && SolidAll(ps)
    ensures Mic(lib, Text(KeyTree("private-key", algo, ps, rest), "")) ==
              if AllPairs(ps) then Ok(lib.sha1(Text(AlgoList(algo, ps), ""))) else Err(InvSexp)
  {
    var list := AlgoFront(algo, ps, ")" + After(rest));
    TreeText("private-key", algo, ps, rest);
    Opened(Net(algo, TextAll(ps, ")" + After(rest))));
    TokenRead("private-key", list);
    NetParts(algo, TextAll(ps, ")" + After(rest)));
    PairsDecide(ps, After(rest));
    Opened(After(rest));
    FrontAppend(algo, ps, ")", After(rest));
    BetweenJoined(AlgoFront(algo, ps, ")"), After(rest));
    TextCons(Atom(algo), ps, ")" + "");
    assert ")" + "" == ")";
  }

  lemma FinishAny(lib: Lib, front: string, cut: string, end: string, both: string, hash: string, list: string, mic: Outcome<string>, key: string, stamp: bool)
    requires both == cut + end && key == front + end && lib.canonLen(key) == |key| && (stamp <==> cut != "")
    requires list == front + both && Mic(lib, list) == mic
    ensures var m := Merged(list, hash, if stamp then |front| else 0, |cut|);
            Finish(lib, m, Mic(lib, m.list)) == if mic.Err? then Err(mic.error) else if hash != mic.value then Err(CorruptedProtection) else Ok(key)
  {
    if mic.Ok? {
      FinishWith(lib, front, cut, end, both, hash, mic.value, key);
    }
  }

  lemma FinishTree(lib: Lib, front: string, algo: string, ps: seq<Sexp>, extras: seq<Sexp>, rest: seq<Sexp>, hash: string)
    requires Lawful(lib) && algo != "" && SolidAll(ps) && SolidAll(extras) && SolidAll(rest)
    requires front == "(" + Net("private-key", AlgoFront(algo, ps, ""))
    ensures var m := Merged(front + TextAll(extras, ")" + After(rest)), hash, if StampFirst(extras) then |front| else 0, |CutOff(extras)|);
            Finish(lib, m, Mic(lib, m.list)) ==
              if !AllPairs(ps + extras) then Err(InvSexp)
              else if hash != lib.sha1(Text(AlgoList(algo, ps + extras), "")) then Err(CorruptedProtection)
              else Ok(Text(KeyTree("private-key", algo, ps + Uncut(extras), rest), ""))
  {
    FrontTree(front, algo, ps, extras, rest);
    FrontTree(front, algo, ps, Uncut(extras), rest);
    SolidAppend(ps, extras);
    MicTree(lib, algo, ps + extras, rest);
    CutTree(extras, After(rest));
    UncutSolid(extras);
    SolidAppend(ps, Uncut(extras));
    KeyTreeMeasured(lib, algo, ps + Uncut(extras), rest);
    FinishAny(lib, front, CutOff(extras), TextAll(Uncut(extras), ")" + After(rest)), TextAll(extras, ")" + After(rest)), hash,
              front + TextAll(extras, ")" + After(rest)),
              if AllPairs(ps + extras) then Ok(lib.sha1(Text(AlgoList(algo, ps + extras), ""))) else Err(InvSexp),
              Text(KeyTree("private-key", algo, ps + Uncut(extras), rest), ""), StampFirst(extras));
  }

  lemma UncutSolid(extras: seq<Sexp>)
    requires SolidAll(extras)
    ensures SolidAll(Uncut(extras))
  {
    if extras != [] {
      SolidRest(extras);
    }
  }

  lemma FrontTree(front: string, algo: string, ps: seq<Sexp>, qs: seq<Sexp>, rest: seq<Sexp>)
    requires front == "(" + Net("private-key", AlgoFront(algo, ps, ""))
    ensures front + TextAll(qs, ")" + After(rest)) == Text(KeyTree("private-key", algo, ps + qs, rest), "")
  {
    var t := TextAll(qs, ")" + After(rest));
    TreeText("private-key", algo, ps + qs, rest);
    FrontJoin(algo, ps, qs, ")" + After(rest));
    NetAppend("private-key", AlgoFront(algo, ps, ""), t);
    Join("(", Net("private-key", AlgoFront(algo, ps, "")), t);
  }

  lemma KeyTreeMeasured(lib: Lib, algo: string, ps: seq<Sexp>, rest: seq<Sexp>)
    requires Lawful(lib) && algo != "" && SolidAll(rest)
    requires SolidAll(ps)
    ensures lib.canonLen(Text(KeyTree("private-key", algo, ps, rest), "")) == |Text(KeyTree("private-key", algo, ps, rest), "")|
  {
    TreeIsSolid("private-key", algo, ps, rest);
    ListIsCanonical(KeyTree("private-key", algo, ps, rest).items, "");
    LengthKnown(lib, Text(KeyTree("private-key", algo, ps, rest), ""), "");
  }

  lemma TreeIsSolid(token: string, algo: string, ps: seq<Sexp>, rest: seq<Sexp>)
    requires token != "" && algo != "" && SolidAll(ps) && SolidAll(rest)
    ensures SolidAll(KeyTree(token, algo, ps, rest).items)
  {
    SolidMore(Atom(algo), ps);
    SolidTwo(Atom(token), AlgoList(algo, ps));
    SolidAppend([Atom(token), AlgoList(algo, ps)], rest);
  }

  // ---------------------------------------------------------------------------------
  // The verdict of agent_unprotect.

  /** The decrypted list: parameters and the digest. */
  function ClearTree(sec: seq<Sexp>, hash: string): Sexp { List([List(sec), List([Atom("hash"), Atom("sha1"), Atom(hash)])]) }

  lemma ClearTreeText(sec: seq<Sexp>, hash: string, pad: string)
    ensures Text(ClearTree(sec, hash), pad) == "(" + ("(" + TextAll(sec, ")" + MicList(hash, ")" + pad)))
  {
    var mic := List([Atom("hash"), Atom("sha1"), Atom(hash)]);
    TextTwo(List(sec), mic, ")" + pad);
    TextThree(Atom("hash"), Atom("sha1"), Atom(hash), ")" + (")" + pad));
  }

  lemma ClearTreeSolid(sec: seq<Sexp>, hash: string)
    requires SolidAll(sec) && hash != ""
    ensures SolidAll(ClearTree(sec, hash).items)
  {
    SolidThree(Atom("hash"), Atom("sha1"), Atom(hash));
    SolidTwo(List(sec), List([Atom("hash"), Atom("sha1"), Atom(hash)]));
  }

  /** Its parts. */
  lemma ClearTreeRead(lib: Lib, sec: seq<Sexp>, hash: string, pad: string, clear: string, mic: string)
    requires Lawful(lib) && SolidAll(sec) && |hash| == 20 && clear == Text(ClearTree(sec, hash), pad) && mic == MicList(hash, ")" + pad)
    ensures At(clear) == '(' && Drop(clear, 2) == TextAll(sec, ")" + mic)
    ensures lib.canonLen(clear) == |clear| - |pad| > 0
    ensures ParseMic(Drop(")" + mic, 1)) == Some(hash) && At(")" + mic) == ')'
    ensures Between(TextAll(sec, ")" + mic), ")" + mic) == TextAll(sec, "")
  {
    var body := TextAll(sec, ")" + mic);
    ClearTreeText(sec, hash, pad);
    assert ("(" + ("(" + body))[2..] == body;
    ClearTreeSolid(sec, hash);
    ListIsCanonical(ClearTree(sec, hash).items, pad);
    LengthKnown(lib, clear, pad);
    Opened(mic);
    MicRead(hash, ")" + pad);
    ItemsJoin(sec, ")" + mic);
    BetweenJoined(TextAll(sec, ""), ")" + mic);
  }

  lemma MergeRefused(lib: Lib, key: string, begin: string, clear: string, start: string)
    requires |Between(key, begin)| >= 26 && lib.canonLen(key) > 0 && lib.canonLen(clear) > 0
    requires At(clear) == '(' && Drop(clear, 2) == start && (SkipPairs(start).None? || At(SkipPairs(start).value) != ')')
    ensures Merge(lib, key, begin, clear) == Err(InvSexp)
  {
  }

  /** The parts of a protected key: what stands in front of its protected list, that list, and what
      stands behind it. */
  predicate SplitsAt(items: seq<Sexp>, pre: seq<Sexp>, seal: Sexp, extras: seq<Sexp>) {
    Where(items).Some? && pre == items[..Where(items).value] && seal == items[Where(items).value] && extras == items[Where(items).value + 1..]
  }

  lemma MergeTree(lib: Lib, algo: string, items: seq<Sexp>, rest: seq<Sexp>, pre: seq<Sexp>, seal: Sexp, extras: seq<Sexp>, sec: seq<Sexp>,
                  hash: string, pad: string, front: string)
    requires Lawful(lib) && algo != "" && SolidAll(items) && SolidAll(rest) && SplitsAt(items, pre, seal, extras)
    requires SolidAll(sec) && |hash| == 20 && front == "(" + Net("private-key", AlgoFront(algo, pre + sec, ""))
    ensures var t := TextAll(extras, ")" + After(rest));
            Merge(lib, Text(KeyTree("protected-private-key", algo, items, rest), ""), Text(seal, t), Text(ClearTree(sec, hash), pad)) ==
              if AllPairs(sec) then Ok(Merged(front + t, hash, if StampFirst(extras) then |front| else 0, |CutOff(extras)|)) else Err(InvSexp)
  {
    var key, t := Text(KeyTree("protected-private-key", algo, items, rest), ""), TextAll(extras, ")" + After(rest));
    var clear, mic := Text(ClearTree(sec, hash), pad), MicList(hash, ")" + pad);
    SplitSolid(items, pre, seal, extras);
    ProtectedTreeCut(lib, algo, items, rest, pre, seal, extras);
    ClearTreeRead(lib, sec, hash, pad, clear, mic);
    PairsDecide(sec, mic);
    if AllPairs(sec) {
      MergeIs(lib, key, Text(seal, t), clear, TextAll(sec, ")" + mic), ")" + mic, hash);
      PrivateHead(AlgoFront(algo, pre, "") + TextAll(sec, ""));
      FrontJoin(algo, pre, sec, "");
      RestTree(front, hash, seal, extras, rest);
    } else {
      MergeRefused(lib, key, Text(seal, t), clear, TextAll(sec, ")" + mic));
    }
  }

  lemma SplitText(items: seq<Sexp>, i: nat)
    requires i < |items|
    ensures items[i..] == [items[i]] + items[i + 1..] && items[i..][1..] == items[i + 1..] && items[i..][0] == items[i]
    ensures items == items[..i] + ([items[i]] + items[i + 1..])
  {
  }

  lemma SplitAt(items: seq<Sexp>, i: nat)
    requires i < |items| && SolidAll(items)
    ensures items == items[..i] + ([items[i]] + items[i + 1..])
    ensures SolidAll(items[..i]) && Solid(items[i]) && SolidAll(items[i + 1..])
  {
    SplitText(items, i);
    SolidFrom(items, i);
    SolidRest(items[i..]);
    SolidUpTo(items, i);
  }

  lemma SplitSolid(items: seq<Sexp>, pre: seq<Sexp>, seal: Sexp, extras: seq<Sexp>)
    requires SolidAll(items) && SplitsAt(items, pre, seal, extras)
    ensures SolidAll(pre) && Solid(seal) && seal.List? && SolidAll(extras) && items == pre + ([seal] + extras)
    ensures SolidAll(seal.items) && HasName(seal) && seal.items[0].data == "protected"
  {
    SplitAt(items, Where(items).value);
  }

  lemma {:induction false} SolidUpTo(ps: seq<Sexp>, i: nat)
    requires SolidAll(ps) && i <= |ps|
    ensures SolidAll(ps[..i])
  {
    if i > 0 {
      SolidRest(ps);
      SolidUpTo(ps[1..], i - 1);
      SolidMore(ps[0], ps[1..][..i - 1]);
      assert [ps[0]] + ps[1..][..i - 1] == ps[..i];
    }
  }

  /** The text of a protected key, cut at its protected list. */
  lemma ProtectedTreeCut(lib: Lib, algo: string, items: seq<Sexp>, rest: seq<Sexp>, pre: seq<Sexp>, seal: Sexp, extras: seq<Sexp>)
    requires Lawful(lib) && algo != "" && SolidAll(items) && SolidAll(rest) && SplitsAt(items, pre, seal, extras)
    ensures var key, begin := Text(KeyTree("protected-private-key", algo, items, rest), ""), Text(seal, TextAll(extras, ")" + After(rest)));
            && |Between(key, begin)| >= 26 && Between(Drop(key, 25), begin) == AlgoFront(algo, pre, "") && lib.canonLen(key) > 0
            && begin == TextAll(items[Where(items).value..], ")" + After(rest))
  {
    var begin := Text(seal, TextAll(extras, ")" + After(rest)));
    SplitSolid(items, pre, seal, extras);
    TextCons(seal, extras, ")" + After(rest));
    TreeText("protected-private-key", algo, items, rest);
    FrontJoin(algo, pre, [seal] + extras, ")" + After(rest));
    HeadCut(AlgoFront(algo, pre, ""), begin);
    TreeIsSolid("protected-private-key", algo, items, rest);
    ListIsCanonical(KeyTree("protected-private-key", algo, items, rest).items, "");
    LengthKnown(lib, Text(KeyTree("protected-private-key", algo, items, rest), ""), "");
    assert items[Where(items).value..] == [seal] + extras;
  }

  /** What the merged key comes to, by its parts. */
  function Reassembled(lib: Lib, algo: string, pre: seq<Sexp>, sec: seq<Sexp>, extras: seq<Sexp>, rest: seq<Sexp>, hash: string): Outcome<string> {
    if !AllPairs(sec) || !AllPairs(pre + sec + extras) then Err(InvSexp)
    else if hash != lib.sha1(Text(AlgoList(algo, pre + sec + extras), "")) then Err(CorruptedProtection)
    else Ok(Text(KeyTree("private-key", algo, pre + sec + Uncut(extras), rest), ""))
  }

  lemma ListsMerged(lib: Lib, passphrase: string, key: string, lists: string, begin: string, s: string, p: Protection, clear: string,
                    m: Outcome<Merged>, result: Outcome<string>)
    requires FindProtected(lists) == Ok((begin, s)) && ParseProtection(s) == Ok(p) && Decrypted(lib, passphrase, p) == Ok(clear)
    requires Merge(lib, key, begin, clear) == m && (if m.Ok? then Finish(lib, m.value, Mic(lib, m.value.list)) == result else result == Err(m.error))
    ensures UnprotectLists(lib, passphrase, key, lists) == result
  {
  }

  lemma ListsOpened(lib: Lib, passphrase: string, algo: string, items: seq<Sexp>, rest: seq<Sexp>, pre: seq<Sexp>, seal: Sexp, extras: seq<Sexp>,
                    p: Protection, sec: seq<Sexp>, hash: string, pad: string)
    requires Lawful(lib) && algo != "" && SolidAll(items) && SolidAll(rest) && SplitsAt(items, pre, seal, extras)
    requires TreeVerdict(seal.items[1..]) == Ok(p) && Decrypted(lib, passphrase, p) == Ok(Text(ClearTree(sec, hash), pad))
    requires SolidAll(sec) && |hash| == 20
    ensures UnprotectLists(lib, passphrase, Text(KeyTree("protected-private-key", algo, items, rest), ""), TextAll(items, ")" + After(rest))) ==
              Reassembled(lib, algo, pre, sec, extras, rest, hash)
  {
    var t := TextAll(extras, ")" + After(rest));
    var front := "(" + Net("private-key", AlgoFront(algo, pre + sec, ""));
    SplitSolid(items, pre, seal, extras);
    SolidRest(seal.items);
    WhereFound(items, After(rest));
    ProtectedTreeCut(lib, algo, items, rest, pre, seal, extras);
    TreeParsed(seal.items[1..], t);
    MergeTree(lib, algo, items, rest, pre, seal, extras, sec, hash, pad, front);
    SolidAppend(pre, sec);
    FinishTree(lib, front, algo, pre + sec, extras, rest, hash);
    ListsMerged(lib, passphrase, Text(KeyTree("protected-private-key", algo, items, rest), ""), TextAll(items, ")" + After(rest)),
                Text(seal, t), TextAll(seal.items[1..], ")" + t), p, Text(ClearTree(sec, hash), pad),
                if AllPairs(sec) then Ok(Merged(front + t, hash, if StampFirst(extras) then |front| else 0, |CutOff(extras)|)) else Err(InvSexp),
                Reassembled(lib, algo, pre, sec, extras, rest, hash));
  }

  lemma UnprotectGives(lib: Lib, passphrase: string, key: string, wanted: bool, s: string, info: Info, lists: string,
                       stamp: Outcome<Option<string>>, result: Outcome<string>)
    requires ReadHead(key, "protected-private-key") == Ok((s, info, lists)) && FindTimestamp(lists) == stamp
    requires UnprotectLists(lib, passphrase, key, lists) == result
    ensures Unprotect(lib, passphrase, key, wanted) ==
              if wanted && stamp.Err? then Err(stamp.error)
              else if result.Err? then Err(result.error)
              else Ok((result.value, if wanted then stamp.value else None))
  {
  }

  lemma TreeReached(algo: string, items: seq<Sexp>, rest: seq<Sexp>) returns (s: string, info: Info)
    requires Listed(algo) && algo != "" && SolidAll(items) && SolidAll(rest)
    ensures ReadHead(Text(KeyTree("protected-private-key", algo, items, rest), ""), "protected-private-key") ==
              Ok((s, info, TextAll(items, ")" + After(rest))))
  {
    var x := KeyTree("protected-private-key", algo, items, rest);
    TreeIsSolid("protected-private-key", algo, items, rest);
    assert x.items[0] == Atom("protected-private-key") && x.items[1] == AlgoList(algo, items) && x.items[2..] == rest;
    assert AlgoList(algo, items).items[0] == Atom(algo) && AlgoList(algo, items).items[1..] == items;
    var info', s', after := HeadOk(x, "", "protected-private-key");
    s, info := s', info';
  }

  /** Every canonical key whose algorithm is listed: without a protected list the expression is invalid;
      otherwise the verdict on that list counts. */
  lemma UnprotectRefuses(lib: Lib, passphrase: string, algo: string, items: seq<Sexp>, rest: seq<Sexp>, wanted: bool)
    requires Listed(algo) && algo != "" && SolidAll(items) && SolidAll(rest)
    ensures var r := Unprotect(lib, passphrase, Text(KeyTree("protected-private-key", algo, items, rest), ""), wanted);
            && (wanted && StampVerdict(items).Err? ==> r == Err(StampVerdict(items).error))
            && (!(wanted && StampVerdict(items).Err?) && Where(items).None? ==> r == Err(InvSexp))
            && (!(wanted && StampVerdict(items).Err?) && Where(items).Some? ==>
                  var v := TreeVerdict(items[Where(items).value].items[1..]);
                  && (v.Err? ==> r == Err(v.error))
                  && (v.Ok? && Decrypted(lib, passphrase, v.value).Err? ==> r == Err(Decrypted(lib, passphrase, v.value).error)))
  {
    var key, lists := Text(KeyTree("protected-private-key", algo, items, rest), ""), TextAll(items, ")" + After(rest));
    var s, info := TreeReached(algo, items, rest);
    StampFound(items, After(rest));
    WhereFound(items, After(rest));
    if Where(items).Some? {
      var i := Where(items).value;
      SplitAt(items, i);
      SolidRest(items[i].items);
      TreeParsed(items[i].items[1..], TextAll(items[i + 1..], ")" + After(rest)));
    }
    UnprotectGives(lib, passphrase, key, wanted, s, info, lists, StampVerdict(items), UnprotectLists(lib, passphrase, key, lists));
  }

  /** And what decrypts to a list of items with a digest is made into a key if and only if all items are
      names with values and the digest is that of all of them; the time stamp is taken out if it comes
      first behind the protected list. */
  lemma UnprotectDecides(lib: Lib, passphrase: string, algo: string, items: seq<Sexp>, rest: seq<Sexp>, wanted: bool,
                         pre: seq<Sexp>, seal: Sexp, extras: seq<Sexp>, p: Protection, sec: seq<Sexp>, hash: string, pad: string)
    requires Lawful(lib) && Listed(algo) && algo != "" && SolidAll(items) && SolidAll(rest) && SplitsAt(items, pre, seal, extras)
    requires TreeVerdict(seal.items[1..]) == Ok(p) && Decrypted(lib, passphrase, p) == Ok(Text(ClearTree(sec, hash), pad))
    requires SolidAll(sec) && |hash| == 20
    ensures var result := Reassembled(lib, algo, pre, sec, extras, rest, hash);
            Unprotect(lib, passphrase, Text(KeyTree("protected-private-key", algo, items, rest), ""), wanted) ==
              if wanted && StampVerdict(items).Err? then Err(StampVerdict(items).error)
              else if result.Err? then Err(result.error)
              else Ok((result.value, if wanted then StampVerdict(items).value else None))
  {
    var s, info := TreeReached(algo, items, rest);
    StampFound(items, After(rest));
    ListsOpened(lib, passphrase, algo, items, rest, pre, seal, extras, p, sec, hash, pad);
    UnprotectGives(lib, passphrase, Text(KeyTree("protected-private-key", algo, items, rest), ""), wanted, s, info,
                   TextAll(items, ")" + After(rest)), StampVerdict(items), Reassembled(lib, algo, pre, sec, extras, rest, hash));
  }

  /** A head that is wrong gives its error. */
  lemma UnprotectHead(lib: Lib, passphrase: string, x: Sexp, wanted: bool)
    requires Solid(x) && HeadVerdict(x, "protected-private-key").Err?
    ensures Unprotect(lib, passphrase, Text(x, ""), wanted) == Err(HeadVerdict(x, "protected-private-key").error)
  {
    HeadTree(x, "", "protected-private-key");
  }
}
