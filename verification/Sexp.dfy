/** Reading canonical S-expressions: common/sexp-parse.h of GnuPG.  A pointer into a text is
    modelled by what is left of the text from there on. */
module CanonicalSexp {
  import opened Wrappers
  import opened Decimals

  /** The character that a pointer looks at; behind the end it is a NUL. */
  function At(s: string): char { if s == "" then '\0' else s[0] }

  /** The pointer advanced by n. */
  function Drop(s: string, n: nat): (r: string)
    ensures n <= |s| ==> r == s[n..]
    ensures |r| <= |s| && (n > 0 && s != "" ==> |r| < |s|)
  {
    if n <= |s| then s[n..] else ""
  }

  /** The n characters at a pointer. */
  function Take(s: string, n: nat): (r: string)
    ensures n <= |s| ==> r == s[..n]
  {
    if n <= |s| then s[..n] else s
  }

  /** The characters from pointer `a` up to pointer `b` of the same text. */
  function Between(a: string, b: string): (r: string)
    ensures |b| <= |a| ==> r == a[..|a| - |b|]
  {
    if |b| <= |a| then a[..|a| - |b|] else ""
  }

  /** snext: the length of the next atom and the pointer to its first byte; 0 on error. */
  function Snext(s: string): (r: (nat, string))
    ensures r.0 > 0 ==> |r.1| < |s|
    ensures r.0 == 0 ==> r.1 == s
  {
    var k := DigitsLength(s);
    var n := Value(s[..k]);
    if n == 0 || At(s[k..]) != ':' then (0, s) else (n, s[k + 1..])
  }

  /** smatch: the pointer behind the token, if the atom of length n is that token. */
  function Smatch(s: string, n: nat, token: string): (r: Option<string>)
    ensures r.Some? ==> s == token + r.value && n == |token|
  {
    if n == |token| && token <= s then Some(s[n..]) else None
  }

  /** sskip from inside of `depth` open lists.  With `canonical` set, a length with a leading
      zero is refused, as gcry_sexp_canon_len does. */
  function Skip(s: string, depth: nat, canonical: bool): (r: Option<string>)
    ensures r.Some? ==> |r.value| <= |s|
    decreases |s|
  {
    if depth == 0 then Some(s)
    else if At(s) == '(' then Skip(s[1..], depth + 1, canonical)
    else if At(s) == ')' then Skip(s[1..], depth - 1, canonical)
    else
      var (n, rest) := Snext(s);
      if n == 0 || (canonical && At(s) == '0') then None else Skip(Drop(rest, n), depth, canonical)
  }

  function Sskip(s: string, depth: nat): Option<string> { Skip(s, depth, false) }

  /** A complete canonical list with `rest` behind it. */
  predicate Canonical(s: string, rest: string) {
    At(s) == '(' && Skip(Drop(s, 1), 1, true) == Some(rest)
  }

  // ---------------------------------------------------------------------------------
  // Writing.  Each function puts its text in front of what follows it.

  function Net(data: string, tail: string): string {
    Decimal(|data|) + (":" + (data + tail))
  }

  datatype Sexp = Atom(data: string) | List(items: seq<Sexp>)

  function Text(x: Sexp, tail: string): string
    decreases x, 0
  {
    match x
    case Atom(data) => Net(data, tail)
    case List(items) => "(" + TextAll(items, ")" + tail)
  }

  function TextAll(items: seq<Sexp>, tail: string): string
    decreases items, 1
  {
    if items == [] then tail else Text(items[0], TextAll(items[1..], tail))
  }

  /** No empty atom, which snext would take for an error. */
  predicate Solid(x: Sexp)
    decreases x, 0
  {
    match x
    case Atom(data) => data != ""
    case List(items) => SolidAll(items)
  }

  predicate SolidAll(items: seq<Sexp>)
    decreases items, 1
  {
    items == [] || (Solid(items[0]) && SolidAll(items[1..]))
  }

  // ---------------------------------------------------------------------------------
  // Reading what was written.

  lemma {:induction false} NoLeadingZero(n: nat)
    ensures IsDigit(Decimal(n)[0]) && (n > 0 ==> Decimal(n)[0] != '0')
  {
    if n >= 10 {
      NoLeadingZero(n / 10);
      assert Decimal(n)[0] == Decimal(n / 10)[0];
    }
  }

  lemma NetParts(data: string, tail: string)
    requires data != ""
    ensures Snext(Net(data, tail)) == (|data|, data + tail)
    ensures IsDigit(At(Net(data, tail))) && At(Net(data, tail)) != '0'
    ensures Drop(data + tail, |data|) == tail
    ensures Take(data + tail, |data|) == data
  {
    var digits, more := Decimal(|data|), ":" + (data + tail);
    DecimalDigits(|data|);
    DigitsStop(digits, more);
    NoLeadingZero(|data|);
    assert Net(data, tail)[..|digits|] == digits && Net(data, tail)[|digits|..] == more;
    assert Net(data, tail)[|digits| + 1..] == more[1..] == data + tail;
    assert Net(data, tail)[0] == digits[0];
  }

  lemma SkipOpen(tail: string, depth: nat, canonical: bool)
    requires depth > 0
    ensures Skip("(" + tail, depth, canonical) == Skip(tail, depth + 1, canonical)
  {
    assert ("(" + tail)[1..] == tail;
  }

  lemma SkipClose(tail: string, depth: nat, canonical: bool)
    requires depth > 0
    ensures Skip(")" + tail, depth, canonical) == Skip(tail, depth - 1, canonical)
  {
    assert (")" + tail)[1..] == tail;
  }

  lemma SkipNet(data: string, tail: string, depth: nat, canonical: bool)
    requires depth > 0 && data != ""
    ensures Skip(Net(data, tail), depth, canonical) == Skip(tail, depth, canonical)
  {
    NetParts(data, tail);
  }

  lemma {:induction false} SkipText(x: Sexp, tail: string, depth: nat, canonical: bool)
    requires depth > 0 && Solid(x)
    ensures Skip(Text(x, tail), depth, canonical) == Skip(tail, depth, canonical)
    decreases x, 0
  {
    match x
    case Atom(data) => SkipNet(data, tail, depth, canonical);
    case List(items) =>
      SkipOpen(TextAll(items, ")" + tail), depth, canonical);
      SkipTextAll(items, ")" + tail, depth + 1, canonical);
      SkipClose(tail, depth + 1, canonical);
  }

  lemma {:induction false} SkipTextAll(items: seq<Sexp>, tail: string, depth: nat, canonical: bool)
    requires depth > 0 && SolidAll(items)
    ensures Skip(TextAll(items, tail), depth, canonical) == Skip(tail, depth, canonical)
    decreases items, 1
  {
    if items != [] {
      SkipText(items[0], TextAll(items[1..], tail), depth, canonical);
      SkipTextAll(items[1..], tail, depth, canonical);
    }
  }

  /** A text in front of two pieces is the text in front of the first, and then the second. */
  lemma NetAppend(data: string, a: string, b: string)
    ensures Net(data, a + b) == Net(data, a) + b
  {
    var d := Decimal(|data|);
    assert data + (a + b) == (data + a) + b;
    assert ":" + ((data + a) + b) == (":" + (data + a)) + b;
    assert d + ((":" + (data + a)) + b) == (d + (":" + (data + a))) + b;
  }

  lemma {:induction false} TextAppend(x: Sexp, a: string, b: string)
    ensures Text(x, a + b) == Text(x, a) + b
    decreases x, 0
  {
    match x
    case Atom(data) => NetAppend(data, a, b);
    case List(items) =>
      assert ")" + (a + b) == (")" + a) + b;
      TextAllAppend(items, ")" + a, b);
      assert "(" + (TextAll(items, ")" + a) + b) == ("(" + TextAll(items, ")" + a)) + b;
  }

  lemma {:induction false} TextAllAppend(items: seq<Sexp>, a: string, b: string)
    ensures TextAll(items, a + b) == TextAll(items, a) + b
    decreases items, 1
  {
    if items != [] {
      TextAllAppend(items[1..], a, b);
      TextAppend(items[0], TextAll(items[1..], a), b);
    }
  }

  /** A written list is read as one canonical list. */
  lemma ListIsCanonical(items: seq<Sexp>, tail: string)
    requires SolidAll(items)
    ensures Canonical(Text(List(items), tail), tail)
    ensures Sskip(Drop(Text(List(items), tail), 1), 1) == Some(tail)
  {
    var body := TextAll(items, ")" + tail);
    assert ("(" + body)[1..] == body;
    SkipTextAll(items, ")" + tail, 1, true);
    SkipClose(tail, 1, true);
    SkipTextAll(items, ")" + tail, 1, false);
    SkipClose(tail, 1, false);
  }
}
