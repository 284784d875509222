/** Protected keys as S-expressions (cns/gnupg-2.0.22/agent/keyformat.txt): what agent_protect
    writes, and what agent_unprotect makes of any key of that shape. */
module ProtectFormat {
  import opened Wrappers
  import opened Decimals
  import opened CanonicalSexp
  import opened KeyProtection
  import opened ProtectRoundTrip
  import S2k
  import Powers

  // ---------------------------------------------------------------------------------
  // The expressions.

  function ParamSexp(p: Param): Sexp { List([Atom(p.name), Atom(p.value)]) }

  function Lists(ps: seq<Param>): seq<Sexp> {
    if ps == [] then [] else [ParamSexp(ps[0])] + Lists(ps[1..])
  }

  /** The list of the algorithm with its parameters and what follows them. */
  function AlgoSexp(algo: string, ps: seq<Param>, more: seq<Sexp>): Sexp { List([Atom(algo)] + (Lists(ps) + more)) }

  function KeySexp(k: Key): Sexp { List([Atom("private-key"), AlgoSexp(k.algo, k.pub + k.sec, [])] + k.rest) }

  /** The atoms of a protected list, whatever they are. */
  datatype Seal = Seal(mode: string, hashName: string, salt: string, count: string, iv: string, data: string)

  function SealSexp(e: Seal): Sexp {
    List([Atom("protected"), Atom(e.mode),
          List([List([Atom(e.hashName), Atom(e.salt), Atom(e.count)]), Atom(e.iv)]), Atom(e.data)])
  }

  /** A time stamp as one more parameter. */
  function Stamps(at: Option<string>): seq<Param> { if at.None? then [] else [Param("protected-at", at.value)] }

  function ProtectedSexp(k: Key, e: Seal, at: Option<string>): Sexp {
    List([Atom("protected-private-key"), AlgoSexp(k.algo, k.pub, [SealSexp(e)] + Lists(Stamps(at)))] + k.rest)
  }

  /** What is hashed for the integrity code. */
  function HashedSexp(k: Key, at: Option<string>): Sexp { AlgoSexp(k.algo, k.pub + k.sec + Stamps(at), []) }

  /** What is encrypted. */
  function ClearSexp(sec: seq<Param>, hash: string): Sexp {
    List([List(Lists(sec)), List([Atom("hash"), Atom("sha1"), Atom(hash)])])
  }

  // ---------------------------------------------------------------------------------
  // Their texts.

  lemma TextCons(x: Sexp, items: seq<Sexp>, tail: string)
    ensures TextAll([x] + items, tail) == Text(x, TextAll(items, tail))
  {
    assert ([x] + items)[0] == x && ([x] + items)[1..] == items;
  }

  lemma TextOne(a: Sexp, tail: string)
    ensures TextAll([a], tail) == Text(a, tail)
  {
    TextCons(a, [], tail);
    assert [a] + [] == [a];
  }

  lemma TextTwo(a: Sexp, b: Sexp, tail: string)
    ensures TextAll([a, b], tail) == Text(a, Text(b, tail))
  {
    TextOne(b, tail);
    TextCons(a, [b], tail);
    assert [a] + [b] == [a, b];
  }

  lemma TextThree(a: Sexp, b: Sexp, c: Sexp, tail: string)
    ensures TextAll([a, b, c], tail) == Text(a, Text(b, Text(c, tail)))
  {
    TextTwo(b, c, tail);
    TextCons(a, [b, c], tail);
    assert [a] + [b, c] == [a, b, c];
  }

  lemma TextFour(a: Sexp, b: Sexp, c: Sexp, d: Sexp, tail: string)
    ensures TextAll([a, b, c, d], tail) == Text(a, Text(b, Text(c, Text(d, tail))))
  {
    TextThree(b, c, d, tail);
    TextCons(a, [b, c, d], tail);
    assert [a] + [b, c, d] == [a, b, c, d];
  }

  lemma {:induction false} TextAllSplit(a: seq<Sexp>, b: seq<Sexp>, tail: string)
    ensures TextAll(a + b, tail) == TextAll(a, TextAll(b, tail))
  {
    if a == [] {
      assert a + b == b;
    } else {
      assert (a + b)[0] == a[0] && (a + b)[1..] == a[1..] + b;
      TextAllSplit(a[1..], b, tail);
    }
  }

  lemma PairText(p: Param, tail: string)
    ensures Text(ParamSexp(p), tail) == Pair(p, tail)
  {
    TextTwo(Atom(p.name), Atom(p.value), ")" + tail);
  }

  lemma {:induction false} ListsText(ps: seq<Param>, tail: string)
    ensures TextAll(Lists(ps), tail) == Pairs(ps, tail)
  {
    if ps != [] {
      TextCons(ParamSexp(ps[0]), Lists(ps[1..]), tail);
      PairText(ps[0], TextAll(Lists(ps[1..]), tail));
      ListsText(ps[1..], tail);
    }
  }

  lemma AlgoSexpText(algo: string, ps: seq<Param>, more: seq<Sexp>, tail: string)
    ensures Text(AlgoSexp(algo, ps, more), tail) == AlgoText(algo, ps, TextAll(more, ")" + tail))
  {
    TextCons(Atom(algo), Lists(ps) + more, ")" + tail);
    TextAllSplit(Lists(ps), more, ")" + tail);
    ListsText(ps, TextAll(more, ")" + tail));
  }

  lemma OuterText(token: string, x: Sexp, rest: seq<Sexp>, tail: string)
    ensures Text(List([Atom(token), x] + rest), tail) == "(" + Net(token, Text(x, TextAll(rest, ")" + tail)))
  {
    TextAllSplit([Atom(token), x], rest, ")" + tail);
    TextTwo(Atom(token), x, TextAll(rest, ")" + tail));
  }

  lemma KeySexpText(k: Key, tail: string)
    ensures Text(KeySexp(k), tail) == KeyText(k, tail)
  {
    OuterText("private-key", AlgoSexp(k.algo, k.pub + k.sec, []), k.rest, tail);
    AlgoSexpText(k.algo, k.pub + k.sec, [], TextAll(k.rest, ")" + tail));
  }

  lemma HashedText(k: Key, at: Option<string>)
    ensures Text(HashedSexp(k, at), "") == AlgoText(k.algo, k.pub + k.sec + Stamps(at), ")")
  {
    AlgoSexpText(k.algo, k.pub + k.sec + Stamps(at), [], "");
    assert ")" + "" == ")";
  }

  lemma ClearText(sec: seq<Param>, hash: string, tail: string)
    ensures Text(ClearSexp(sec, hash), tail) == Cleartext(sec, hash, tail)
  {
    var mic := List([Atom("hash"), Atom("sha1"), Atom(hash)]);
    TextTwo(List(Lists(sec)), mic, ")" + tail);
    TextThree(Atom("hash"), Atom("sha1"), Atom(hash), ")" + (")" + tail));
    ListsText(sec, ")" + Text(mic, ")" + tail));
  }

  /** The protected list behind its first atom. */
  function SealBody(e: Seal, tail: string): string {
    Net(e.mode, "(" + ("(" + Net(e.hashName, Net(e.salt, Net(e.count, ")" + Net(e.iv, ")" + Net(e.data, tail)))))))
  }

  lemma SealText(e: Seal, tail: string)
    ensures Text(SealSexp(e), tail) == "(" + Net("protected", SealBody(e, ")" + tail))
  {
    var inner := List([Atom(e.hashName), Atom(e.salt), Atom(e.count)]);
    var s := Net(e.data, ")" + tail);
    TextFour(Atom("protected"), Atom(e.mode), List([inner, Atom(e.iv)]), Atom(e.data), ")" + tail);
    TextTwo(inner, Atom(e.iv), ")" + s);
    TextThree(Atom(e.hashName), Atom(e.salt), Atom(e.count), ")" + Net(e.iv, ")" + s));
  }

  /** What follows the protected list. */
  function Behind(k: Key, at: Option<string>): string { Pairs(Stamps(at), EndText(k, "")) }

  lemma ProtectedSexpText(k: Key, e: Seal, at: Option<string>)
    ensures Text(ProtectedSexp(k, e, at), "") ==
              "(" + Net("protected-private-key", AlgoText(k.algo, k.pub, Text(SealSexp(e), Behind(k, at))))
  {
    var more := [SealSexp(e)] + Lists(Stamps(at));
    var end := TextAll(k.rest, ")" + "");
    OuterText("protected-private-key", AlgoSexp(k.algo, k.pub, more), k.rest, "");
    AlgoSexpText(k.algo, k.pub, more, end);
    TextCons(SealSexp(e), Lists(Stamps(at)), ")" + end);
    ListsText(Stamps(at), ")" + end);
  }

  // ---------------------------------------------------------------------------------
  // Keys made of passphrases: section 3.7.1.3 of RFC 4880.

  /** The salt and the passphrase over and over: `count` bytes, but both at least once. */
  predicate Salted(stream: string, salt: string, count: nat, passphrase: string) {
    && |salt| == 8
    && |stream| == (if count < 8 + |passphrase| then 8 + |passphrase| else count)
    && forall i | 0 <= i < |stream| :: stream[i] == (salt + passphrase)[i % (8 + |passphrase|)]
  }

  /** The key is the first sixteen bytes of the digest of that. */
  ghost predicate Derives(lib: Lib, salt: string, count: nat, passphrase: string, key: string) {
    exists stream :: Salted(stream, salt, count, passphrase) && |lib.sha1(stream)| == 20 && key == lib.sha1(stream)[..16]
  }

  lemma SaltedIs(stream: string, salt: string, count: nat, passphrase: string)
    requires |salt| == 8
    ensures Salted(stream, salt, count, passphrase) <==> stream == S2k.Stream(3, salt, count, passphrase, 0)
  {
    var unit, n := salt + passphrase, S2k.Max(count, 8 + |passphrase|);
    var r := S2k.Repeated(unit, n);
    assert S2k.Stream(3, salt, count, passphrase, 0) == r;
    assert |r| == n;
    assert forall i | 0 <= i < n :: r[i] == unit[i % |unit|];
    if Salted(stream, salt, count, passphrase) {
      assert |stream| == n;
      assert forall i | 0 <= i < n :: stream[i] == r[i];
      assert stream == r;
    }
  }

  lemma KeyByteIs(hash: string -> string, salt: string, count: nat, passphrase: string, j: nat)
    requires j < 16 && |hash(S2k.Stream(3, salt, count, passphrase, 0))| == 20
    ensures S2k.KeyByte(hash, 20, 3, salt, count, passphrase, j) == hash(S2k.Stream(3, salt, count, passphrase, 0))[j]
  {
    assert j / 20 == 0 && j % 20 == j;
  }

  lemma KeyBytes(hash: string -> string, salt: string, count: nat, passphrase: string)
    requires |hash(S2k.Stream(3, salt, count, passphrase, 0))| == 20
    ensures S2k.Key(hash, 20, 3, salt, count, passphrase, 16) == hash(S2k.Stream(3, salt, count, passphrase, 0))[..16]
  {
    var key, digest := S2k.Key(hash, 20, 3, salt, count, passphrase, 16), hash(S2k.Stream(3, salt, count, passphrase, 0));
    forall j | 0 <= j < 16 ensures key[j] == digest[j] {
      KeyByteIs(hash, salt, count, passphrase, j);
    }
  }

  lemma DigestLength(lib: Lib, data: string)
    requires Lawful(lib)
    ensures |lib.sha1(data)| == 20
  {
  }

  /** Exactly the session key is derived. */
  lemma SessionKeyIs(lib: Lib, salt: string, count: nat, passphrase: string, key: string)
    requires Lawful(lib) && |salt| == 8
    ensures Derives(lib, salt, count, passphrase, key) <==> key == SessionKey(lib, salt, count, passphrase)
  {
    var stream := S2k.Stream(3, salt, count, passphrase, 0);
    SaltedIs(stream, salt, count, passphrase);
    DigestLength(lib, stream);
    KeyBytes(lib.sha1, salt, count, passphrase);
    if Derives(lib, salt, count, passphrase, key) {
      var other :| Salted(other, salt, count, passphrase) && |lib.sha1(other)| == 20 && key == lib.sha1(other)[..16];
      SaltedIs(other, salt, count, passphrase);
    }
  }

  // ---------------------------------------------------------------------------------
  // What agent_protect writes.

  function Sealing(nonce: Nonce, count: nat, data: string): Seal {
    Seal("openpgp-s2k3-sha1-aes-cbc", "sha1", nonce.salt, Decimal(count), nonce.iv, data)
  }

  lemma SealingBody(nonce: Nonce, count: nat, data: string, tail: string)
    ensures SealBody(Sealing(nonce, count, data), tail) == Protected(nonce.salt, count, nonce.iv, data, tail)
  {
    TwoOpen(Net("sha1", Net(nonce.salt, Net(Decimal(count), ")" + Net(nonce.iv, ")" + Net(data, tail))))));
  }

  lemma SealingText(k: Key, nonce: Nonce, count: nat, data: string, at: string)
    requires NonceOk(nonce)
    ensures ProtectedText(k, Protection(nonce.salt, count, nonce.iv, data), at) ==
              Text(ProtectedSexp(k, Sealing(nonce, count, data), Some(at)), "")
  {
    var e := Sealing(nonce, count, data);
    var t := Pair(Stamp(at), EndText(k, ""));
    ProtectedSexpText(k, e, Some(at));
    SealText(e, t);
    OneStamp(at, EndText(k, ""));
    ListText(nonce.salt, count, nonce.iv, data, t);
    SealingBody(nonce, count, data, ")" + t);
  }

  lemma OneStamp(at: string, tail: string)
    ensures Pairs(Stamps(Some(at)), tail) == Pair(Stamp(at), tail)
  {
    var one := Stamps(Some(at));
    assert one[0] == Stamp(at) && one[1..] == [];
  }

  lemma EncryptedIs(lib: Lib, nonce: Nonce, count: nat, passphrase: string, sec: seq<Param>, hash: string, n: nat)
    requires |hash| == 20 && |nonce.pad| == 16 && n == EncLen(|Pairs(sec, "")|) - (|Pairs(sec, "")| + 41)
    ensures 1 <= n <= 16 && |Text(ClearSexp(sec, hash), nonce.pad[..n])| % 16 == 0
    ensures Encrypted(lib, nonce, count, passphrase, Pairs(sec, ""), hash) ==
              lib.encrypt(SessionKey(lib, nonce.salt, count, passphrase), nonce.iv, Text(ClearSexp(sec, hash), nonce.pad[..n]))
  {
    var block := Pairs(sec, "");
    PaddingFits(block, hash, nonce.pad);
    PadLength(|block|);
    PlaintextText(sec, hash, nonce.pad[..n]);
    ClearText(sec, hash, nonce.pad[..n]);
  }

  /** A key is encrypted under the passphrase it is given: the secret parameters and the digest
      of all parameters and the time stamp, with one to sixteen random bytes behind them that
      fill the last block.  The public parameters and everything else stay in the clear. */
  lemma ProtectWrites(lib: Lib, nonce: Nonce, count: nat, at: string, passphrase: string, k: Key, junk: string)
      returns (key: string, n: nat)
    requires Lawful(lib) && NonceOk(nonce) && |at| == 15 && WellFormed(k)
    ensures Derives(lib, nonce.salt, count, passphrase, key)
    ensures 1 <= n <= 16
    ensures var plain := Text(ClearSexp(k.sec, lib.sha1(Text(HashedSexp(k, Some(at)), ""))), nonce.pad[..n]);
            && |plain| % 16 == 0
            && Protect(lib, nonce, count, at, passphrase, Text(KeySexp(k), junk)) ==
                 Ok(Text(ProtectedSexp(k, Sealing(nonce, count, lib.encrypt(key, nonce.iv, plain)), Some(at)), ""))
  {
    var j :| 0 <= j < |Table| && Fits(k, Table[j]);
    var hash := lib.sha1(MicText(k, at));
    HashedText(k, Some(at));
    DigestLength(lib, MicText(k, at));
    KeySexpText(k, junk);
    ProtectResult(lib, nonce, count, at, passphrase, k, Table[j], junk);
    key := SessionKey(lib, nonce.salt, count, passphrase);
    SessionKeyIs(lib, nonce.salt, count, passphrase, key);
    n := EncLen(|Pairs(k.sec, "")|) - (|Pairs(k.sec, "")| + 41);
    PadLength(|Pairs(k.sec, "")|);
    EncryptedIs(lib, nonce, count, passphrase, k.sec, hash, n);
    SealingText(k, nonce, count, lib.encrypt(key, nonce.iv, Text(ClearSexp(k.sec, hash), nonce.pad[..n])), at);
  }

  lemma PadLength(m: nat)
    ensures 1 <= EncLen(m) - (m + 41) <= 16
  {
  }

  // ---------------------------------------------------------------------------------
  // What agent_unprotect reads in a protected list.

  predicate IsNumber(s: string) { s != "" && forall i | 0 <= i < |s| :: IsDigit(s[i]) }

  /** Atoms that can be read, and a count in digits. */
  predicate SealOk(e: Seal) {
    e.mode != "" && e.hashName != "" && e.salt != "" && IsNumber(e.count) && e.iv != "" && e.data != ""
  }

  /** Counts below 256 are the one-byte numbers of section 3.7.1.3 of RFC 4880; those that stand
      for 65536 or more are 96 and above. */
  predicate CountAccepted(c: nat) { 96 <= c < 256 || 65536 <= c }

  function CountMeant(c: nat): nat { if c < 256 then (16 + c % 16) * Powers.Pow2(c / 16 + 6) else c }

  /** The verdict on a protected list, by its atoms alone. */
  function SealVerdict(e: Seal): Outcome<Protection>
    requires SealOk(e)
  {
    if e.mode != "openpgp-s2k3-sha1-aes-cbc" || e.hashName != "sha1" then Err(UnsupportedProtection)
    else if |e.salt| != 8 || !CountAccepted(Value(e.count)) || |e.iv| != 16 then Err(CorruptedProtection)
    else Ok(Protection(e.salt, CountMeant(Value(e.count)), e.iv, e.data))
  }

  lemma Powers12(n: nat)
    ensures n >= 12 ==> Powers.Pow2(n) >= 4096
    ensures n <= 11 ==> Powers.Pow2(n) <= 2048
  {
    if n > 12 {
      Powers12(n - 1);
    } else {
      assert Powers.Pow2(4) == 16;
      assert Powers.Pow2(8) == 256;
      assert Powers.Pow2(11) == 2048;
    }
  }

  lemma CountDecides(c: nat)
    ensures c != 0 && S2kCount(c) >= 65536 <==> CountAccepted(c)
    ensures CountAccepted(c) ==> S2kCount(c) == CountMeant(c)
  {
    if c < 256 {
      var m, e := 16 + c % 16, c / 16 + 6;
      Powers12(e);
      if c >= 96 {
        Products(16, m, 4096, Powers.Pow2(e));
      } else {
        Products(m, 31, Powers.Pow2(e), 2048);
      }
    }
  }

  lemma Products(a: nat, b: nat, x: nat, y: nat)
    requires a <= b && x <= y
    ensures a * x <= b * y
  {
  }

  lemma NumberRead(s: string, tail: string)
    requires IsNumber(s)
    ensures Strtoul(s + (")" + tail)) == Value(s)
  {
    DigitsStop(s, ")" + tail);
    assert (s + (")" + tail))[..|s|] == s;
  }

  lemma CountParsed(s: string, tail: string)
    requires IsNumber(s)
    ensures ParseCount(Net(s, ")" + tail)) ==
              if CountAccepted(Value(s)) then Ok((CountMeant(Value(s)), tail)) else Err(CorruptedProtection)
  {
    NetParts(s, ")" + tail);
    Opened(tail);
    NumberRead(s, tail);
    CountDecides(Value(s));
  }

  lemma ModeRefused(mode: string, s: string)
    requires mode != "" && mode != Mode
    ensures ParseMode(Net(mode, s)) == Err(UnsupportedProtection)
  {
    NetParts(mode, s);
    OtherName(mode, s, Mode);
  }

  lemma ModeParsed(mode: string, tail: string)
    requires mode != ""
    ensures ParseMode(Net(mode, "(" + ("(" + tail))) ==
              if mode == "openpgp-s2k3-sha1-aes-cbc" then Ok(tail) else Err(UnsupportedProtection)
  {
    if mode != Mode {
      ModeRefused(mode, "(" + ("(" + tail));
    } else {
      ModeRead(tail);
      TwoOpen(tail);
    }
  }

  lemma TwoOpen(tail: string)
    ensures "(" + ("(" + tail) == "((" + tail
  {
  }

  lemma SaltParsed(hashName: string, salt: string, tail: string)
    requires hashName != "" && salt != ""
    ensures ParseSalt(Net(hashName, Net(salt, tail))) ==
              if hashName != "sha1" then Err(UnsupportedProtection)
              else if |salt| != 8 then Err(CorruptedProtection) else Ok((salt, tail))
  {
    NetParts(hashName, Net(salt, tail));
    NetParts(salt, tail);
    if hashName == "sha1" {
      TokenMatches("sha1", Net(salt, tail));
    } else {
      OtherName(hashName, Net(salt, tail), "sha1");
    }
  }

  lemma DataParsed(iv: string, data: string, tail: string)
    requires iv != "" && data != ""
    ensures ParseData(Net(iv, ")" + Net(data, tail))) ==
              if |iv| != 16 then Err(CorruptedProtection) else Ok((iv, data))
  {
    if |iv| == 16 {
      DataRead(iv, data, tail);
    } else {
      NetParts(iv, ")" + Net(data, tail));
    }
  }

  /** Whatever the atoms of a protected list are, this is the verdict on it. */
  lemma SealParsed(e: Seal, tail: string)
    requires SealOk(e)
    ensures ParseProtection(SealBody(e, tail)) == SealVerdict(e)
  {
    var s2 := Net(e.iv, ")" + Net(e.data, tail));
    var s1 := Net(e.count, ")" + s2);
    ModeParsed(e.mode, Net(e.hashName, Net(e.salt, s1)));
    SaltParsed(e.hashName, e.salt, s1);
    CountParsed(e.count, s2);
    DataParsed(e.iv, e.data, tail);
  }

  // ---------------------------------------------------------------------------------
  // Finding the lists.

  lemma {:induction false} SolidLists(ps: seq<Param>)
    requires SolidPairs(ps)
    ensures SolidAll(Lists(ps))
  {
    if ps != [] {
      SolidTwo(Atom(ps[0].name), Atom(ps[0].value));
      SolidLists(ps[1..]);
      SolidMore(ParamSexp(ps[0]), Lists(ps[1..]));
    }
  }

  lemma SolidTwo(a: Sexp, b: Sexp)
    requires Solid(a) && Solid(b)
    ensures SolidAll([a, b])
  {
    SolidOne(b);
    SolidMore(a, [b]);
    assert [a] + [b] == [a, b];
  }

  lemma SolidThree(a: Sexp, b: Sexp, c: Sexp)
    requires Solid(a) && Solid(b) && Solid(c)
    ensures SolidAll([a, b, c])
  {
    SolidTwo(b, c);
    SolidMore(a, [b, c]);
    assert [a] + [b, c] == [a, b, c];
  }

  lemma {:induction false} SolidAppend(a: seq<Sexp>, b: seq<Sexp>)
    requires SolidAll(a) && SolidAll(b)
    ensures SolidAll(a + b)
  {
    if a == [] {
      assert a + b == b;
    } else {
      SolidAppend(a[1..], b);
      SolidMore(a[0], a[1..] + b);
      assert [a[0]] + (a[1..] + b) == a + b;
    }
  }

  lemma SealSolid(e: Seal)
    requires SealOk(e)
    ensures Solid(SealSexp(e))
  {
    var inner := List([Atom(e.hashName), Atom(e.salt), Atom(e.count)]);
    SolidThree(Atom(e.hashName), Atom(e.salt), Atom(e.count));
    SolidTwo(inner, Atom(e.iv));
    var outer := List([inner, Atom(e.iv)]);
    SolidThree(Atom(e.mode), outer, Atom(e.data));
    SolidMore(Atom("protected"), [Atom(e.mode), outer, Atom(e.data)]);
    assert [Atom("protected")] + [Atom(e.mode), outer, Atom(e.data)] == [Atom("protected"), Atom(e.mode), outer, Atom(e.data)];
  }

  /** A key whose algorithm is in the table, with public parameters that are not taken for one
      of the two lists that are looked for. */
  predicate Readable(k: Key) {
    && (exists j :: 0 <= j < |Table| && Table[j].algo == k.algo)
    && SolidPairs(k.pub) && NotNamed(k.pub, "protected") && NotNamed(k.pub, "protected-at") && SolidAll(k.rest)
  }

  /** No time stamp or one that can be read. */
  predicate StampOk(at: Option<string>) { at.Some? ==> at.value != "" }

  lemma SealSkipped(e: Seal, tail: string, canonical: bool, depth: nat)
    requires SealOk(e) && depth > 0
    ensures Skip(Text(SealSexp(e), tail), depth, canonical) == Skip(tail, depth, canonical)
    ensures Sskip(Drop(Text(SealSexp(e), tail), 1), 1) == Some(tail)
    ensures At(Text(SealSexp(e), tail)) == '('
  {
    SealSolid(e);
    SkipText(SealSexp(e), tail, depth, canonical);
    ListIsCanonical(SealSexp(e).items, tail);
  }

  lemma BehindSkipped(k: Key, at: Option<string>, canonical: bool)
    requires StampOk(at) && SolidAll(k.rest)
    ensures Skip(Behind(k, at), 2, canonical) == Some("")
  {
    EndSkipped(k, "");
    SkipAllPairs(Stamps(at), EndText(k, ""), 2, canonical);
  }

  /** The search for the time stamp. */
  lemma StampSearched(k: Key, e: Seal, at: Option<string>)
    requires SealOk(e) && StampOk(at)
    ensures FindTimestamp(Text(SealSexp(e), Behind(k, at))) ==
              if at.Some? && |at.value| != 15 then Err(UnknownSexp) else Ok(at)
  {
    var next := Behind(k, at);
    var s := SealBody(e, ")" + next);
    SealText(e, next);
    Opened(Net("protected", s));
    NetParts("protected", s);
    OtherName("protected", s, "protected-at");
    SealSkipped(e, next, false, 1);
    SkipNet("protected", s, 1, false);
    StampRead(k, at);
  }

  lemma StampRead(k: Key, at: Option<string>)
    requires StampOk(at)
    ensures FindTimestamp(Behind(k, at)) == if at.Some? && |at.value| != 15 then Err(UnknownSexp) else Ok(at)
  {
    var end := EndText(k, "");
    if at.Some? {
      OneStamp(at.value, end);
      PairReads(Stamp(at.value), end);
      TokenMatches("protected-at", Net(at.value, ")" + end));
      NetParts(at.value, ")" + end);
    } else {
      Opened(TextAll(k.rest, ")" + ""));
    }
  }

  /** The way to the protected list and through it. */
  lemma SealReached(k: Key, e: Seal, at: Option<string>)
    requires Readable(k) && SealOk(e) && StampOk(at)
    ensures var begin := Text(SealSexp(e), Behind(k, at)); var lists := Pairs(k.pub, begin);
            && ReadHead(Text(ProtectedSexp(k, e, at), ""), "protected-private-key").Ok?
            && ReadHead(Text(ProtectedSexp(k, e, at), ""), "protected-private-key").value.2 == lists
            && FindProtected(lists) == Ok((begin, SealBody(e, ")" + Behind(k, at))))
            && ParseProtection(SealBody(e, ")" + Behind(k, at))) == SealVerdict(e)
            && FindTimestamp(lists) == if at.Some? && |at.value| != 15 then Err(UnknownSexp) else Ok(at)
  {
    var begin := Text(SealSexp(e), Behind(k, at));
    var j :| 0 <= j < |Table| && Table[j].algo == k.algo;
    ProtectedSexpText(k, e, at);
    HeadRead("protected-private-key", Table[j], k.pub, begin);
    PastPublic(k.pub, begin);
    SealText(e, Behind(k, at));
    ListFound(SealBody(e, ")" + Behind(k, at)));
    SealParsed(e, ")" + Behind(k, at));
    StampSearched(k, e, at);
  }

  // ---------------------------------------------------------------------------------
  // The verdicts of agent_unprotect.

  lemma ReachedGives(lib: Lib, passphrase: string, key: string, wanted: bool, lists: string, begin: string, s: string,
                     v: Outcome<Protection>, stamp: Outcome<Option<string>>)
    requires ReadHead(key, "protected-private-key").Ok? && ReadHead(key, "protected-private-key").value.2 == lists
    requires FindProtected(lists) == Ok((begin, s)) && ParseProtection(s) == v && FindTimestamp(lists) == stamp
    ensures wanted && stamp.Err? ==> Unprotect(lib, passphrase, key, wanted) == Err(stamp.error)
    ensures !(wanted && stamp.Err?) && v.Err? ==> Unprotect(lib, passphrase, key, wanted) == Err(v.error)
    ensures !(wanted && stamp.Err?) && v.Ok? && Decrypted(lib, passphrase, v.value).Err? ==>
              Unprotect(lib, passphrase, key, wanted) == Err(Decrypted(lib, passphrase, v.value).error)
  {
  }

  /** What cannot be the encryption of a list: neither of the first two bytes opens one, or the
      first list does not end in the last block. */
  predicate NoList(lib: Lib, out: string, n: nat) {
    || (At(out) != '(' && At(Drop(out, 1)) != '(')
    || lib.canonLen(out) == 0 || lib.canonLen(out) + 16 < n
  }

  /** The errors of agent_unprotect up to the decryption, in the order of the tests. */
  lemma Refused(lib: Lib, passphrase: string, k: Key, e: Seal, at: Option<string>, wanted: bool, key: string)
    requires Lawful(lib) && Readable(k) && SealOk(e) && StampOk(at)
    requires |e.salt| == 8 ==> Derives(lib, e.salt, CountMeant(Value(e.count)), passphrase, key)
    ensures var r := Unprotect(lib, passphrase, Text(ProtectedSexp(k, e, at), ""), wanted);
            && (wanted && at.Some? && |at.value| != 15 ==> r == Err(UnknownSexp))
            && (!(wanted && at.Some? && |at.value| != 15) && SealVerdict(e).Err? ==> r == Err(SealVerdict(e).error))
            && (!(wanted && at.Some? && |at.value| != 15) && SealVerdict(e).Ok? ==>
                  && (|e.data| % 16 != 0 ==> r == Err(CorruptedProtection))
                  && (|e.data| % 16 == 0 && NoList(lib, lib.decrypt(key, e.iv, e.data), |e.data|) ==> r == Err(BadPassphrase)))
  {
    var begin := Text(SealSexp(e), Behind(k, at));
    var s := SealBody(e, ")" + Behind(k, at));
    SealReached(k, e, at);
    ReachedGives(lib, passphrase, Text(ProtectedSexp(k, e, at), ""), wanted, Pairs(k.pub, begin), begin, s, SealVerdict(e),
                 if at.Some? && |at.value| != 15 then Err(UnknownSexp) else Ok(at));
    if SealVerdict(e).Ok? {
      SessionKeyIs(lib, e.salt, CountMeant(Value(e.count)), passphrase, key);
      DecryptedIs(lib, passphrase, SealVerdict(e).value, key);
    }
  }

  lemma DecryptedIs(lib: Lib, passphrase: string, p: Protection, key: string)
    requires key == SessionKey(lib, p.salt, p.count, passphrase) && p.data != ""
    ensures |p.data| % 16 != 0 ==> Decrypted(lib, passphrase, p) == Err(CorruptedProtection)
    ensures |p.data| % 16 == 0 && NoList(lib, lib.decrypt(key, p.iv, p.data), |p.data|) ==> Decrypted(lib, passphrase, p) == Err(BadPassphrase)
    ensures |p.data| % 16 == 0 && !NoList(lib, lib.decrypt(key, p.iv, p.data), |p.data|) ==> Decrypted(lib, passphrase, p) == Ok(lib.decrypt(key, p.iv, p.data))
  {
  }

  // ---------------------------------------------------------------------------------
  // Putting the parts together again.

  /** The merged list. */
  function MergedText(k: Key, at: Option<string>): string { Front(k) + Behind(k, at) }

  function CutText(at: Option<string>): string { Pairs(Stamps(at), "") }

  lemma CutLengthIs(k: Key, at: Option<string>)
    requires StampOk(at)
    ensures CutLength(Behind(k, at)) == Some(|CutText(at)|) && Behind(k, at) == CutText(at) + EndText(k, "")
    ensures |CutText(at)| == 0 <==> at.None?
  {
    var end := EndText(k, "");
    PairsBetween(Stamps(at), end);
    if at.None? {
      Opened(TextAll(k.rest, ")" + ""));
    } else {
      OneStamp(at.value, end);
      PairReads(Stamp(at.value), end);
      TokenMatches("protected-at", Net(at.value, ")" + end));
      SkipNet(at.value, ")" + end, 1, false);
      SkipClose(end, 1, false);
      OneStamp(at.value, "");
    }
  }

  lemma RestIs(front: string, hash: string, k: Key, e: Seal, at: Option<string>)
    requires SealOk(e) && StampOk(at) && SolidAll(k.rest)
    ensures MergeRest(front, hash, Text(SealSexp(e), Behind(k, at))) ==
              Ok(Merged(front + Behind(k, at), hash, if at.Some? then |front| else 0, |CutText(at)|))
  {
    var t := Behind(k, at);
    SealSkipped(e, t, false, 1);
    CutLengthIs(k, at);
    BehindSkipped(k, at, false);
    assert Between(t, "") == t;
  }

  lemma ProtectedSolid(k: Key, e: Seal, at: Option<string>)
    requires SealOk(e) && StampOk(at) && k.algo != "" && SolidPairs(k.pub) && SolidAll(k.rest)
    ensures SolidAll(ProtectedSexp(k, e, at).items)
  {
    var more := [SealSexp(e)] + Lists(Stamps(at));
    SealSolid(e);
    SolidLists(Stamps(at));
    SolidMore(SealSexp(e), Lists(Stamps(at)));
    SolidLists(k.pub);
    SolidAppend(Lists(k.pub), more);
    SolidMore(Atom(k.algo), Lists(k.pub) + more);
    SolidTwo(Atom("protected-private-key"), AlgoSexp(k.algo, k.pub, more));
    SolidAppend([Atom("protected-private-key"), AlgoSexp(k.algo, k.pub, more)], k.rest);
  }

  lemma ProtectedMeasured(lib: Lib, k: Key, e: Seal, at: Option<string>)
    requires Lawful(lib) && SealOk(e) && StampOk(at) && k.algo != "" && SolidPairs(k.pub) && SolidAll(k.rest)
    ensures lib.canonLen(Text(ProtectedSexp(k, e, at), "")) > 0
  {
    ProtectedSolid(k, e, at);
    ListIsCanonical(ProtectedSexp(k, e, at).items, "");
    LengthKnown(lib, Text(ProtectedSexp(k, e, at), ""), "");
  }

  lemma MergedIs(lib: Lib, k: Key, e: Seal, at: Option<string>, hash: string, pad: string)
    requires Lawful(lib) && SealOk(e) && StampOk(at) && |hash| == 20
    requires k.algo != "" && SolidPairs(k.pub) && SolidPairs(k.sec) && SolidAll(k.rest)
    ensures Merge(lib, Text(ProtectedSexp(k, e, at), ""), Text(SealSexp(e), Behind(k, at)), Cleartext(k.sec, hash, pad)) ==
              Ok(Merged(MergedText(k, at), hash, if at.Some? then |Front(k)| else 0, |CutText(at)|))
  {
    var begin, end := Text(SealSexp(e), Behind(k, at)), ")" + MicList(hash, ")" + pad);
    var clear := Cleartext(k.sec, hash, pad);
    ProtectedMeasured(lib, k, e, at);
    ProtectedSexpText(k, e, at);
    KeyFront(k, begin);
    CleartextIsCanonical(k.sec, hash, pad);
    LengthKnown(lib, clear, pad);
    CleartextRead(k.sec, hash, pad);
    MergeIs(lib, Text(ProtectedSexp(k, e, at), ""), begin, clear, Pairs(k.sec, end), end, hash);
    RestIs(Front(k), hash, k, e, at);
  }

  lemma MicOfList(lib: Lib, algo: string, ps: seq<Param>, more: string)
    requires algo != "" && SolidPairs(ps)
    ensures Mic(lib, "(" + Net("private-key", AlgoText(algo, ps, ")" + more))) == Ok(lib.sha1(AlgoText(algo, ps, ")")))
  {
    AlgoReads(algo, ps, ")" + more);
    TokenRead("private-key", AlgoText(algo, ps, ")" + more));
    Opened(more);
    SkipPairsStops(ps, ")" + more);
    MicBetween(algo, ps, more);
  }

  /** The integrity code that is computed over the merged list. */
  lemma MicIs(lib: Lib, k: Key, at: Option<string>)
    requires k.algo != "" && SolidPairs(k.pub + k.sec) && StampOk(at)
    ensures Mic(lib, MergedText(k, at)) == Ok(lib.sha1(Text(HashedSexp(k, at), "")))
  {
    var ps := k.pub + k.sec + Stamps(at);
    FrontText(k, Behind(k, at));
    PairsSplit(k.pub + k.sec, Stamps(at), EndText(k, ""));
    MicOfList(lib, k.algo, ps, TextAll(k.rest, ")" + ""));
    HashedText(k, at);
  }

  lemma FinishWith(lib: Lib, front: string, cut: string, end: string, both: string, hash: string, mic: string, key: string)
    requires both == cut + end && key == front + end && lib.canonLen(key) == |key|
    ensures Finish(lib, Merged(front + both, hash, if cut != "" then |front| else 0, |cut|), Ok(mic)) ==
              if hash == mic then Ok(key) else Err(CorruptedProtection)
  {
    TakeAll(key);
    if cut == "" {
      assert both == end;
    } else {
      CutOut(front, cut, end, both);
    }
  }

  lemma FinishedIs(lib: Lib, k: Key, at: Option<string>, hash: string)
    requires Lawful(lib) && k.algo != "" && SolidPairs(k.pub + k.sec) && StampOk(at) && SolidAll(k.rest)
    ensures var m := Merged(MergedText(k, at), hash, if at.Some? then |Front(k)| else 0, |CutText(at)|);
            Finish(lib, m, Mic(lib, m.list)) ==
              if hash == lib.sha1(Text(HashedSexp(k, at), "")) then Ok(KeyText(k, "")) else Err(CorruptedProtection)
  {
    MicIs(lib, k, at);
    CutLengthIs(k, at);
    FrontText(k, EndText(k, ""));
    KeyMeasured(lib, k);
    FinishWith(lib, Front(k), CutText(at), EndText(k, ""), Behind(k, at), hash, lib.sha1(Text(HashedSexp(k, at), "")), KeyText(k, ""));
  }

  lemma KeyMeasured(lib: Lib, k: Key)
    requires Lawful(lib) && k.algo != "" && SolidPairs(k.pub + k.sec) && SolidAll(k.rest)
    ensures lib.canonLen(KeyText(k, "")) == |KeyText(k, "")|
  {
    KeyIsCanonical(k);
    LengthKnown(lib, KeyText(k, ""), "");
  }

  lemma ClearAccepted(lib: Lib, passphrase: string, p: Protection, key: string, sec: seq<Param>, hash: string, pad: string)
    requires Lawful(lib) && |p.salt| == 8 && Derives(lib, p.salt, p.count, passphrase, key) && p.data != "" && |p.data| % 16 == 0
    requires |lib.decrypt(key, p.iv, p.data)| == |p.data| && lib.decrypt(key, p.iv, p.data) == Text(ClearSexp(sec, hash), pad)
    requires SolidPairs(sec) && |hash| == 20 && |pad| <= 16
    ensures Decrypted(lib, passphrase, p) == Ok(Cleartext(sec, hash, pad))
  {
    var clear := Cleartext(sec, hash, pad);
    SessionKeyIs(lib, p.salt, p.count, passphrase, key);
    ClearText(sec, hash, pad);
    CleartextIsCanonical(sec, hash, pad);
    LengthKnown(lib, clear, pad);
    CleartextRead(sec, hash, pad);
    DecryptedIs(lib, passphrase, p, key);
  }

  lemma AlgoNamed(k: Key)
    requires Readable(k) && SolidPairs(k.sec)
    ensures k.algo != "" && SolidPairs(k.pub + k.sec)
  {
    var j :| 0 <= j < |Table| && Table[j].algo == k.algo;
    ProtectedAreLast(Table[j]);
  }

  lemma ListsGive(lib: Lib, passphrase: string, key: string, lists: string, begin: string, s: string, p: Protection,
                  clear: string, m: Merged, result: Outcome<string>)
    requires FindProtected(lists) == Ok((begin, s)) && ParseProtection(s) == Ok(p)
    requires Decrypted(lib, passphrase, p) == Ok(clear) && Merge(lib, key, begin, clear) == Ok(m) && Finish(lib, m, Mic(lib, m.list)) == result
    ensures UnprotectLists(lib, passphrase, key, lists) == result
  {
  }

  lemma OpenedWith(lib: Lib, passphrase: string, key: string, wanted: bool, lists: string,
                   stamp: Outcome<Option<string>>, result: Outcome<string>)
    requires ReadHead(key, "protected-private-key").Ok? && ReadHead(key, "protected-private-key").value.2 == lists
    requires UnprotectLists(lib, passphrase, key, lists) == result && FindTimestamp(lists) == stamp
    requires wanted ==> stamp.Ok?
    ensures Unprotect(lib, passphrase, key, wanted) ==
              match result
              case Err(e) => Err(e)
              case Ok(text) => Ok((text, if wanted then stamp.value else None))
  {
  }

  /** The key or an error, by the digest. */
  function Checked(lib: Lib, k: Key, at: Option<string>, hash: string): Outcome<string> {
    if hash == lib.sha1(Text(HashedSexp(k, at), "")) then Ok(KeyText(k, "")) else Err(CorruptedProtection)
  }

  lemma ListsOpen(lib: Lib, passphrase: string, k: Key, e: Seal, at: Option<string>, p: Protection, hash: string, pad: string)
    requires Lawful(lib) && Readable(k) && SealOk(e) && StampOk(at) && SealVerdict(e) == Ok(p)
    requires SolidPairs(k.sec) && |hash| == 20 && Decrypted(lib, passphrase, p) == Ok(Cleartext(k.sec, hash, pad))
    ensures UnprotectLists(lib, passphrase, Text(ProtectedSexp(k, e, at), ""), Pairs(k.pub, Text(SealSexp(e), Behind(k, at)))) ==
              Checked(lib, k, at, hash)
  {
    var begin := Text(SealSexp(e), Behind(k, at));
    var m := Merged(MergedText(k, at), hash, if at.Some? then |Front(k)| else 0, |CutText(at)|);
    AlgoNamed(k);
    SealReached(k, e, at);
    MergedIs(lib, k, e, at, hash, pad);
    FinishedIs(lib, k, at, hash);
    ListsGive(lib, passphrase, Text(ProtectedSexp(k, e, at), ""), Pairs(k.pub, begin), begin, SealBody(e, ")" + Behind(k, at)),
              p, Cleartext(k.sec, hash, pad), m, Checked(lib, k, at, hash));
  }

  lemma OpenedText(lib: Lib, passphrase: string, k: Key, e: Seal, at: Option<string>, wanted: bool, p: Protection, hash: string, pad: string)
    requires Lawful(lib) && Readable(k) && SealOk(e) && StampOk(at) && (wanted && at.Some? ==> |at.value| == 15)
    requires SealVerdict(e) == Ok(p) && SolidPairs(k.sec) && |hash| == 20 && Decrypted(lib, passphrase, p) == Ok(Cleartext(k.sec, hash, pad))
    ensures Unprotect(lib, passphrase, Text(ProtectedSexp(k, e, at), ""), wanted) ==
              match Checked(lib, k, at, hash)
              case Err(err) => Err(err)
              case Ok(text) => Ok((text, if wanted then at else None))
  {
    ListsOpen(lib, passphrase, k, e, at, p, hash, pad);
    SealReached(k, e, at);
    OpenedWith(lib, passphrase, Text(ProtectedSexp(k, e, at), ""), wanted, Pairs(k.pub, Text(SealSexp(e), Behind(k, at))),
               if at.Some? && |at.value| != 15 then Err(UnknownSexp) else Ok(at), Checked(lib, k, at, hash));
  }

  lemma SealOpened(lib: Lib, passphrase: string, e: Seal, key: string, sec: seq<Param>, hash: string, pad: string)
    requires Lawful(lib) && SealOk(e) && SealVerdict(e).Ok? && Derives(lib, e.salt, CountMeant(Value(e.count)), passphrase, key)
    requires |e.data| % 16 == 0 && |lib.decrypt(key, e.iv, e.data)| == |e.data|
    requires lib.decrypt(key, e.iv, e.data) == Text(ClearSexp(sec, hash), pad)
    requires SolidPairs(sec) && |hash| == 20 && |pad| <= 16
    ensures Decrypted(lib, passphrase, SealVerdict(e).value) == Ok(Cleartext(sec, hash, pad))
  {
    ClearAccepted(lib, passphrase, SealVerdict(e).value, key, sec, hash, pad);
  }

  /** What decrypts to secret parameters and a digest is taken for the key if and only if the
      digest is that of the list it is part of; the time stamp may be missing. */
  lemma OpensIff(lib: Lib, passphrase: string, k: Key, e: Seal, at: Option<string>, wanted: bool, key: string, hash: string, pad: string)
    requires Lawful(lib) && Readable(k) && SealOk(e) && StampOk(at) && (wanted && at.Some? ==> |at.value| == 15)
    requires SealVerdict(e).Ok? && Derives(lib, e.salt, CountMeant(Value(e.count)), passphrase, key)
    requires |e.data| % 16 == 0 && |lib.decrypt(key, e.iv, e.data)| == |e.data|
    requires lib.decrypt(key, e.iv, e.data) == Text(ClearSexp(k.sec, hash), pad)
    requires SolidPairs(k.sec) && |hash| == 20 && |pad| <= 16
    ensures Unprotect(lib, passphrase, Text(ProtectedSexp(k, e, at), ""), wanted) ==
              if hash == lib.sha1(Text(HashedSexp(k, at), ""))
              then Ok((Text(KeySexp(k), ""), if wanted then at else None)) else Err(CorruptedProtection)
  {
    SealOpened(lib, passphrase, e, key, k.sec, hash, pad);
    OpenedText(lib, passphrase, k, e, at, wanted, SealVerdict(e).value, hash, pad);
    KeySexpText(k, "");
  }

  lemma SealingIsRead(nonce: Nonce, count: nat, data: string)
    requires NonceOk(nonce) && count >= 65536 && data != ""
    ensures SealOk(Sealing(nonce, count, data)) && Value(Decimal(count)) == CountMeant(Value(Decimal(count))) == count
    ensures SealVerdict(Sealing(nonce, count, data)) == Ok(Protection(nonce.salt, count, nonce.iv, data))
  {
    DecimalDigits(count);
  }

  lemma ClearKeyIsReadable(k: Key)
    requires WellFormed(k)
    ensures Readable(k)
  {
    var j :| 0 <= j < |Table| && Fits(k, Table[j]);
    PublicNames(k, Table[j]);
  }

  lemma EncryptedLength(lib: Lib, key: string, iv: string, plain: string)
    requires Lawful(lib) && |plain| % 16 == 0 && plain != ""
    ensures |lib.encrypt(key, iv, plain)| == |plain| && lib.encrypt(key, iv, plain) != ""
  {
  }

  /** Decryption with another key does not give a text that could be a list. */
  ghost predicate Scrambles(lib: Lib, key: string, other: string, iv: string) {
    forall data | |data| % 16 == 0 :: 
      var out := lib.decrypt(other, iv, lib.encrypt(key, iv, data)); At(out) != '(' && At(Drop(out, 1)) != '('
  }

  /** With a passphrase that gives another key, agent_unprotect reports a bad passphrase. */
  lemma WrongPassphrase(lib: Lib, nonce: Nonce, count: nat, at: string, passphrase: string, wrong: string, k: Key, junk: string,
                        wanted: bool, key: string, other: string)
    requires Lawful(lib) && NonceOk(nonce) && count >= 65536 && |at| == 15 && WellFormed(k)
    requires Derives(lib, nonce.salt, count, passphrase, key) && Derives(lib, nonce.salt, count, wrong, other)
    requires Scrambles(lib, key, other, nonce.iv)
    ensures var r := Protect(lib, nonce, count, at, passphrase, Text(KeySexp(k), junk));
            r.Ok? && Unprotect(lib, wrong, r.value, wanted) == Err(BadPassphrase)
  {
    var key', n := ProtectWrites(lib, nonce, count, at, passphrase, k, junk);
    SessionKeyIs(lib, nonce.salt, count, passphrase, key);
    SessionKeyIs(lib, nonce.salt, count, passphrase, key');
    var plain := Text(ClearSexp(k.sec, lib.sha1(Text(HashedSexp(k, Some(at)), ""))), nonce.pad[..n]);
    EncryptedLength(lib, key, nonce.iv, plain);
    var data := lib.encrypt(key, nonce.iv, plain);
    SealingIsRead(nonce, count, data);
    ClearKeyIsReadable(k);
    Refused(lib, wrong, k, Sealing(nonce, count, data), Some(at), wanted, other);
  }

  /** A protected key in which public parameters, the time stamp or the lists behind have been
      exchanged is opened if and only if the digest stays the same. */
  lemma TamperedKey(lib: Lib, nonce: Nonce, count: nat, at: string, passphrase: string, k: Key, k': Key, at': Option<string>,
                    wanted: bool, key: string, n: nat)
    requires Lawful(lib) && NonceOk(nonce) && count >= 65536 && WellFormed(k) && n <= 16
    requires Derives(lib, nonce.salt, count, passphrase, key)
    requires Readable(k') && k'.sec == k.sec && StampOk(at') && (at'.Some? ==> |at'.value| == 15)
    ensures var hash := lib.sha1(Text(HashedSexp(k, Some(at)), "")); var plain := Text(ClearSexp(k.sec, hash), nonce.pad[..n]);
            |plain| % 16 == 0 ==>
              Unprotect(lib, passphrase, Text(ProtectedSexp(k', Sealing(nonce, count, lib.encrypt(key, nonce.iv, plain)), at'), ""), wanted) ==
                if hash == lib.sha1(Text(HashedSexp(k', at'), ""))
                then Ok((Text(KeySexp(k'), ""), if wanted then at' else None)) else Err(CorruptedProtection)
  {
    var hash := lib.sha1(Text(HashedSexp(k, Some(at)), ""));
    var plain := Text(ClearSexp(k.sec, hash), nonce.pad[..n]);
    DigestLength(lib, Text(HashedSexp(k, Some(at)), ""));
    if |plain| % 16 == 0 {
      EncryptedLength(lib, key, nonce.iv, plain);
      Deciphered(lib, key, nonce.iv, plain);
      var data := lib.encrypt(key, nonce.iv, plain);
      SealingIsRead(nonce, count, data);
      OpensIff(lib, passphrase, k', Sealing(nonce, count, data), at', wanted, key, hash, nonce.pad[..n]);
    }
  }

  // ---------------------------------------------------------------------------------
  // The parameters of a clear key.

  /** The names of the parameters are those that the table lists for the algorithm. */
  predicate NamesFit(ps: seq<Param>, info: Info) {
    Named(ps, info.parmlist) || (info.eccHack && NamedByCurve(ps))
  }

  lemma NameSeen(name: string, more: string, c: char)
    ensures |name| == 1 && At(name + more) == c ==> name == [c]
    ensures |name| == 5 && Take(name + more, 5) == "curve" ==> name == "curve"
  {
    assert |name| == 5 ==> (name + more)[..5] == name;
  }

  lemma {:induction false} NotInTable(algo: string, tail: string, i: nat)
    requires i <= |Table| && forall j | i <= j < |Table| :: Table[j].algo != algo
    ensures FindInfo(algo + tail, |algo|, i) == None
    decreases |Table| - i
  {
    if i < |Table| {
      OtherName(algo, tail, Table[i].algo);
      NotInTable(algo, tail, i + 1);
    }
  }

  /** How many of the parameters stay public. */
  function PublicCount(ps: seq<Param>, info: Info): nat { if Named(ps, info.parmlist) then info.protFrom else 2 }

  lemma Splits(algo: string, ps: seq<Param>, rest: seq<Sexp>, info: Info)
    requires info in Table && info.algo == algo && NamesFit(ps, info)
    ensures PublicCount(ps, info) <= |ps|
    ensures var n := PublicCount(ps, info); Fits(Key(algo, ps[..n], ps[n..], rest), info) && ps[..n] + ps[n..] == ps
  {
    ProtectedAreLast(info);
  }
}
