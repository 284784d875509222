/** p12_parse gives back what p12_build was given. */
module Pkcs12RoundTrip {
  import opened Wrappers
  import opened Octets
  import opened Der
  import opened Pkcs12

  // ---------------------------------------------------------------------------------
  // Reading single objects.

  lemma Expected(tag: byte, contents: bytes, tail: bytes)
    requires Short(tag) && |contents| < 65536
    ensures Expect(Tlv(tag, contents) + tail, tag / 64, tag % 32) == Some((TagOf(tag, |contents|), contents + tail))
    ensures Named(Tlv(tag, contents) + tail, tag % 32) == Some((TagOf(tag, |contents|), contents + tail))
  {
    TlvReads(tag, contents, tail);
  }

  lemma {:induction false} Advanced(a: bytes, tail: bytes)
    ensures Advance(a + tail, |a|) == tail
  {
    if a == [] {
      assert a + tail == tail;
    } else {
      assert (a + tail)[1..] == a[1..] + tail;
      Advanced(a[1..], tail);
    }
  }

  lemma TakenFrom(a: bytes, tail: bytes)
    ensures (a + tail)[..|a|] == a && Advance(a + tail, |a|) == tail && a <= a + tail
  {
    Advanced(a, tail);
  }

  lemma OidRead(oid: bytes, tail: bytes, anyClass: bool)
    requires |oid| < 128
    ensures ReadOid(Tlv(ObjectId, oid) + tail, oid, anyClass) == Some(tail)
  {
    TlvReads(ObjectId, oid, tail);
    TakenFrom(oid, tail);
  }

  lemma SmallRead(v: byte, tail: bytes, anyClass: bool)
    ensures ReadSmall(Tlv(Integer, [v]) + tail, v, anyClass) == Some(tail)
  {
    Expected(Integer, [v], tail);
    TakenFrom([v], tail);
  }

  // ---------------------------------------------------------------------------------
  // The algorithm identifier.

  function PbeParams(salt: bytes): bytes { Tlv(Sequence, Tlv(OctetString, salt) + Tlv(Integer, [0x08, 0x00])) }

  /** The template is two nested sequences. */
  lemma AlgorithmIdIsDer(oid: bytes, salt: bytes)
    requires |oid| == 10 && |salt| == 8
    ensures AlgorithmId(oid, salt) == Tlv(Sequence, Tlv(ObjectId, oid) + PbeParams(salt))
  {
    PbeParamsAre(salt);
    var p := PbeParams(salt);
    assert |p| == 16;
    assert Tlv(ObjectId, oid) == [0x06, 0x0A] + oid;
    assert |Tlv(ObjectId, oid) + p| == 28;
    assert Tlv(Sequence, Tlv(ObjectId, oid) + p) == [0x30, 0x1C] + ([0x06, 0x0A] + oid + p);
    assert [0x30, 0x1C] + ([0x06, 0x0A] + oid + p) == [0x30, 0x1C, 0x06, 0x0A] + (oid + p);
  }

  lemma PbeParamsAre(salt: bytes)
    requires |salt| == 8
    ensures PbeParams(salt) == [0x30, 0x0E, 0x04, 0x08] + (salt + [0x02, 0x02, 0x08, 0x00])
    ensures |PbeParams(salt)| == 16
  {
    assert Tlv(OctetString, salt) == [0x04, 0x08] + salt;
    assert Tlv(Integer, [0x08, 0x00]) == [0x02, 0x02, 0x08, 0x00];
    var c := [0x04, 0x08] + salt + [0x02, 0x02, 0x08, 0x00];
    assert |c| == 14;
    assert [0x30, 0x0E] + c == [0x30, 0x0E, 0x04, 0x08] + (salt + [0x02, 0x02, 0x08, 0x00]);
  }

  lemma IterationsAre2048()
    ensures Iterations([0x08, 0x00], 0) == 2048
  {
    var o: bytes := [0x08, 0x00];
    assert o[1..] == [0x00];
    assert Iterations(o, 0) == Iterations([0x00], 8);
    var z: bytes := [0x00];
    assert z[1..] == [];
  }

  lemma PbeParamsRead(salt: bytes, tail: bytes)
    requires |salt| == 8
    ensures ReadPbeParams(PbeParams(salt) + tail) == Some((salt, 2048, tail))
  {
    var i: bytes := Tlv(Integer, [0x08, 0x00]);
    var c := Tlv(OctetString, salt) + i;
    TlvLength(OctetString, salt);
    TlvLength(Integer, [0x08, 0x00]);
    Expected(Sequence, c, tail);
    Join(Tlv(OctetString, salt), i, tail);
    Expected(OctetString, salt, i + tail);
    TakenFrom(salt, i + tail);
    Expected(Integer, [0x08, 0x00], tail);
    TakenFrom([0x08, 0x00], tail);
    IterationsAre2048();
  }

  // ---------------------------------------------------------------------------------
  // The key.

  /** What the parser keeps of the parameters: leading ones that are written as a single zero
      are dropped. */
  function Kept(lib: Lib, params: seq<nat>): seq<nat> {
    if params != [] && lib.format(params[0]) == [0] then Kept(lib, params[1..]) else params
  }

  predicate Small(lib: Lib, params: seq<nat>) {
    forall i | 0 <= i < |params| :: |lib.format(params[i])| < 65536
  }

  /** One integer of the loop. */
  lemma IntegerRead(lib: Lib, data: bytes, more: bytes, tail: bytes, acc: seq<nat>, acc': seq<nat>)
    requires |data| < 65536 && |acc| < 9
    requires acc' == if acc == [] && data == [0] then acc else acc + [lib.scan(data)]
    ensures ReadIntegers(lib, (Tlv(Integer, data) + more) + tail, |Tlv(Integer, data) + more|, acc) ==
              ReadIntegers(lib, more + tail, |more|, acc')
  {
    Join(Tlv(Integer, data), more, tail);
    Expected(Integer, data, more + tail);
    TakenFrom(data, more + tail);
    TlvLength(Integer, data);
    IsZero(data, more + tail);
  }

  lemma IsZero(data: bytes, tail: bytes)
    ensures |data| == 1 ==> ((data + tail)[0] == 0 <==> data == [0])
  {
  }

  lemma Rescanned(lib: Lib, v: nat)
    requires Lawful(lib)
    ensures lib.scan(lib.format(v)) == v
  {
  }

  lemma NothingRead(lib: Lib, tail: bytes, acc: seq<nat>)
    ensures ReadIntegers(lib, [] + tail, 0, acc) == Some((acc, tail))
  {
    assert [] + tail == tail;
  }

  lemma Shifted(lib: Lib, acc: seq<nat>, params: seq<nat>)
    requires params != [] && Small(lib, params)
    ensures (acc + [params[0]]) + params[1..] == acc + params
    ensures Small(lib, params[1..]) && |lib.format(params[0])| < 65536
  {
  }

  lemma {:induction false} IntegersAppended(lib: Lib, params: seq<nat>, acc: seq<nat>, tail: bytes, all: seq<nat>)
    requires Lawful(lib) && Small(lib, params) && acc != [] && |acc| + |params| <= 9 && all == acc + params
    ensures ReadIntegers(lib, Integers(lib, params) + tail, |Integers(lib, params)|, acc) == Some((all, tail))
    decreases |params|
  {
    if params == [] {
      NothingRead(lib, tail, acc);
      assert all == acc;
    } else {
      var acc' := acc + [params[0]];
      Rescanned(lib, params[0]);
      Shifted(lib, acc, params);
      IntegerRead(lib, lib.format(params[0]), Integers(lib, params[1..]), tail, acc, acc');
      IntegersAppended(lib, params[1..], acc', tail, all);
    }
  }

  /** From the first parameter that is not written as a single zero on, all are kept. */
  lemma IntegersTaken(lib: Lib, params: seq<nat>, tail: bytes)
    requires Lawful(lib) && Small(lib, params) && 0 < |params| <= 9 && lib.format(params[0]) != [0]
    ensures ReadIntegers(lib, Integers(lib, params) + tail, |Integers(lib, params)|, []) == Some((params, tail))
  {
    var first := [params[0]];
    Rescanned(lib, params[0]);
    Shifted(lib, [], params);
    NothingPut(first);
    IntegerRead(lib, lib.format(params[0]), Integers(lib, params[1..]), tail, [], first);
    IntegersAppended(lib, params[1..], first, tail, params);
  }

  lemma NothingPut(s: seq<nat>)
    ensures [] + s == s
  {
  }

  lemma {:induction false} IntegersKept(lib: Lib, params: seq<nat>, tail: bytes)
    requires Lawful(lib) && Small(lib, params) && |params| <= 9
    ensures ReadIntegers(lib, Integers(lib, params) + tail, |Integers(lib, params)|, []) == Some((Kept(lib, params), tail))
    decreases |params|
  {
    if params == [] {
      NothingRead(lib, tail, []);
    } else if lib.format(params[0]) == [0] {
      Shifted(lib, [], params);
      IntegerRead(lib, [0], Integers(lib, params[1..]), tail, [], []);
      IntegersKept(lib, params[1..], tail);
    } else {
      IntegersTaken(lib, params, tail);
    }
  }

  lemma KeyIntegersRead(lib: Lib, params: seq<nat>, tail: bytes)
    requires Lawful(lib) && Small(lib, params) && |params| <= 9
    ensures ReadIntegers(lib, KeyIntegers(lib, params) + tail, |KeyIntegers(lib, params)|, []) == Some((Kept(lib, params), tail))
  {
    IntegerRead(lib, [0], Integers(lib, params), tail, [], []);
    IntegersKept(lib, params, tail);
  }

  lemma KeyAlgorithmRead(tail: bytes)
    ensures ReadKeyAlgorithm(RsaAlgorithm() + tail) == Some(tail)
  {
    var oid: bytes := Tlv(ObjectId, OidRsa);
    TlvLength(ObjectId, OidRsa);
    Expected(Sequence, oid + [0x05, 0x00], tail);
    Join(oid, [0x05, 0x00], tail);
    Expected(ObjectId, OidRsa, [0x05, 0x00] + tail);
    TakenFrom(OidRsa, [0x05, 0x00] + tail);
    Join(OidRsa, [0x05, 0x00], tail);
    Advanced(OidRsa + [0x05, 0x00], tail);
  }

  /** The parameters with everything that stands around them. */
  lemma KeyRead(lib: Lib, params: seq<nat>, tail: bytes)
    requires Lawful(lib) && |params| <= 9 && Encodable(lib, params)
    ensures ReadKey(lib, KeySequence(lib, params) + tail) == Some((Kept(lib, params), tail))
    ensures Plausible(KeySequence(lib, params) + tail, true)
  {
    var s3 := Tlv(OctetString, Tlv(Sequence, KeyIntegers(lib, params)));
    var s2 := RsaAlgorithm() + s3;
    KeyContentsLength(lib, params);
    Expected(Sequence, Tlv(Integer, [0]) + s2, tail);
    Join(Tlv(Integer, [0]), s2, tail);
    SmallRead(0, s2 + tail, false);
    Join(RsaAlgorithm(), s3, tail);
    KeyAlgorithmRead(s3 + tail);
    KeyOctetsRead(lib, params, tail);
    KeyIs(lib, KeySequence(lib, params) + tail, TagOf(Sequence, |Tlv(Integer, [0]) + s2|), Tlv(Integer, [0]) + (s2 + tail), s2 + tail, s3 + tail);
  }

  /** The octet string with the parameters. */
  function ReadKeyOctets(lib: Lib, s: bytes): Option<(seq<nat>, bytes)> {
    match Expect(s, 0, 4)
    case None => None
    case Some((_, s1)) =>
      match Expect(s1, 0, 16)
      case None => None
      case Some((t, s2)) => ReadIntegers(lib, s2, t.length, [])
  }

  lemma KeyOctetsRead(lib: Lib, params: seq<nat>, tail: bytes)
    requires Lawful(lib) && |params| <= 9 && Encodable(lib, params)
    ensures ReadKeyOctets(lib, Tlv(OctetString, Tlv(Sequence, KeyIntegers(lib, params))) + tail) == Some((Kept(lib, params), tail))
  {
    var ints := KeyIntegers(lib, params);
    Expected(OctetString, Tlv(Sequence, ints), tail);
    Expected(Sequence, ints, tail);
    OctetsAre(lib, Tlv(OctetString, Tlv(Sequence, ints)) + tail, TagOf(OctetString, |Tlv(Sequence, ints)|), Tlv(Sequence, ints) + tail,
              TagOf(Sequence, |ints|), ints + tail);
    KeyIntegersRead(lib, params, tail);
  }

  lemma OctetsAre(lib: Lib, s: bytes, t: Tag, s1: bytes, u: Tag, s2: bytes)
    requires Expect(s, 0, 4) == Some((t, s1)) && Expect(s1, 0, 16) == Some((u, s2))
    ensures ReadKeyOctets(lib, s) == ReadIntegers(lib, s2, u.length, [])
  {
  }

  lemma KeyIs(lib: Lib, s: bytes, t: Tag, s1: bytes, s2: bytes, s3: bytes)
    requires Expect(s, 0, 16) == Some((t, s1)) && ReadSmall(s1, 0, false) == Some(s2) && ReadKeyAlgorithm(s2) == Some(s3)
    ensures ReadKey(lib, s) == ReadKeyOctets(lib, s3) && Plausible(s, true)
  {
  }

  lemma KeyContentsLength(lib: Lib, params: seq<nat>)
    requires Encodable(lib, params)
    ensures |Tlv(Integer, [0]) + (RsaAlgorithm() + Tlv(OctetString, Tlv(Sequence, KeyIntegers(lib, params))))| < 65536
  {
    TlvLength(ObjectId, OidRsa);
    TlvLength(Sequence, Tlv(ObjectId, OidRsa) + [0x05, 0x00]);
    TlvLength(Integer, [0]);
  }

  // ---------------------------------------------------------------------------------
  // The certificate.

  lemma AttributesAreSet(hash: bytes)
    requires |hash| == 20
    ensures |Attributes(hash)[2..]| == 124 && Attributes(hash) == Tlv(SetOf, Attributes(hash)[2..])
  {
    var a := Attributes(hash);
    assert AttrTemplate[0] == 0x31 && AttrTemplate[1] == 0x7c;
    assert a[0] == AttrTemplate[0] && a[1] == AttrTemplate[1];
    assert a == [a[0], a[1]] + a[2..];
  }

  lemma CertLengths(cert: bytes)
    requires |cert| + 32 < 65536
    ensures |Tlv(OctetString, cert)| < 65536 && |CertValue(cert)| < 65536 && |Tlv(Sequence, CertValue(cert))| < 65536
    ensures |CertItem(cert)| <= |cert| + 41
  {
    TlvLength(OctetString, cert);
    TlvLength(Context, Tlv(OctetString, cert));
    TlvLength(ObjectId, OidX509);
    TlvLength(Sequence, CertValue(cert));
    TlvLength(Context, Tlv(Sequence, CertValue(cert)));
    TlvLength(ObjectId, OidCertBag);
  }

  lemma CertRead(cert: bytes, tail: bytes)
    requires |cert| + 32 < 65536
    ensures ReadCert(Tlv(Sequence, CertValue(cert)) + tail) == Some(Item(Some(cert), None, tail))
  {
    var s4 := Tlv(OctetString, cert);
    var s3 := Tlv(Context, s4);
    CertLengths(cert);
    Expected(Sequence, CertValue(cert), tail);
    Join(Tlv(ObjectId, OidX509), s3, tail);
    OidRead(OidX509, s3 + tail, false);
    Expected(Context, s4, tail);
    Expected(OctetString, cert, tail);
    TakenFrom(cert, tail);
  }

  lemma CertBagOid(tail: bytes)
    ensures var t, s := TagOf(ObjectId, 11), OidCertBag + tail;
            IsOid(t, s, OidCertBag) && !IsOid(t, s, OidCrlBag) && !IsOid(t, s, OidKeyBag)
  {
    TakenFrom(OidCertBag, tail);
    assert (OidCertBag + tail)[10] == 3;
  }

  lemma CertItemRead(lib: Lib, cert: bytes, tail: bytes, keyWanted: bool)
    requires |cert| + 32 < 65536
    ensures ReadItem(lib, CertItem(cert) + tail, keyWanted) == Some(Item(Some(cert), None, tail))
  {
    var s2 := Tlv(Sequence, CertValue(cert));
    var s1 := Tlv(Context, s2);
    CertLengths(cert);
    Join(Tlv(ObjectId, OidCertBag), s1, tail);
    Expected(ObjectId, OidCertBag, s1 + tail);
    TakenFrom(OidCertBag, s1 + tail);
    CertBagOid(s1 + tail);
    Expected(Context, s2, tail);
    CertRead(cert, tail);
    ItemIs(lib, CertItem(cert) + tail, TagOf(ObjectId, 11), OidCertBag + (s1 + tail), TagOf(Context, |s2|), s2 + tail, keyWanted);
  }

  lemma ItemIs(lib: Lib, s: bytes, t: Tag, s1: bytes, u: Tag, s2: bytes, keyWanted: bool)
    requires Expect(s, 0, 6) == Some((t, s1)) && IsOid(t, s1, OidCertBag) && !IsOid(t, s1, OidCrlBag) && !IsOid(t, s1, OidKeyBag)
    requires Expect(Advance(s1, t.length), 2, 0) == Some((u, s2))
    ensures ReadItem(lib, s, keyWanted) == ReadCert(s2)
  {
  }

  /** The attributes are passed over, and what is behind them is padding. */
  lemma AttributesPassed(hash: bytes, pad: bytes, t: Tag)
    requires |hash| == 20 && |pad| <= 8
    ensures var r := NextItem(Attributes(hash) + pad, t); r.Some? && r.value.1 == []
  {
    AttributesAreSet(hash);
    var body := Attributes(hash)[2..];
    TlvReads(SetOf, body, pad);
    TakenFrom(body, pad);
  }

  lemma CertSequenceRead(lib: Lib, cert: bytes, hash: bytes, pad: bytes, keyWanted: bool, certs: seq<bytes>)
    requires |hash| == 20 && 1 <= |pad| <= 8 && |CertSequence(cert, Attributes(hash))| < 65536
    ensures ReadContents(lib, CertSequence(cert, Attributes(hash)) + pad, keyWanted, certs) == (true, Parsed(None, certs + [cert]))
    ensures Plausible(CertSequence(cert, Attributes(hash)) + pad, false)
  {
    var attrs := Attributes(hash);
    var c := CertItem(cert) + attrs;
    SequenceLengths(cert, attrs);
    Expected(Sequence, Tlv(Sequence, c), pad);
    TlvReads(Sequence, c, pad);
    Join(CertItem(cert), attrs, pad);
    var t := TagOf(Sequence, |c|);
    ItemsRead(lib, cert, hash, pad, t, keyWanted, certs);
  }

  lemma SequenceLengths(cert: bytes, attrs: bytes)
    requires |attrs| == 126 && |CertSequence(cert, attrs)| < 65536
    ensures |cert| + 32 < 65536 && |CertItem(cert) + attrs| < 65536 && |Tlv(Sequence, CertItem(cert) + attrs)| < 65536
  {
    var c := CertItem(cert) + attrs;
    TlvLength(Sequence, c);
    TlvLength(Sequence, Tlv(Sequence, c));
    TlvLength(OctetString, cert);
    TlvLength(Context, Tlv(OctetString, cert));
    TlvLength(Sequence, CertValue(cert));
    TlvLength(Context, Tlv(Sequence, CertValue(cert)));
  }

  lemma ItemsRead(lib: Lib, cert: bytes, hash: bytes, pad: bytes, t: Tag, keyWanted: bool, certs: seq<bytes>)
    requires |hash| == 20 && 1 <= |pad| <= 8 && |cert| + 32 < 65536 && t.cls == 0 && t.number == 16
    ensures ReadItems(lib, CertItem(cert) + (Attributes(hash) + pad), t, keyWanted, Parsed(None, certs)) ==
              (true, Parsed(None, certs + [cert]))
  {
    var rest := Attributes(hash) + pad;
    CertItemRead(lib, cert, rest, keyWanted);
    AttributesPassed(hash, pad, t);
    var item := Item(Some(cert), None, rest);
    assert With(Parsed(None, certs), item) == Parsed(None, certs + [cert]);
  }

  // ---------------------------------------------------------------------------------
  // The two bags.

  lemma Decoded(lib: Lib, algo: Algo, salt: bytes, pw: bytes, plain: bytes, key: bool)
    requires Lawful(lib) && |pw| <= MaxPassword && |plain| % 8 == 0 && Plausible(plain, key)
    ensures var data := Encipher(lib, algo, salt, 2048, pw, plain);
            |data| == |plain| && Decode(lib, algo, salt, 2048, pw, data, key, 0, []) == plain
  {
  }

  lemma AlgorithmRead(salt: bytes, tail: bytes)
    requires |salt| == 8
    ensures ReadAlgorithm(AlgorithmId(OidRc2, salt) + tail) == Some((Rc2, salt, 2048, tail))
  {
    var oid, params: bytes := Tlv(ObjectId, OidRc2), PbeParams(salt);
    AlgorithmIdIsDer(OidRc2, salt);
    AlgorithmIdLength(OidRc2, salt);
    Expected(Sequence, oid + params, tail);
    Join(oid, params, tail);
    OidRead(OidRc2, params + tail, false);
    PbeParamsRead(salt, tail);
  }

  lemma AlgorithmIdLength(oid: bytes, salt: bytes)
    requires |oid| == 10 && |salt| == 8
    ensures |AlgorithmId(oid, salt)| == 30 && |Tlv(ObjectId, oid) + PbeParams(salt)| == 28
  {
    TlvLength(ObjectId, oid);
    PbeParamsAre(salt);
  }

  lemma CipherRead(data: bytes, tail: bytes)
    requires 0 < |data| < 65536
    ensures ReadCipher(Tlv(Implicit, data) + tail) == Some((data, data + tail))
  {
    Expected(Implicit, data, tail);
    TakenFrom(data, tail);
  }

  /** The bag behind its object identifier. */
  function CertBagBody(data: bytes, salt: bytes): bytes {
    Tlv(Context, Tlv(Sequence, Tlv(Integer, [0]) + Tlv(Sequence, EncryptedContents(data, salt))))
  }

  lemma ContentsLengths(data: bytes, salt: bytes)
    requires |CertBagBody(data, salt)| < 65536
    ensures var s4 := EncryptedContents(data, salt); var s2 := Tlv(Integer, [0]) + Tlv(Sequence, s4);
            |s4| < 65536 && |s2| < 65536 && |Tlv(Sequence, s2)| < 65536
  {
    var s4 := EncryptedContents(data, salt);
    var s2 := Tlv(Integer, [0]) + Tlv(Sequence, s4);
    TlvLength(Sequence, s4);
    TlvLength(Sequence, s2);
    TlvLength(Context, Tlv(Sequence, s2));
  }

  /** The outer half of the head: [0], a sequence and the version. */
  lemma OuterHeadRead(contents: bytes, tail: bytes)
    requires |Tlv(Integer, [0]) + contents| < 65536 && |Tlv(Sequence, Tlv(Integer, [0]) + contents)| < 65536
    ensures var s2 := Tlv(Integer, [0]) + contents;
            && Expect(Tlv(Context, Tlv(Sequence, s2)) + tail, 2, 0) == Some((TagOf(Context, |Tlv(Sequence, s2)|), Tlv(Sequence, s2) + tail))
            && Named(Tlv(Sequence, s2) + tail, 16) == Some((TagOf(Sequence, |s2|), s2 + tail))
            && ReadSmall(s2 + tail, 0, true) == Some(contents + tail)
  {
    var s2 := Tlv(Integer, [0]) + contents;
    Expected(Context, Tlv(Sequence, s2), tail);
    Expected(Sequence, s2, tail);
    Join(Tlv(Integer, [0]), contents, tail);
    SmallRead(0, contents + tail, true);
  }

  /** The inner half: a sequence and the object identifier. */
  lemma InnerHeadRead(x: bytes, tail: bytes)
    requires |Tlv(ObjectId, OidData) + x| < 65536
    ensures var s4 := Tlv(ObjectId, OidData) + x;
            && Named(Tlv(Sequence, s4) + tail, 16) == Some((TagOf(Sequence, |s4|), s4 + tail))
            && ReadOid(s4 + tail, OidData, true) == Some(x + tail)
  {
    Expected(Sequence, Tlv(ObjectId, OidData) + x, tail);
    Join(Tlv(ObjectId, OidData), x, tail);
    OidRead(OidData, x + tail, true);
  }

  lemma EncryptedHeadRead(data: bytes, salt: bytes, tail: bytes)
    requires |CertBagBody(data, salt)| < 65536
    ensures ReadEncryptedHead(CertBagBody(data, salt) + tail) == Some(AlgorithmId(OidRc2, salt) + (Tlv(Implicit, data) + tail))
  {
    var x := AlgorithmId(OidRc2, salt) + Tlv(Implicit, data);
    var s4 := Tlv(ObjectId, OidData) + x;
    var s3 := Tlv(Sequence, s4);
    var s2 := Tlv(Integer, [0]) + s3;
    ContentsLengths(data, salt);
    OuterHeadRead(s3, tail);
    InnerHeadRead(x, tail);
    Join(AlgorithmId(OidRc2, salt), Tlv(Implicit, data), tail);
    EncryptedHeadIs(CertBagBody(data, salt) + tail, TagOf(Context, |Tlv(Sequence, s2)|), Tlv(Sequence, s2) + tail,
                    TagOf(Sequence, |s2|), s2 + tail, s3 + tail, TagOf(Sequence, |s4|), s4 + tail, x + tail);
  }

  lemma EncryptedHeadIs(s: bytes, t1: Tag, s1: bytes, t2: Tag, s2: bytes, s3: bytes, t4: Tag, s4: bytes, rest: bytes)
    requires Expect(s, 2, 0) == Some((t1, s1)) && Named(s1, 16) == Some((t2, s2)) && ReadSmall(s2, 0, true) == Some(s3)
    requires Named(s3, 16) == Some((t4, s4)) && ReadOid(s4, OidData, true) == Some(rest)
    ensures ReadEncryptedHead(s) == Some(rest)
  {
  }

  lemma CipherLength(data: bytes, salt: bytes)
    requires |CertBagBody(data, salt)| < 65536
    ensures |data| < 65536
  {
    TlvLength(Implicit, data);
    TlvLength(Sequence, EncryptedContents(data, salt));
    TlvLength(Sequence, Tlv(Integer, [0]) + Tlv(Sequence, EncryptedContents(data, salt)));
    TlvLength(Context, Tlv(Sequence, Tlv(Integer, [0]) + Tlv(Sequence, EncryptedContents(data, salt))));
  }

  /** The whole bag, given what is in it. */
  lemma EncryptedBagRead(lib: Lib, data: bytes, pw: bytes, salt: bytes, tail: bytes, found: Parsed)
    requires |salt| == 8 && data != [] && |CertBagBody(data, salt)| < 65536
    requires ReadContents(lib, Decode(lib, Rc2, salt, 2048, pw, data, false, 0, []), true, []) == (true, found)
    ensures var r := ReadEncryptedData(lib, CertBagBody(data, salt) + tail, pw, true, []); r.ok && r.found == found
  {
    EncryptedHeadRead(data, salt, tail);
    AlgorithmRead(salt, Tlv(Implicit, data) + tail);
    CipherLength(data, salt);
    CipherRead(data, tail);
  }

  lemma CertDecoded(lib: Lib, cert: bytes, pw: bytes, salt: bytes)
    requires Lawful(lib) && |pw| <= MaxPassword
    requires |CertSequence(cert, Attributes(lib.sha1(cert)))| < 65536
    ensures var data := EncryptedCert(lib, cert, pw, salt);
            ReadContents(lib, Decode(lib, Rc2, salt, 2048, pw, data, false, 0, []), true, []) == (true, Parsed(None, [cert]))
  {
    var plain := CertSequence(cert, Attributes(lib.sha1(cert)));
    CertSequenceRead(lib, cert, lib.sha1(cert), Padding(|plain|), true, []);
    Decoded(lib, Rc2, salt, pw, Padded(plain), false);
    assert [] + [cert] == [cert];
  }

  /** The bag with the key behind its object identifier. */
  function KeyBagBody(data: bytes, salt: bytes, attributes: bytes): bytes {
    Tlv(Context, Tlv(OctetString, Tlv(Sequence, Tlv(Sequence, ShroudedBag(data, salt, attributes)))))
  }

  lemma WrappedRead(contents: bytes, tail: bytes)
    requires |Tlv(Context, Tlv(OctetString, contents))| < 65536
    ensures ReadWrapped(Tlv(Context, Tlv(OctetString, contents)) + tail) == Some((contents + tail, None))
  {
    TlvLength(Context, Tlv(OctetString, contents));
    TlvLength(OctetString, contents);
    Expected(Context, Tlv(OctetString, contents), tail);
    Expected(OctetString, contents, tail);
  }

  lemma ShroudedLengths(data: bytes, salt: bytes, attrs: bytes)
    requires |KeyBagBody(data, salt, attrs)| < 65536
    ensures |data| < 65536 && |ShroudedKey(data, salt)| < 65536 && |Tlv(Sequence, ShroudedKey(data, salt))| < 65536
    ensures |ShroudedBag(data, salt, attrs)| < 65536 && |Tlv(Sequence, ShroudedBag(data, salt, attrs))| < 65536
  {
    var bag := ShroudedBag(data, salt, attrs);
    TlvLength(Sequence, bag);
    TlvLength(Sequence, Tlv(Sequence, bag));
    TlvLength(OctetString, Tlv(Sequence, Tlv(Sequence, bag)));
    TlvLength(Context, Tlv(OctetString, Tlv(Sequence, Tlv(Sequence, bag))));
    TlvLength(Context, Tlv(Sequence, ShroudedKey(data, salt)));
    TlvLength(Sequence, ShroudedKey(data, salt));
    TlvLength(OctetString, data);
  }

  lemma ShroudedHeadRead(data: bytes, salt: bytes, attrs: bytes, tail: bytes)
    requires |KeyBagBody(data, salt, attrs)| < 65536
    ensures ReadShroudedHead(Tlv(Sequence, Tlv(Sequence, ShroudedBag(data, salt, attrs))) + tail) ==
              Some(ShroudedKey(data, salt) + (attrs + tail))
  {
    var bag, key := ShroudedBag(data, salt, attrs), ShroudedKey(data, salt);
    var s3 := Tlv(Context, Tlv(Sequence, key));
    ShroudedLengths(data, salt, attrs);
    Expected(Sequence, Tlv(Sequence, bag), tail);
    Expected(Sequence, bag, tail);
    Join(Tlv(ObjectId, OidShroudedKeyBag), s3 + attrs, tail);
    Join(s3, attrs, tail);
    OidRead(OidShroudedKeyBag, s3 + (attrs + tail), false);
    Expected(Context, Tlv(Sequence, key), attrs + tail);
    Expected(Sequence, key, attrs + tail);
    ShroudedHeadIs(Tlv(Sequence, Tlv(Sequence, bag)) + tail, TagOf(Sequence, |Tlv(Sequence, bag)|), Tlv(Sequence, bag) + tail,
                   TagOf(Sequence, |bag|), bag + tail, s3 + (attrs + tail), TagOf(Context, |Tlv(Sequence, key)|),
                   Tlv(Sequence, key) + (attrs + tail), TagOf(Sequence, |key|), key + (attrs + tail));
  }

  lemma ShroudedHeadIs(s: bytes, t1: Tag, s1: bytes, t2: Tag, s2: bytes, s3: bytes, t4: Tag, s4: bytes, t5: Tag, s5: bytes)
    requires Expect(s, 0, 16) == Some((t1, s1)) && Expect(s1, 0, 16) == Some((t2, s2))
    requires ReadOid(s2, OidShroudedKeyBag, false) == Some(s3) && Expect(s3, 2, 0) == Some((t4, s4)) && Expect(s4, 0, 16) == Some((t5, s5))
    ensures ReadShroudedHead(s) == Some(s5)
  {
  }

  lemma ShroudedRead(data: bytes, salt: bytes, tail: bytes)
    requires |salt| == 8 && 0 < |data| < 65536
    ensures ReadShrouded(ShroudedKey(data, salt) + tail) == Some((salt, 2048, data, data + tail))
  {
    var oid, params: bytes := Tlv(ObjectId, OidTripleDes), PbeParams(salt);
    var d := Tlv(OctetString, data);
    AlgorithmIdIsDer(OidTripleDes, salt);
    AlgorithmIdLength(OidTripleDes, salt);
    Join(AlgorithmId(OidTripleDes, salt), d, tail);
    Expected(Sequence, oid + params, d + tail);
    Join(oid, params, d + tail);
    OidRead(OidTripleDes, params + (d + tail), false);
    PbeParamsRead(salt, d + tail);
    Expected(OctetString, data, tail);
    TakenFrom(data, tail);
  }

  /** The key as it is put into its bag. */
  function EncryptedKey(lib: Lib, params: seq<nat>, pw: bytes, salt: bytes): bytes {
    Encipher(lib, TripleDes, salt, 2048, pw, Padded(KeySequence(lib, params)))
  }

  lemma KeyDecoded(lib: Lib, params: seq<nat>, pw: bytes, salt: bytes)
    requires Lawful(lib) && |pw| <= MaxPassword && |params| <= 9 && Encodable(lib, params)
    ensures var data := EncryptedKey(lib, params, pw, salt);
            && |data| > 0
            && ReadKey(lib, Decode(lib, TripleDes, salt, 2048, pw, data, true, 0, [])) == Some((Kept(lib, params), Padding(|KeySequence(lib, params)|)))
  {
    var plain := KeySequence(lib, params);
    KeyRead(lib, params, Padding(|plain|));
    Decoded(lib, TripleDes, salt, pw, Padded(plain), true);
  }

  /** The whole bag with the key, given what is in it. */
  lemma KeyBagRead(lib: Lib, data: bytes, pw: bytes, salt: bytes, attrs: bytes, tail: bytes, key: (seq<nat>, bytes))
    requires |salt| == 8 && data != [] && |KeyBagBody(data, salt, attrs)| < 65536
    requires ReadKey(lib, Decode(lib, TripleDes, salt, 2048, pw, data, true, 0, [])) == Some(key)
    ensures var r := ReadData(lib, KeyBagBody(data, salt, attrs) + tail, pw); r.Some? && r.value.0 == key.0
  {
    ShroudedLengths(data, salt, attrs);
    WrappedRead(Tlv(Sequence, Tlv(Sequence, ShroudedBag(data, salt, attrs))), tail);
    ShroudedHeadRead(data, salt, attrs, tail);
    ShroudedRead(data, salt, attrs + tail);
  }

  // ---------------------------------------------------------------------------------
  // The loop over the bags.

  /** One pass of the loop. */
  lemma BagStep(read: (Tag, bytes, Parsed) -> Contents, s: bytes, b: Start, n: nat, left: nat, found: Parsed, found': Parsed,
                consumed: nat, rest: bytes)
    requires n > 0 && BagStart(s, n, false) == b && b.Start? && left == n - b.t.nhdr - b.t.length
    requires read(b.u, b.s, found) == Read(true, found', consumed)
    requires BagEnd(b, Read(true, found', consumed)) == Some(rest)
    ensures ReadBags(read, s, n, false, found) == ReadBags(read, rest, left, false, found')
  {
  }

  lemma BehindBody(oid: bytes, body: bytes, more: bytes)
    ensures Advance(oid + (body + more), |oid|) == body + more && Advance(body + more, |body|) == more
  {
    Advanced(oid, body + more);
    Advanced(body, more);
  }

  function StartOf(oid: bytes, body: bytes, more: bytes): Start {
    Start(TagOf(Sequence, |Tlv(ObjectId, oid) + body|), TagOf(ObjectId, 9), oid + (body + more))
  }

  lemma BagStarts(oid: bytes, body: bytes, more: bytes, n: nat)
    requires |oid| == 9 && |Tlv(ObjectId, oid) + body| < 65536 && n >= |OneBag(oid, body)|
    ensures BagStart(OneBag(oid, body) + more, n, false) == StartOf(oid, body, more)
  {
    var contents := Tlv(ObjectId, oid) + body;
    TlvLength(Sequence, contents);
    TlvReads(Sequence, contents, more);
    Join(Tlv(ObjectId, oid), body, more);
    TlvReads(ObjectId, oid, body + more);
  }

  lemma BagSize(oid: bytes, body: bytes, more: bytes)
    requires |Tlv(ObjectId, oid) + body| < 65536
    ensures var b := StartOf(oid, body, more); |OneBag(oid, body)| == b.t.nhdr + b.t.length > 0
  {
    TlvLength(Sequence, Tlv(ObjectId, oid) + body);
  }

  lemma BagEnds(oid: bytes, body: bytes, more: bytes, r: Contents)
    requires |oid| == 9 && r.Read?
    ensures BagEnd(StartOf(oid, body, more), r) == Some(more)
  {
    TlvLength(ObjectId, oid);
    BehindBody(oid, body, more);
  }

  lemma BagPassed(read: (Tag, bytes, Parsed) -> Contents, oid: bytes, body: bytes, more: bytes, left: nat, n: nat,
                  found: Parsed, found': Parsed, consumed: nat)
    requires |oid| == 9 && |Tlv(ObjectId, oid) + body| < 65536 && n == |OneBag(oid, body)| + left
    requires read(TagOf(ObjectId, 9), oid + (body + more), found) == Read(true, found', consumed)
    ensures ReadBags(read, OneBag(oid, body) + more, n, false, found) == ReadBags(read, more, left, false, found')
  {
    BagSize(oid, body, more);
    BagStarts(oid, body, more, n);
    BagEnds(oid, body, more, Read(true, found', consumed));
    BagStep(read, OneBag(oid, body) + more, StartOf(oid, body, more), n, left, found, found', consumed, more);
  }

  function OneBag(oid: bytes, body: bytes): bytes { Tlv(Sequence, Tlv(ObjectId, oid) + body) }

  lemma NoBagsLeft(read: (Tag, bytes, Parsed) -> Contents, s: bytes, found: Parsed)
    ensures ReadBags(read, s, 0, false, found) == found
  {
  }

  lemma OneBagRead(read: (Tag, bytes, Parsed) -> Contents, oid: bytes, body: bytes, more: bytes, found: Parsed, consumed: nat)
    requires |oid| == 9 && |Tlv(ObjectId, oid) + body| < 65536
    requires read(TagOf(ObjectId, 9), oid + (body + more), Parsed(None, [])) == Read(true, found, consumed)
    ensures ReadBags(read, OneBag(oid, body) + more, |OneBag(oid, body)|, false, Parsed(None, [])) == found
  {
    BagPassed(read, oid, body, more, 0, |OneBag(oid, body)|, Parsed(None, []), found, consumed);
    NoBagsLeft(read, more, found);
  }

  lemma TwoBagsRead(read: (Tag, bytes, Parsed) -> Contents, oid: bytes, body: bytes, oid': bytes, body': bytes, more: bytes,
                    found: Parsed, found': Parsed, consumed: nat, consumed': nat)
    requires |oid| == 9 && |Tlv(ObjectId, oid) + body| < 65536 && |oid'| == 9 && |Tlv(ObjectId, oid') + body'| < 65536
    requires read(TagOf(ObjectId, 9), oid + (body + (OneBag(oid', body') + more)), Parsed(None, [])) == Read(true, found, consumed)
    requires read(TagOf(ObjectId, 9), oid' + (body' + more), found) == Read(true, found', consumed')
    ensures var bags := OneBag(oid, body) + OneBag(oid', body');
            ReadBags(read, bags + more, |bags|, false, Parsed(None, [])) == found'
  {
    var n := |OneBag(oid', body')|;
    Join(OneBag(oid, body), OneBag(oid', body'), more);
    BagPassed(read, oid, body, OneBag(oid', body') + more, n, |OneBag(oid, body) + OneBag(oid', body')|, Parsed(None, []), found, consumed);
    BagPassed(read, oid', body', more, 0, n, found, found', consumed');
    NoBagsLeft(read, more, found');
  }

  lemma EncryptedOid(tail: bytes)
    ensures var t, s := TagOf(ObjectId, 9), OidEncryptedData + tail;
            IsOid(t, s, OidEncryptedData) && Advance(s, 9) == tail
  {
    TakenFrom(OidEncryptedData, tail);
  }

  lemma EncryptedBagFound(lib: Lib, pw: bytes, rest: bytes)
    ensures Reader(lib, pw)(TagOf(ObjectId, 9), OidEncryptedData + rest, Parsed(None, [])) ==
              FromBag(ReadEncryptedData(lib, rest, pw, true, []), Parsed(None, []))
  {
    EncryptedOid(rest);
  }

  lemma NothingYet(bag: Bag)
    ensures FromBag(bag, Parsed(None, [])) == Read(bag.ok, bag.found, bag.consumed)
  {
  }

  lemma DataBagFound(lib: Lib, pw: bytes, rest: bytes, certs: seq<bytes>)
    ensures Reader(lib, pw)(TagOf(ObjectId, 9), OidData + rest, Parsed(None, certs)) == FromKey(ReadData(lib, rest, pw), Parsed(None, certs))
  {
    DataOid(rest);
  }

  lemma DataOid(tail: bytes)
    ensures var t, s := TagOf(ObjectId, 9), OidData + tail;
            IsOid(t, s, OidData) && !IsOid(t, s, OidEncryptedData) && Advance(s, 9) == tail
  {
    TakenFrom(OidData, tail);
    assert (OidData + tail)[8] == 1;
  }

  // ---------------------------------------------------------------------------------
  // The file.

  lemma HeadRead(bags: bytes, mac: bytes)
    requires |FinalContents(bags, mac)| < 65536
    ensures ReadHead(Tlv(Sequence, FinalContents(bags, mac)) + []) ==
              Some(Tlv(Context, Tlv(OctetString, Tlv(Sequence, bags))) + mac)
  {
    var s4 := Tlv(Context, Tlv(OctetString, Tlv(Sequence, bags)));
    var s3 := Tlv(ObjectId, OidData) + s4;
    var s2 := Tlv(Sequence, s3);
    TlvLength(Sequence, s3);
    Expected(Sequence, FinalContents(bags, mac), []);
    NothingBehind(FinalContents(bags, mac));
    SmallRead(3, s2 + mac, true);
    Expected(Sequence, s3, mac);
    Join(Tlv(ObjectId, OidData), s4, mac);
    OidRead(OidData, s4 + mac, true);
  }

  /** The whole file, up to the loop over its bags. */
  lemma FileRead(bags: bytes, mac: bytes)
    requires |FinalContents(bags, mac)| < 65536
    ensures ReadFile(Tlv(Sequence, FinalContents(bags, mac))) == Some((bags + mac, |bags|, false))
  {
    var s1 := Tlv(Context, Tlv(OctetString, Tlv(Sequence, bags))) + mac;
    NothingBehind(Tlv(Sequence, FinalContents(bags, mac)));
    HeadRead(bags, mac);
    FileLengths(bags, mac);
    WrappedRead(Tlv(Sequence, bags), mac);
    Expected(Sequence, bags, mac);
    FileIs(Tlv(Sequence, FinalContents(bags, mac)), s1, Tlv(Sequence, bags) + mac, TagOf(Sequence, |bags|), bags + mac);
  }

  lemma FileIs(s: bytes, s1: bytes, s2: bytes, t: Tag, s3: bytes)
    requires ReadHead(s) == Some(s1) && ReadWrapped(s1) == Some((s2, None)) && Expect(s2, 0, 16) == Some((t, s3))
    ensures ReadFile(s) == Some((s3, t.length, t.ndef))
  {
  }

  lemma FileLengths(bags: bytes, mac: bytes)
    requires |FinalContents(bags, mac)| < 65536
    ensures |bags| < 65536 && |Tlv(Context, Tlv(OctetString, Tlv(Sequence, bags)))| < 65536
  {
    var s2 := Tlv(Sequence, bags);
    TlvLength(Sequence, bags);
    TlvLength(OctetString, s2);
    TlvLength(Context, Tlv(OctetString, s2));
    TlvLength(Sequence, Tlv(ObjectId, OidData) + Tlv(Context, Tlv(OctetString, s2)));
  }

  // ---------------------------------------------------------------------------------
  // The round trip.

  lemma CertBagGives(lib: Lib, cert: bytes, pw: bytes, salt: bytes, more: bytes) returns (consumed: nat)
    requires Lawful(lib) && |pw| <= MaxPassword && |salt| == 8
    requires |CertBagBody(EncryptedCert(lib, cert, pw, salt), salt)| < 65536
    ensures Reader(lib, pw)(TagOf(ObjectId, 9), OidEncryptedData + (CertBagBody(EncryptedCert(lib, cert, pw, salt), salt) + more), Parsed(None, []))
              == Read(true, Parsed(None, [cert]), consumed)
  {
    var data := EncryptedCert(lib, cert, pw, salt);
    CertDataLength(lib, cert, pw, salt);
    CertDecoded(lib, cert, pw, salt);
    EncryptedBagRead(lib, data, pw, salt, more, Parsed(None, [cert]));
    consumed := BagGives(lib, pw, CertBagBody(data, salt) + more, Parsed(None, [cert]));
  }

  lemma BagGives(lib: Lib, pw: bytes, rest: bytes, found: Parsed) returns (consumed: nat)
    requires var r := ReadEncryptedData(lib, rest, pw, true, []); r.ok && r.found == found
    ensures Reader(lib, pw)(TagOf(ObjectId, 9), OidEncryptedData + rest, Parsed(None, [])) == Read(true, found, consumed)
  {
    EncryptedBagFound(lib, pw, rest);
    NothingYet(ReadEncryptedData(lib, rest, pw, true, []));
    consumed := ReadEncryptedData(lib, rest, pw, true, []).consumed;
  }

  lemma CertDataLength(lib: Lib, cert: bytes, pw: bytes, salt: bytes)
    requires Lawful(lib) && |pw| <= MaxPassword
    requires |CertBagBody(EncryptedCert(lib, cert, pw, salt), salt)| < 65536
    ensures EncryptedCert(lib, cert, pw, salt) != [] && |CertSequence(cert, Attributes(lib.sha1(cert)))| < 65536
  {
    CipherLength(EncryptedCert(lib, cert, pw, salt), salt);
    assert |EncryptedCert(lib, cert, pw, salt)| == |Padded(CertSequence(cert, Attributes(lib.sha1(cert))))|;
  }

  lemma KeyBagGives(lib: Lib, params: seq<nat>, attrs: bytes, pw: bytes, salt: bytes, more: bytes, certs: seq<bytes>) returns (consumed: nat)
    requires Lawful(lib) && |pw| <= MaxPassword && |salt| == 8 && |params| <= 9 && Encodable(lib, params)
    requires |KeyBagBody(EncryptedKey(lib, params, pw, salt), salt, attrs)| < 65536
    ensures Reader(lib, pw)(TagOf(ObjectId, 9), OidData + (KeyBagBody(EncryptedKey(lib, params, pw, salt), salt, attrs) + more), Parsed(None, certs))
              == Read(true, Parsed(Some(Kept(lib, params)), certs), consumed)
  {
    var data := EncryptedKey(lib, params, pw, salt);
    KeyDecoded(lib, params, pw, salt);
    KeyBagRead(lib, data, pw, salt, attrs, more, (Kept(lib, params), Padding(|KeySequence(lib, params)|)));
    consumed := DataGives(lib, pw, KeyBagBody(data, salt, attrs) + more, certs, Kept(lib, params));
  }

  lemma DataGives(lib: Lib, pw: bytes, rest: bytes, certs: seq<bytes>, params: seq<nat>) returns (consumed: nat)
    requires var r := ReadData(lib, rest, pw); r.Some? && r.value.0 == params
    ensures Reader(lib, pw)(TagOf(ObjectId, 9), OidData + rest, Parsed(None, certs)) == Read(true, Parsed(Some(params), certs), consumed)
  {
    consumed := ReadData(lib, rest, pw).value.1;
    DataBagFound(lib, pw, rest, certs);
    KeyGiven(ReadData(lib, rest, pw), params, certs);
  }

  lemma KeyGiven(key: Option<(seq<nat>, nat)>, params: seq<nat>, certs: seq<bytes>)
    requires key.Some? && key.value.0 == params
    ensures FromKey(key, Parsed(None, certs)) == Read(true, Parsed(Some(params), certs), key.value.1)
  {
  }

  /** The two bags as they stand in the file. */
  lemma BagsAre(lib: Lib, params: seq<nat>, cert: bytes, pw: bytes, salts: Salts)
    requires |lib.sha1(cert)| == 20
    ensures BuildCert(lib, cert, pw, salts.cert) == OneBag(OidEncryptedData, CertBagBody(EncryptedCert(lib, cert, pw, salts.cert), salts.cert))
    ensures BuildKey(lib, Padded(KeySequence(lib, params)), cert, pw, salts.key) ==
              OneBag(OidData, KeyBagBody(EncryptedKey(lib, params, pw, salts.key), salts.key, KeyAttributes(lib, cert)))
  {
  }

  lemma OneBagLength(oid: bytes, body: bytes)
    requires |OneBag(oid, body)| < 65536
    ensures |Tlv(ObjectId, oid) + body| < 65536 && |body| < 65536
  {
    TlvLength(Sequence, Tlv(ObjectId, oid) + body);
  }

  lemma OnlyCert(lib: Lib, cert: bytes, pw: bytes, salt: bytes, mac: bytes)
    requires Lawful(lib) && |pw| <= MaxPassword && |salt| == 8 && |BuildCert(lib, cert, pw, salt)| < 65536
    ensures var bags := BuildCert(lib, cert, pw, salt);
            ReadBags(Reader(lib, pw), bags + mac, |bags|, false, Parsed(None, [])) == Parsed(None, [cert])
  {
    var body := CertBagBody(EncryptedCert(lib, cert, pw, salt), salt);
    OneBagLength(OidEncryptedData, body);
    var consumed := CertBagGives(lib, cert, pw, salt, mac);
    OneBagRead(Reader(lib, pw), OidEncryptedData, body, mac, Parsed(None, [cert]), consumed);
  }

  lemma OnlyKey(lib: Lib, params: seq<nat>, pw: bytes, salt: bytes, mac: bytes)
    requires Lawful(lib) && |pw| <= MaxPassword && |salt| == 8 && |params| <= 9 && Encodable(lib, params)
    requires |BuildKey(lib, Padded(KeySequence(lib, params)), [], pw, salt)| < 65536
    ensures var bags := BuildKey(lib, Padded(KeySequence(lib, params)), [], pw, salt);
            ReadBags(Reader(lib, pw), bags + mac, |bags|, false, Parsed(None, [])) == Parsed(Some(Kept(lib, params)), [])
  {
    var body := KeyBagBody(EncryptedKey(lib, params, pw, salt), salt, []);
    OneBagLength(OidData, body);
    var consumed := KeyBagGives(lib, params, [], pw, salt, mac, []);
    OneBagRead(Reader(lib, pw), OidData, body, mac, Parsed(Some(Kept(lib, params)), []), consumed);
  }

  lemma CertAndKey(lib: Lib, params: seq<nat>, cert: bytes, pw: bytes, salts: Salts, mac: bytes)
    requires Lawful(lib) && |pw| <= MaxPassword && |salts.cert| == 8 && |salts.key| == 8 && |params| <= 9 && Encodable(lib, params)
    requires |BuildCert(lib, cert, pw, salts.cert) + BuildKey(lib, Padded(KeySequence(lib, params)), cert, pw, salts.key)| < 65536
    ensures var bags := BuildCert(lib, cert, pw, salts.cert) + BuildKey(lib, Padded(KeySequence(lib, params)), cert, pw, salts.key);
            ReadBags(Reader(lib, pw), bags + mac, |bags|, false, Parsed(None, [])) == Parsed(Some(Kept(lib, params)), [cert])
  {
    var attrs := KeyAttributes(lib, cert);
    var first := CertBagBody(EncryptedCert(lib, cert, pw, salts.cert), salts.cert);
    var second := KeyBagBody(EncryptedKey(lib, params, pw, salts.key), salts.key, attrs);
    BagsAre(lib, params, cert, pw, salts);
    OneBagLength(OidEncryptedData, first);
    OneBagLength(OidData, second);
    var consumed := CertBagGives(lib, cert, pw, salts.cert, OneBag(OidData, second) + mac);
    var consumed' := KeyBagGives(lib, params, attrs, pw, salts.key, mac, [cert]);
    TwoBagsRead(Reader(lib, pw), OidEncryptedData, first, OidData, second, mac,
                Parsed(None, [cert]), Parsed(Some(Kept(lib, params)), [cert]), consumed, consumed');
  }

  /** The parameters that come back, if there is a key. */
  function KeptKey(lib: Lib, kparms: Option<seq<nat>>): Option<seq<nat>> {
    match kparms
    case None => None
    case Some(params) => Some(Kept(lib, params))
  }

  lemma AllBagsRead(lib: Lib, kparms: Option<seq<nat>>, cert: bytes, pw: bytes, salts: Salts, mac: bytes)
    requires Lawful(lib) && |pw| <= MaxPassword && |salts.cert| == 8 && |salts.key| == 8
    requires Bags(lib, kparms, cert, pw, salts).Some? && |Bags(lib, kparms, cert, pw, salts).value| < 65536
    ensures var bags := Bags(lib, kparms, cert, pw, salts).value;
            ReadBags(Reader(lib, pw), bags + mac, |bags|, false, Parsed(None, [])) ==
              Parsed(KeptKey(lib, kparms), if cert == [] then [] else [cert])
  {
    if kparms.None? && cert == [] {
      NoBagsLeft(Reader(lib, pw), [] + mac, Parsed(None, []));
    } else if kparms.None? {
      OnlyCert(lib, cert, pw, salts.cert, mac);
    } else if cert == [] {
      assert [] + BuildKey(lib, Padded(KeySequence(lib, kparms.value)), cert, pw, salts.key) == BuildKey(lib, Padded(KeySequence(lib, kparms.value)), cert, pw, salts.key);
      OnlyKey(lib, kparms.value, pw, salts.key, mac);
    } else {
      CertAndKey(lib, kparms.value, cert, pw, salts, mac);
    }
  }

  /** What stands in the outermost sequence of the file: the longest of all contents. */
  function FileContents(lib: Lib, bags: bytes, pw: bytes, salt: bytes): bytes {
    FinalContents(bags, MacData(lib.mac(salt, pw, Tlv(Sequence, bags)), salt))
  }

  predicate SaltsOk(salts: Salts) { |salts.cert| == 8 && |salts.key| == 8 && |salts.mac| == 8 }

  /** Whatever p12_build returns, if every encoded length is below 65536, p12_parse with the same
      password hands back the certificate once and returns the parameters in order, without
      leading ones that are written as a single zero. */
  lemma RoundTrip(lib: Lib, kparms: Option<seq<nat>>, cert: bytes, pw: bytes, salts: Salts)
    requires Lawful(lib) && SaltsOk(salts) && Build(lib, kparms, cert, pw, salts).Some?
    requires |FileContents(lib, Bags(lib, kparms, cert, pw, salts).value, pw, salts.mac)| < 65536
    ensures Parse(lib, Build(lib, kparms, cert, pw, salts).value, pw) ==
              Parsed(KeptKey(lib, kparms), if cert == [] then [] else [cert])
  {
    var bags := Bags(lib, kparms, cert, pw, salts).value;
    var mac := MacData(lib.mac(salts.mac, pw, Tlv(Sequence, bags)), salts.mac);
    FileLengths(bags, mac);
    FileRead(bags, mac);
    AllBagsRead(lib, kparms, cert, pw, salts, mac);
  }

  /** An outermost sequence that is too long has no length octets, and the version is taken for
      them. */
  lemma NoLengthOctets(rest: bytes)
    ensures var s := [0x30] + ([0x02, 0x01, 0x03] + rest); ReadFile(s).None?
  {
    var s: bytes := [0x30] + ([0x02, 0x01, 0x03] + rest);
    var s2: bytes := [0x01, 0x03] + rest;
    assert s[1..] == [0x02, 0x01, 0x03] + rest && s[1..][1..] == s2;
    assert ParseTag(s) == Some((Tag(0, true, 16, 2, 2, false), s2));
    assert s2[0] == 1;
    assert Named(s2, 2).None?;
    assert ReadHead(s).None?;
  }

  lemma LargeFileIsLost(lib: Lib, bags: bytes, mac: bytes, pw: bytes)
    requires |FinalContents(bags, mac)| >= 65536
    ensures Parse(lib, Tlv(Sequence, FinalContents(bags, mac)), pw) == Parsed(None, [])
  {
    var rest := Tlv(Sequence, Tlv(ObjectId, OidData) + Tlv(Context, Tlv(OctetString, Tlv(Sequence, bags)))) + mac;
    assert Tlv(Integer, [3]) == [0x02, 0x01, 0x03];
    NoLengthOctets(rest);
  }

  /** So the limit is exact: what p12_build has made of a key or a certificate comes back if and
      only if the contents of the outermost sequence are shorter than 65536 octets. */
  lemma SizeDecides(lib: Lib, kparms: Option<seq<nat>>, cert: bytes, pw: bytes, salts: Salts)
    requires Lawful(lib) && SaltsOk(salts) && Build(lib, kparms, cert, pw, salts).Some? && (kparms.Some? || cert != [])
    ensures Parse(lib, Build(lib, kparms, cert, pw, salts).value, pw) == Parsed(KeptKey(lib, kparms), if cert == [] then [] else [cert]) <==>
              |FileContents(lib, Bags(lib, kparms, cert, pw, salts).value, pw, salts.mac)| < 65536
  {
    var bags := Bags(lib, kparms, cert, pw, salts).value;
    if |FileContents(lib, bags, pw, salts.mac)| < 65536 {
      RoundTrip(lib, kparms, cert, pw, salts);
    } else {
      LargeFileIsLost(lib, bags, MacData(lib.mac(salts.mac, pw, Tlv(Sequence, bags)), salts.mac), pw);
    }
  }

  lemma {:induction false} KeptIsShorter(lib: Lib, params: seq<nat>)
    ensures |Kept(lib, params)| <= |params|
  {
    if params != [] && lib.format(params[0]) == [0] {
      KeptIsShorter(lib, params[1..]);
    }
  }

  /** Nothing is dropped exactly if the modulus is not written as a single zero. */
  lemma AllKept(lib: Lib, params: seq<nat>)
    requires params != []
    ensures Kept(lib, params) == params <==> lib.format(params[0]) != [0]
  {
    if lib.format(params[0]) == [0] {
      KeptIsShorter(lib, params[1..]);
    }
  }

  /** Eight parameters and a certificate come back as they were exactly if the modulus is not
      written as a single zero. */
  lemma ExactRoundTrip(lib: Lib, params: seq<nat>, cert: bytes, pw: bytes, salts: Salts)
    requires Lawful(lib) && SaltsOk(salts) && Build(lib, Some(params), cert, pw, salts).Some?
    requires |FileContents(lib, Bags(lib, Some(params), cert, pw, salts).value, pw, salts.mac)| < 65536
    ensures (Parse(lib, Build(lib, Some(params), cert, pw, salts).value, pw).key == Some(params)) <==> lib.format(params[0]) != [0]
  {
    RoundTrip(lib, Some(params), cert, pw, salts);
    AllKept(lib, params);
  }

  // ---------------------------------------------------------------------------------
  // The assumptions can be met.

  /** Integers written as that many zeros, ciphers that do nothing, hashes that are always the
      same, and no conversion of passwords. */
  function PlainLib(): Lib {
    Lib(v => Zeros(v), s => |s|, (algo, salt, iter, pw, data) => data, (algo, salt, iter, pw, data) => data,
        data => Zeros(20), (salt, pw, data) => Zeros(20), (i, pw) => None)
  }

  lemma LawsAreConsistent()
    ensures Lawful(PlainLib())
  {
    var lib := PlainLib();
    assert forall v :: lib.format(v) == Zeros(v);
    assert forall data :: lib.sha1(data) == Zeros(20);
    assert forall salt, pw, data :: lib.mac(salt, pw, data) == Zeros(20);
  }

  // ---------------------------------------------------------------------------------
  // A key that does not come back whole.

  lemma {:induction false} IntegersBound(lib: Lib, params: seq<nat>)
    requires forall i | 0 <= i < |params| :: |lib.format(params[i])| <= 2
    ensures |Integers(lib, params)| <= 6 * |params|
  {
    if params != [] {
      IntegersBound(lib, params[1..]);
      TlvLength(Integer, lib.format(params[0]));
    }
  }

  lemma KeyBagBound(data: bytes, salt: bytes)
    requires |salt| == 8
    ensures |KeyBag(data, salt, [])| <= |data| + 100
  {
    var key, bag := ShroudedKey(data, salt), ShroudedBag(data, salt, []);
    TlvLength(OctetString, data);
    TlvLength(Sequence, key);
    TlvLength(Context, Tlv(Sequence, key));
    TlvLength(ObjectId, OidShroudedKeyBag);
    TlvLength(Sequence, bag);
    var s3 := Tlv(Sequence, Tlv(Sequence, bag));
    TlvLength(Sequence, Tlv(Sequence, bag));
    TlvLength(OctetString, s3);
    TlvLength(Context, Tlv(OctetString, s3));
    TlvLength(ObjectId, OidData);
    TlvLength(Sequence, Tlv(ObjectId, OidData) + Tlv(Context, Tlv(OctetString, s3)));
  }

  lemma FinalBound(bags: bytes, mac: bytes)
    ensures |FinalContents(bags, mac)| <= |bags| + |mac| + 50
  {
    var s2 := Tlv(Sequence, bags);
    TlvLength(Sequence, bags);
    TlvLength(OctetString, s2);
    TlvLength(Context, Tlv(OctetString, s2));
    TlvLength(ObjectId, OidData);
    TlvLength(Sequence, Tlv(ObjectId, OidData) + Tlv(Context, Tlv(OctetString, s2)));
    TlvLength(Integer, [3]);
  }

  lemma KeySequenceBound(lib: Lib, params: seq<nat>, n: nat)
    requires |KeyIntegers(lib, params)| == n < 1000 && forall i | 0 <= i < |params| :: |lib.format(params[i])| < 65536
    ensures Encodable(lib, params) && |KeySequence(lib, params)| <= n + 40
  {
    var ints := KeyIntegers(lib, params);
    TlvLength(Sequence, ints);
    TlvLength(OctetString, Tlv(Sequence, ints));
    KeyContentsLength(lib, params);
    TlvLength(ObjectId, OidRsa);
    TlvLength(Sequence, Tlv(ObjectId, OidRsa) + [0x05, 0x00]);
    TlvLength(Integer, [0]);
    TlvLength(Sequence, Tlv(Integer, [0]) + (RsaAlgorithm() + Tlv(OctetString, Tlv(Sequence, ints))));
  }

  /** A short key alone can be built, whatever it is. */
  lemma ShortKeyBuilds(lib: Lib, params: seq<nat>, salts: Salts)
    requires Lawful(lib) && SaltsOk(salts) && |params| == 8 && forall i | 0 <= i < |params| :: |lib.format(params[i])| <= 2
    ensures Build(lib, Some(params), [], [], salts).Some?
    ensures |FileContents(lib, Bags(lib, Some(params), [], [], salts).value, [], salts.mac)| < 65536
  {
    IntegersBound(lib, params);
    TlvLength(Integer, [0]);
    KeySequenceBound(lib, params, |KeyIntegers(lib, params)|);
    var plain := Padded(KeySequence(lib, params));
    var data := Encipher(lib, TripleDes, salts.key, 2048, [], plain);
    KeyBagBound(data, salts.key);
    var bags := BuildKey(lib, plain, [], [], salts.key);
    NothingInFront(bags);
    FinalBound(bags, MacData(lib.mac(salts.mac, [], Tlv(Sequence, bags)), salts.mac));
  }

  /** For example, with integers written as that many zeros, a modulus of 1 is dropped. */
  lemma ZeroModulusIsDropped(salts: Salts)
    requires SaltsOk(salts)
    ensures var lib, params := PlainLib(), [1, 2, 2, 2, 2, 2, 2, 2];
            && Lawful(lib) && Build(lib, Some(params), [], [], salts).Some?
            && Parse(lib, Build(lib, Some(params), [], [], salts).value, []).key == Some(params[1..])
  {
    var lib, params := PlainLib(), [1, 2, 2, 2, 2, 2, 2, 2];
    LawsAreConsistent();
    assert forall v :: lib.format(v) == Zeros(v);
    assert Zeros(1) == [0];
    ShortKeyBuilds(lib, params, salts);
    RoundTrip(lib, Some(params), [], [], salts);
    assert params[1..][0] == 2 && lib.format(2) != [0];
    assert Kept(lib, params) == Kept(lib, params[1..]) == params[1..];
  }
}
