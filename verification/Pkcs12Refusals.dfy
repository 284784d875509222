/** What p12_parse refuses: every version, identifier and algorithm that it looks at. */
module Pkcs12Refusals {
  import opened Wrappers
  import opened Octets
  import opened Der
  import opened Pkcs12
  import opened Pkcs12RoundTrip
  import opened Pkcs12Files

  /** An integer is taken for the expected small one exactly if it is that one octet. */
  lemma SmallJudged(contents: bytes, value: byte, tail: bytes, anyClass: bool)
    requires |contents| < 65536
    ensures ReadSmall(Tlv(Integer, contents) + tail, value, anyClass) == if contents == [value] then Some(tail) else None
  {
    Expected(Integer, contents, tail);
    if |contents| == 1 {
      TakenFrom(contents, tail);
      assert contents == [contents[0]] && (contents + tail)[0] == contents[0];
      assert (contents + tail)[1..] == tail;
    }
  }

  lemma IdJudged(oid: bytes, want: bytes, tail: bytes, anyClass: bool)
    requires |oid| < 65536
    ensures ReadOid(Tlv(ObjectId, oid) + tail, want, anyClass) == if oid == want then Some(tail) else None
  {
    TlvReads(ObjectId, oid, tail);
    TakenFrom(oid, tail);
    assert (oid + tail)[..|oid|] == oid;
  }

  // ---------------------------------------------------------------------------------
  // The start of the file.

  lemma HeadIs(s: bytes, t1: Tag, s1: bytes, small: Option<bytes>, t2: Tag, s2: bytes, s3: bytes, id: Option<bytes>)
    requires Named(s, 16) == Some((t1, s1)) && ReadSmall(s1, 3, true) == small
    requires small.Some? ==> small.value == s2 && Named(s2, 16) == Some((t2, s3)) && ReadOid(s3, OidData, true) == id
    ensures ReadHead(s) == if small.Some? then id else None
  {
  }

  /** Only version 3 and plain data are read. */
  lemma FileJudged(version: bytes, oid: bytes, x: bytes, y: bytes, tail: bytes)
    requires |Tlv(Integer, version) + (Tlv(Sequence, Tlv(ObjectId, oid) + x) + y)| < 65536
    ensures ReadHead(Tlv(Sequence, Tlv(Integer, version) + (Tlv(Sequence, Tlv(ObjectId, oid) + x) + y)) + tail) ==
              if version == [3] && oid == OidData then Some(x + (y + tail)) else None
  {
    var c := Tlv(ObjectId, oid) + x;
    var rest := Tlv(Sequence, c) + y;
    var all := Tlv(Integer, version) + rest;
    TlvLength(Integer, version);
    TlvLength(Sequence, c);
    TlvLength(ObjectId, oid);
    Expected(Sequence, all, tail);
    Join(Tlv(Integer, version), rest, tail);
    Join(Tlv(Sequence, c), y, tail);
    SmallJudged(version, 3, rest + tail, true);
    Expected(Sequence, c, y + tail);
    Join(Tlv(ObjectId, oid), x, y + tail);
    IdJudged(oid, OidData, x + (y + tail), true);
    HeadIs(Tlv(Sequence, all) + tail, TagOf(Sequence, |all|), all + tail, if version == [3] then Some(rest + tail) else None,
           TagOf(Sequence, |c|), rest + tail, c + (y + tail), if oid == OidData then Some(x + (y + tail)) else None);
  }

  /** So any other file gives nothing. */
  lemma FileRefused(lib: Lib, pw: bytes, version: bytes, oid: bytes, x: bytes, y: bytes)
    requires |Tlv(Integer, version) + (Tlv(Sequence, Tlv(ObjectId, oid) + x) + y)| < 65536
    requires version != [3] || oid != OidData
    ensures Parse(lib, Tlv(Sequence, Tlv(Integer, version) + (Tlv(Sequence, Tlv(ObjectId, oid) + x) + y)), pw) == Parsed(None, [])
  {
    var s := Tlv(Sequence, Tlv(Integer, version) + (Tlv(Sequence, Tlv(ObjectId, oid) + x) + y));
    FileJudged(version, oid, x, y, []);
    NothingBehind(s);
    NoHead(lib, s, pw);
  }

  lemma NoHead(lib: Lib, s: bytes, pw: bytes)
    requires ReadHead(s).None?
    ensures Parse(lib, s, pw) == Parsed(None, [])
  {
  }

  // ---------------------------------------------------------------------------------
  // The bags.

  lemma EncryptedHeadFor(s: bytes, t1: Tag, s1: bytes, t2: Tag, s2: bytes, small: Option<bytes>, s3: bytes, t4: Tag, s4: bytes, id: Option<bytes>)
    requires Expect(s, 2, 0) == Some((t1, s1)) && Named(s1, 16) == Some((t2, s2)) && ReadSmall(s2, 0, true) == small
    requires small.Some? ==> small.value == s3 && Named(s3, 16) == Some((t4, s4)) && ReadOid(s4, OidData, true) == id
    ensures ReadEncryptedHead(s) == if small.Some? then id else None
  {
  }

  lemma HeadLengths(version: bytes, oid: bytes, x: bytes)
    requires |Tlv(Context, Tlv(Sequence, Tlv(Integer, version) + Tlv(Sequence, Tlv(ObjectId, oid) + x)))| < 65536
    ensures var s4 := Tlv(ObjectId, oid) + x; var s2 := Tlv(Integer, version) + Tlv(Sequence, s4);
            |oid| < 65536 && |version| < 65536 && |s4| < 65536 && |s2| < 65536 && |Tlv(Sequence, s2)| < 65536
  {
    var s4 := Tlv(ObjectId, oid) + x;
    var s2 := Tlv(Integer, version) + Tlv(Sequence, s4);
    TlvLength(ObjectId, oid);
    TlvLength(Sequence, s4);
    TlvLength(Integer, version);
    TlvLength(Sequence, s2);
    TlvLength(Context, Tlv(Sequence, s2));
  }

  /** In a bag with encrypted data: only version 0, and only plain data. */
  lemma EncryptedJudged(version: bytes, oid: bytes, x: bytes, tail: bytes)
    requires |Tlv(Context, Tlv(Sequence, Tlv(Integer, version) + Tlv(Sequence, Tlv(ObjectId, oid) + x)))| < 65536
    ensures ReadEncryptedHead(Tlv(Context, Tlv(Sequence, Tlv(Integer, version) + Tlv(Sequence, Tlv(ObjectId, oid) + x))) + tail) ==
              if version == [0] && oid == OidData then Some(x + tail) else None
  {
    var s4 := Tlv(ObjectId, oid) + x;
    var s3 := Tlv(Sequence, s4);
    var s2 := Tlv(Integer, version) + s3;
    var s1 := Tlv(Sequence, s2);
    HeadLengths(version, oid, x);
    Expected(Context, s1, tail);
    Expected(Sequence, s2, tail);
    Join(Tlv(Integer, version), s3, tail);
    SmallJudged(version, 0, s3 + tail, true);
    Expected(Sequence, s4, tail);
    Join(Tlv(ObjectId, oid), x, tail);
    IdJudged(oid, OidData, x + tail, true);
    EncryptedHeadFor(Tlv(Context, s1) + tail, TagOf(Context, |s1|), s1 + tail, TagOf(Sequence, |s2|), s2 + tail,
                     if version == [0] then Some(s3 + tail) else None, s3 + tail, TagOf(Sequence, |s4|), s4 + tail,
                     if oid == OidData then Some(x + tail) else None);
  }

  lemma ShroudedHeadFor(s: bytes, t1: Tag, s1: bytes, t2: Tag, s2: bytes)
    requires Expect(s, 0, 16) == Some((t1, s1)) && Expect(s1, 0, 16) == Some((t2, s2)) && ReadOid(s2, OidShroudedKeyBag, false).None?
    ensures ReadShroudedHead(s).None? && ReadShroudedBag(s).None?
  {
  }

  /** In a bag with plain data: only an encrypted key. */
  lemma OtherBagRefused(oid: bytes, x: bytes, tail: bytes)
    requires |Tlv(Sequence, Tlv(ObjectId, oid) + x)| < 65536 && oid != OidShroudedKeyBag
    ensures ReadShroudedBag(Tlv(Sequence, Tlv(Sequence, Tlv(ObjectId, oid) + x)) + tail).None?
  {
    var c := Tlv(ObjectId, oid) + x;
    TlvLength(Sequence, c);
    TlvLength(ObjectId, oid);
    Expected(Sequence, Tlv(Sequence, c), tail);
    Expected(Sequence, c, tail);
    Join(Tlv(ObjectId, oid), x, tail);
    IdJudged(oid, OidShroudedKeyBag, x + tail, false);
    ShroudedHeadFor(Tlv(Sequence, Tlv(Sequence, c)) + tail, TagOf(Sequence, |Tlv(Sequence, c)|), Tlv(Sequence, c) + tail,
                    TagOf(Sequence, |c|), c + tail);
  }

  /** And only triple DES. */
  lemma OtherCipherRefused(oid: bytes, x: bytes, tail: bytes)
    requires |Tlv(ObjectId, oid) + x| < 65536 && oid != OidTripleDes
    ensures ReadShrouded(Tlv(Sequence, Tlv(ObjectId, oid) + x) + tail).None?
  {
    TlvLength(ObjectId, oid);
    Expected(Sequence, Tlv(ObjectId, oid) + x, tail);
    Join(Tlv(ObjectId, oid), x, tail);
    IdJudged(oid, OidTripleDes, x + tail, false);
  }

  // ---------------------------------------------------------------------------------
  // Items.

  lemma ItemFor(lib: Lib, s: bytes, t: Tag, s1: bytes, keyWanted: bool)
    requires Expect(s, 0, 6) == Some((t, s1)) && !IsOid(t, s1, OidCertBag) && !IsOid(t, s1, OidCrlBag) && !IsOid(t, s1, OidKeyBag)
    ensures ReadItem(lib, s, keyWanted).None?
  {
  }

  lemma NotThatId(oid: bytes, want: bytes, tail: bytes)
    requires oid != want && |oid| < 65536
    ensures !IsOid(TagOf(ObjectId, |oid|), oid + tail, want)
  {
    assert (oid + tail)[..|oid|] == oid;
  }

  /** Items of any other kind than certificates, revocation lists and keys. */
  lemma OtherItemRefused(lib: Lib, oid: bytes, tail: bytes, keyWanted: bool)
    requires |oid| < 65536 && oid != OidCertBag && oid != OidCrlBag && oid != OidKeyBag
    ensures ReadItem(lib, Tlv(ObjectId, oid) + tail, keyWanted).None?
  {
    Expected(ObjectId, oid, tail);
    NotThatId(oid, OidCertBag, tail);
    NotThatId(oid, OidCrlBag, tail);
    NotThatId(oid, OidKeyBag, tail);
    ItemFor(lib, Tlv(ObjectId, oid) + tail, TagOf(ObjectId, |oid|), oid + tail, keyWanted);
  }

  /** Certificates of another type. */
  lemma OtherCertRefused(oid: bytes, x: bytes, tail: bytes)
    requires |Tlv(ObjectId, oid) + x| < 65536 && oid != OidX509
    ensures ReadCert(Tlv(Sequence, Tlv(ObjectId, oid) + x) + tail).None?
  {
    TlvLength(ObjectId, oid);
    Expected(Sequence, Tlv(ObjectId, oid) + x, tail);
    Join(Tlv(ObjectId, oid), x, tail);
    IdJudged(oid, OidX509, x + tail, false);
  }

  /** Keys of another version or for another algorithm. */
  lemma OtherKeyRefused(lib: Lib, version: bytes, oid: bytes, x: bytes, y: bytes, tail: bytes)
    requires |Tlv(Integer, version) + (Tlv(Sequence, Tlv(ObjectId, oid) + x) + y)| < 65536
    requires version != [0] || oid != OidRsa
    ensures ReadKey(lib, Tlv(Sequence, Tlv(Integer, version) + (Tlv(Sequence, Tlv(ObjectId, oid) + x) + y)) + tail).None?
  {
    var c := Tlv(ObjectId, oid) + x;
    var rest := Tlv(Sequence, c) + y;
    var all := Tlv(Integer, version) + rest;
    TlvLength(Integer, version);
    TlvLength(Sequence, c);
    TlvLength(ObjectId, oid);
    Expected(Sequence, all, tail);
    Join(Tlv(Integer, version), rest, tail);
    Join(Tlv(Sequence, c), y, tail);
    SmallJudged(version, 0, rest + tail, false);
    if version == [0] {
      Expected(Sequence, c, y + tail);
      Join(Tlv(ObjectId, oid), x, y + tail);
      Expected(ObjectId, oid, x + (y + tail));
      NotThatId(oid, OidRsa, x + (y + tail));
      AlgorithmRefused(rest + tail, TagOf(Sequence, |c|), c + (y + tail), TagOf(ObjectId, |oid|), oid + (x + (y + tail)));
    }
    KeyFor(lib, Tlv(Sequence, all) + tail, TagOf(Sequence, |all|), all + tail, if version == [0] then Some(rest + tail) else None);
  }

  lemma AlgorithmRefused(s: bytes, t: Tag, s1: bytes, u: Tag, s2: bytes)
    requires Expect(s, 0, 16) == Some((t, s1)) && Expect(s1, 0, 6) == Some((u, s2)) && !IsOid(u, s2, OidRsa)
    ensures ReadKeyAlgorithm(s).None?
  {
  }

  lemma KeyFor(lib: Lib, s: bytes, t: Tag, s1: bytes, small: Option<bytes>)
    requires Expect(s, 0, 16) == Some((t, s1)) && ReadSmall(s1, 0, false) == small
    requires small.Some? ==> ReadKeyAlgorithm(small.value).None?
    ensures ReadKey(lib, s).None?
  {
  }

  // ---------------------------------------------------------------------------------
  // The number of key parameters.

  lemma Full(lib: Lib, s: bytes, len: nat, acc: seq<nat>)
    requires |acc| >= 9 && len > 0
    ensures ReadIntegers(lib, s, len, acc).None?
  {
  }

  lemma {:induction false} TooManyMore(lib: Lib, params: seq<nat>, acc: seq<nat>, tail: bytes)
    requires Lawful(lib) && Small(lib, params) && acc != [] && |acc| <= 9 && |acc| + |params| > 9
    ensures ReadIntegers(lib, Integers(lib, params) + tail, |Integers(lib, params)|, acc).None?
    decreases |params|
  {
    TlvLength(Integer, lib.format(params[0]));
    if |acc| == 9 {
      Full(lib, Integers(lib, params) + tail, |Integers(lib, params)|, acc);
    } else {
      var acc' := acc + [params[0]];
      Rescanned(lib, params[0]);
      Shifted(lib, acc, params);
      IntegerRead(lib, lib.format(params[0]), Integers(lib, params[1..]), tail, acc, acc');
      TooManyMore(lib, params[1..], acc', tail);
    }
  }

  /** Parameters are read if and only if at most nine of them are kept. */
  lemma {:induction false} IntegersJudged(lib: Lib, params: seq<nat>, tail: bytes)
    requires Lawful(lib) && Small(lib, params)
    ensures ReadIntegers(lib, Integers(lib, params) + tail, |Integers(lib, params)|, []) ==
              if |Kept(lib, params)| <= 9 then Some((Kept(lib, params), tail)) else None
    decreases |params|
  {
    if params == [] {
      NothingRead(lib, tail, []);
    } else {
      Shifted(lib, [], params);
      if lib.format(params[0]) == [0] {
        IntegerRead(lib, [0], Integers(lib, params[1..]), tail, [], []);
        IntegersJudged(lib, params[1..], tail);
      } else if |params| <= 9 {
        IntegersTaken(lib, params, tail);
      } else {
        var first := [params[0]];
        Rescanned(lib, params[0]);
        NothingPut(first);
        IntegerRead(lib, lib.format(params[0]), Integers(lib, params[1..]), tail, [], first);
        TooManyMore(lib, params[1..], first, tail);
      }
    }
  }

  // ---------------------------------------------------------------------------------
  // The loop over the items of a bag.

  /** An item that is not a sequence. */
  lemma OtherFirstRefused(lib: Lib, tag: byte, c: bytes, tail: bytes, keyWanted: bool, certs: seq<bytes>)
    requires Short(tag) && 0 < |c| && |Tlv(tag, c)| < 65536 && !(tag < 64 && tag % 32 == 16)
    ensures ReadContents(lib, Tlv(Sequence, Tlv(tag, c)) + tail, keyWanted, certs) == (false, Parsed(None, certs))
  {
    TlvLength(tag, c);
    Expected(Sequence, Tlv(tag, c), tail);
    TlvReads(tag, c, tail);
    ContentsAre(lib, Tlv(Sequence, Tlv(tag, c)) + tail, TagOf(Sequence, |Tlv(tag, c)|), Tlv(tag, c) + tail, TagOf(tag, |c|), c + tail,
                keyWanted, certs);
    NotASequence(lib, c + tail, TagOf(tag, |c|), keyWanted, Parsed(None, certs));
  }

  lemma NotASequence(lib: Lib, s: bytes, t: Tag, keyWanted: bool, found: Parsed)
    requires s != [] && (t.cls != 0 || t.number != 16)
    ensures ReadItems(lib, s, t, keyWanted, found) == (false, found)
  {
  }

  /** A certificate of indefinite length. */
  lemma OpenCertRefused(x: bytes, tail: bytes)
    requires |x| < 60000
    ensures ReadCert(Tlv(Sequence, Tlv(ObjectId, OidX509) + Tlv(Context, [0x04, 0x80] + x)) + tail).None?
  {
    var s3 := Tlv(Context, [0x04, 0x80] + x);
    TlvLength(Context, [0x04, 0x80] + x);
    TlvLength(ObjectId, OidX509);
    Expected(Sequence, Tlv(ObjectId, OidX509) + s3, tail);
    Join(Tlv(ObjectId, OidX509), s3, tail);
    OidRead(OidX509, s3 + tail, false);
    Expected(Context, [0x04, 0x80] + x, tail);
    Join([0x04, 0x80], x, tail);
    IndefiniteRead(OctetString, x + tail);
    CertOpen(Tlv(Sequence, Tlv(ObjectId, OidX509) + s3) + tail, TagOf(Sequence, |Tlv(ObjectId, OidX509) + s3|), Tlv(ObjectId, OidX509) + (s3 + tail),
             s3 + tail, TagOf(Context, |[0x04, 0x80] + x|), [0x04, 0x80] + (x + tail), Tag(0, false, 4, 0, 2, true), x + tail);
  }

  lemma CertOpen(s: bytes, t1: Tag, s1: bytes, s2: bytes, t3: Tag, s3: bytes, t4: Tag, s4: bytes)
    requires Expect(s, 0, 16) == Some((t1, s1)) && ReadOid(s1, OidX509, false) == Some(s2) && Expect(s2, 2, 0) == Some((t3, s3))
    requires Expect(s3, 0, 4) == Some((t4, s4)) && t4.ndef
    ensures ReadCert(s).None?
  {
  }

  /** Behind the last item: up to eight octets are padding, and of more there has to be a tag. */
  lemma TrailerJudged(lib: Lib, e: Entity, junk: bytes, keyWanted: bool, found: Parsed, t: Tag)
    requires Lawful(lib) && EntityOk(lib, e) && e.attrs.None? && t.cls == 0 && t.number == 16 && ParseTag(junk).None?
    ensures ReadItems(lib, EntityContents(lib, e) + junk, t, keyWanted, found) == (|junk| <= 8, AddedBy(lib, e, keyWanted, found))
  {
    if |junk| <= 8 {
      LastRead(lib, e, junk, keyWanted, found, t);
    } else {
      OneEntity(lib, e, junk, keyWanted && found.key.None?);
      NothingInFront(junk);
      ItemsStop(lib, EntityContents(lib, e) + junk, t, keyWanted, found, Expected1(lib, e.entry, keyWanted && found.key.None?, junk));
    }
  }

  lemma ItemsStop(lib: Lib, s: bytes, t: Tag, keyWanted: bool, found: Parsed, item: Item)
    requires s != [] && t.cls == 0 && t.number == 16 && ReadItem(lib, s, keyWanted && found.key.None?) == Some(item)
    requires |item.rest| > 8 && ParseTag(item.rest).None?
    ensures ReadItems(lib, s, t, keyWanted, found) == (false, With(found, item))
  {
  }

  /** And the same behind the attributes. */
  lemma TrailerBehindAttributes(attrs: bytes, junk: bytes, t: Tag)
    requires |attrs| < 65536 && ParseTag(junk).None?
    ensures NextItem(Tlv(SetOf, attrs) + junk, t).Some? <==> |Tlv(SetOf, attrs) + junk| <= 8 || |junk| <= 8
  {
    TlvReads(SetOf, attrs, junk);
    TakenFrom(attrs, junk);
  }

  // ---------------------------------------------------------------------------------
  // A bag that cannot be read ends the parse.

  lemma BagFails(read: (Tag, bytes, Parsed) -> Contents, oid: bytes, body: bytes, s: bytes, n: nat, more: bytes, found: Parsed, found': Parsed, consumed: nat)
    requires |oid| == 9 && |Tlv(ObjectId, oid) + body| < 65536 && s == OneBag(oid, body) + more && n >= |OneBag(oid, body)|
    requires read(TagOf(ObjectId, 9), oid + (body + more), found) == Read(false, found', consumed)
    ensures ReadBags(read, s, n, false, found) == Parsed(None, found'.certs)
  {
    BagSize(oid, body, more);
    BagStarts(oid, body, more, n);
    StepFails(read, s, StartOf(oid, body, more), n, found, found', consumed);
  }

  lemma StepFails(read: (Tag, bytes, Parsed) -> Contents, s: bytes, b: Start, n: nat, found: Parsed, found': Parsed, consumed: nat)
    requires n > 0 && BagStart(s, n, false) == b && b.Start? && read(b.u, b.s, found) == Read(false, found', consumed)
    ensures ReadBags(read, s, n, false, found) == Parsed(None, found'.certs)
  {
  }

  /** No key in a bag that should hold one: whatever follows, no key is returned. */
  lemma KeyBagFails(lib: Lib, pw: bytes, body: bytes, s: bytes, n: nat, more: bytes, certs: seq<bytes>)
    requires |Tlv(ObjectId, OidData) + body| < 65536 && s == OneBag(OidData, body) + more && n >= |OneBag(OidData, body)|
    requires ReadData(lib, body + more, pw).None?
    ensures ReadBags(Reader(lib, pw), s, n, false, Parsed(None, certs)) == Parsed(None, certs)
  {
    DataBagFound(lib, pw, body + more, certs);
    BagFails(Reader(lib, pw), OidData, body, s, n, more, Parsed(None, certs), Parsed(None, certs), 0);
  }

  /** An error in encrypted data: the certificates in front of it have been handed back, a key found
      before is dropped. */
  lemma ItemsBagFails(lib: Lib, pw: bytes, body: bytes, s: bytes, n: nat, more: bytes, found: Parsed)
    requires |Tlv(ObjectId, OidEncryptedData) + body| < 65536 && s == OneBag(OidEncryptedData, body) + more && n >= |OneBag(OidEncryptedData, body)|
    requires !ReadEncryptedData(lib, body + more, pw, found.key.None?, found.certs).ok
    ensures ReadBags(Reader(lib, pw), s, n, false, found) ==
              Parsed(None, ReadEncryptedData(lib, body + more, pw, found.key.None?, found.certs).found.certs)
  {
    var bag := ReadEncryptedData(lib, body + more, pw, found.key.None?, found.certs);
    EncryptedFound(lib, pw, body + more, found, bag);
    BagFails(Reader(lib, pw), OidEncryptedData, body, s, n, more, found,
             Parsed(if found.key.Some? then found.key else bag.found.key, bag.found.certs), bag.consumed);
  }
}
