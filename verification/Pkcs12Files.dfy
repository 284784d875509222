/** p12_parse on files of other makers than p12_build: bags with any number of items, either
    cipher, any salt and iteration count, chunked octet strings. */
module Pkcs12Files {
  import opened Wrappers
  import opened Octets
  import opened Der
  import opened Pkcs12
  import opened Pkcs12RoundTrip
  import opened Powers
  import opened DerReading

  // ---------------------------------------------------------------------------------
  // The items of an encrypted bag.

  datatype Entry = CertEntry(cert: bytes) | CrlEntry(crl: bytes) | KeyEntry(params: seq<nat>)

  /** An item of a bag, with a SET of attributes or without. */
  datatype Entity = Entity(entry: Entry, attrs: Option<bytes>)

  function EntryBytes(lib: Lib, e: Entry): bytes {
    match e
    case CertEntry(cert) => CertItem(cert)
    case CrlEntry(crl) => Tlv(ObjectId, OidCrlBag) + Tlv(Context, crl)
    case KeyEntry(params) => Tlv(ObjectId, OidKeyBag) + Tlv(Context, KeySequence(lib, params))
  }

  function AttrBytes(attrs: Option<bytes>): bytes { if attrs.None? then [] else Tlv(SetOf, attrs.value) }

  function EntityContents(lib: Lib, e: Entity): bytes { EntryBytes(lib, e.entry) + AttrBytes(e.attrs) }

  function EntitiesBytes(lib: Lib, list: seq<Entity>): bytes {
    if list == [] then [] else Tlv(Sequence, EntityContents(lib, list[0])) + EntitiesBytes(lib, list[1..])
  }

  /** The certificates of a list, in order. */
  function Certs(list: seq<Entity>): seq<bytes> {
    if list == [] then []
    else (if list[0].entry.CertEntry? then [list[0].entry.cert] else []) + Certs(list[1..])
  }

  /** The first key of a list. */
  function FirstKey(lib: Lib, list: seq<Entity>): Option<seq<nat>> {
    if list == [] then None
    else if list[0].entry.KeyEntry? then Some(Kept(lib, list[0].entry.params))
    else FirstKey(lib, list[1..])
  }

  /** What can be written with two length octets, and a key that fits the parser's array. */
  predicate EntityOk(lib: Lib, e: Entity) {
    && |EntityContents(lib, e)| < 65536
    && (e.entry.KeyEntry? ==> |e.entry.params| <= 9 && Encodable(lib, e.entry.params))
  }

  predicate EntitiesOk(lib: Lib, list: seq<Entity>) { forall i | 0 <= i < |list| :: EntityOk(lib, list[i]) }

  /** What the parser makes of one entry. */
  function Expected1(lib: Lib, e: Entry, keyWanted: bool, rest: bytes): Item {
    match e
    case CertEntry(cert) => Item(Some(cert), None, rest)
    case CrlEntry(_) => Item(None, None, rest)
    case KeyEntry(params) => Item(None, if keyWanted then Some(Kept(lib, params)) else None, rest)
  }

  lemma BagOids(oid: bytes, tail: bytes)
    requires oid == OidCertBag || oid == OidCrlBag || oid == OidKeyBag
    ensures var t, s := TagOf(ObjectId, 11), oid + tail;
            && (IsOid(t, s, OidCertBag) <==> oid == OidCertBag)
            && (IsOid(t, s, OidCrlBag) <==> oid == OidCrlBag)
            && (IsOid(t, s, OidKeyBag) <==> oid == OidKeyBag)
            && Advance(s, 11) == tail
  {
    TakenFrom(oid, tail);
    assert (oid + tail)[10] == oid[10];
    assert OidCertBag[10] == 3 && OidCrlBag[10] == 4 && OidKeyBag[10] == 1;
  }

  /** The head of an entry: its object identifier and the [0] around the rest. */
  lemma EntryHead(oid: bytes, contents: bytes, tail: bytes)
    requires (oid == OidCertBag || oid == OidCrlBag || oid == OidKeyBag) && |contents| < 65536
    ensures var s := (Tlv(ObjectId, oid) + Tlv(Context, contents)) + tail; var s1 := oid + (Tlv(Context, contents) + tail);
            && Expect(s, 0, 6) == Some((TagOf(ObjectId, 11), s1))
            && Expect(Advance(s1, 11), 2, 0) == Some((TagOf(Context, |contents|), contents + tail))
  {
    Join(Tlv(ObjectId, oid), Tlv(Context, contents), tail);
    Expected(ObjectId, oid, Tlv(Context, contents) + tail);
    BagOids(oid, Tlv(Context, contents) + tail);
    Expected(Context, contents, tail);
  }

  lemma CertSize(cert: bytes)
    requires |CertItem(cert)| < 65536
    ensures |cert| + 32 < 65536 && |Tlv(Sequence, CertValue(cert))| < |CertItem(cert)|
  {
    var s1 := Tlv(OctetString, cert);
    TlvLength(OctetString, cert);
    TlvLength(Context, s1);
    TlvLength(ObjectId, OidX509);
    TlvLength(Sequence, CertValue(cert));
    TlvLength(Context, Tlv(Sequence, CertValue(cert)));
    TlvLength(ObjectId, OidCertBag);
  }

  lemma EntrySize(lib: Lib, e: Entry)
    ensures e.CrlEntry? ==> |e.crl| < |EntryBytes(lib, e)|
    ensures e.KeyEntry? ==> |KeySequence(lib, e.params)| < |EntryBytes(lib, e)|
    ensures |EntryBytes(lib, e)| >= 13
  {
    TlvLength(ObjectId, OidCertBag);
    TlvLength(ObjectId, OidCrlBag);
    TlvLength(ObjectId, OidKeyBag);
    match e
    case CertEntry(cert) =>
    case CrlEntry(crl) => TlvLength(Context, crl);
    case KeyEntry(params) => TlvLength(Context, KeySequence(lib, params));
  }

  lemma CrlIs(lib: Lib, s: bytes, t: Tag, s1: bytes, u: Tag, s2: bytes, keyWanted: bool)
    requires Expect(s, 0, 6) == Some((t, s1)) && IsOid(t, s1, OidCrlBag) && Expect(Advance(s1, t.length), 2, 0) == Some((u, s2))
    ensures ReadItem(lib, s, keyWanted) == Some(Item(None, None, Advance(s2, u.length)))
  {
  }

  lemma KeyItemIs(lib: Lib, s: bytes, t: Tag, s1: bytes, u: Tag, s2: bytes, keyWanted: bool, key: Option<(seq<nat>, bytes)>)
    requires Expect(s, 0, 6) == Some((t, s1)) && IsOid(t, s1, OidKeyBag) && !IsOid(t, s1, OidCrlBag) && !IsOid(t, s1, OidCertBag)
    requires Expect(Advance(s1, t.length), 2, 0) == Some((u, s2)) && ReadKey(lib, s2) == key && key.Some?
    ensures ReadItem(lib, s, keyWanted) ==
              Some(if keyWanted then Item(None, Some(key.value.0), key.value.1) else Item(None, None, Advance(s2, u.length)))
  {
  }

  lemma EntryRead(lib: Lib, e: Entry, tail: bytes, keyWanted: bool)
    requires Lawful(lib) && |EntryBytes(lib, e)| < 65536
    requires e.KeyEntry? ==> |e.params| <= 9 && Encodable(lib, e.params)
    ensures ReadItem(lib, EntryBytes(lib, e) + tail, keyWanted) == Some(Expected1(lib, e, keyWanted, tail))
  {
    EntrySize(lib, e);
    match e
    case CertEntry(cert) =>
      CertSize(cert);
      CertItemRead(lib, cert, tail, keyWanted);
    case CrlEntry(crl) =>
      EntryHead(OidCrlBag, crl, tail);
      BagOids(OidCrlBag, Tlv(Context, crl) + tail);
      CrlIs(lib, EntryBytes(lib, e) + tail, TagOf(ObjectId, 11), OidCrlBag + (Tlv(Context, crl) + tail), TagOf(Context, |crl|), crl + tail, keyWanted);
      Advanced(crl, tail);
    case KeyEntry(params) =>
      var key := KeySequence(lib, params);
      EntryHead(OidKeyBag, key, tail);
      BagOids(OidKeyBag, Tlv(Context, key) + tail);
      KeyRead(lib, params, tail);
      KeyItemIs(lib, EntryBytes(lib, e) + tail, TagOf(ObjectId, 11), OidKeyBag + (Tlv(Context, key) + tail), TagOf(Context, |key|), key + tail,
                keyWanted, Some((Kept(lib, params), tail)));
      Advanced(key, tail);
  }

  /** Behind an item: the attributes are passed over; then comes the next item, or padding. */
  lemma NextRead(lib: Lib, attrs: Option<bytes>, pad: bytes, t: Tag)
    requires (attrs.Some? ==> |attrs.value| < 65536) && |pad| <= 8
    ensures var r := NextItem(AttrBytes(attrs) + pad, t); r.Some? && r.value.1 == []
  {
    NothingInFront(pad);
    if attrs.Some? {
      TlvReads(SetOf, attrs.value, pad);
      TakenFrom(attrs.value, pad);
    }
  }

  lemma NextSequence(attrs: Option<bytes>, contents: bytes, more: bytes, t: Tag)
    requires (attrs.Some? ==> |attrs.value| < 65536) && 13 <= |contents| < 65536
    ensures NextItem(AttrBytes(attrs) + (Tlv(Sequence, contents) + more), t) == Some((TagOf(Sequence, |contents|), contents + more))
  {
    var s := Tlv(Sequence, contents) + more;
    TlvLength(Sequence, contents);
    TlvReads(Sequence, contents, more);
    if attrs.None? {
      NothingInFront(s);
    } else {
      TlvReads(SetOf, attrs.value, s);
      TakenFrom(attrs.value, s);
    }
  }

  lemma ItemsStep(lib: Lib, s: bytes, t: Tag, keyWanted: bool, found: Parsed, item: Item, u: Tag, rest: bytes)
    requires s != [] && t.cls == 0 && t.number == 16
    requires ReadItem(lib, s, keyWanted && found.key.None?) == Some(item) && NextItem(item.rest, t) == Some((u, rest))
    ensures ReadItems(lib, s, t, keyWanted, found) == ReadItems(lib, rest, u, keyWanted, With(found, item))
  {
  }

  /** What is found in a list of items. */
  function FoundIn(lib: Lib, list: seq<Entity>, keyWanted: bool, found: Parsed): Parsed {
    Parsed(if found.key.None? && keyWanted then FirstKey(lib, list) else found.key, found.certs + Certs(list))
  }

  lemma FoundStep(lib: Lib, list: seq<Entity>, keyWanted: bool, found: Parsed)
    requires list != [] && (!keyWanted ==> found.key.None?)
    ensures FoundIn(lib, list, keyWanted, found) == FoundIn(lib, list[1..], keyWanted, AddedBy(lib, list[0], keyWanted, found))
    ensures !keyWanted ==> AddedBy(lib, list[0], keyWanted, found).key.None?
  {
    var e := list[0].entry;
    if e.CertEntry? {
      assert found.certs + ([e.cert] + Certs(list[1..])) == (found.certs + [e.cert]) + Certs(list[1..]);
    } else {
      assert [] + Certs(list[1..]) == Certs(list[1..]);
    }
  }

  /** The position of the loop in front of the items of a list. */
  function Before(lib: Lib, list: seq<Entity>, pad: bytes): bytes
    requires list != []
  {
    EntityContents(lib, list[0]) + (EntitiesBytes(lib, list[1..]) + pad)
  }

  /** One pass of the loop that is not the last one. */
  lemma PassRead(lib: Lib, e: Entity, s: bytes, next: bytes, more: bytes, keyWanted: bool, found: Parsed, found': Parsed, t: Tag)
    requires Lawful(lib) && EntityOk(lib, e) && 13 <= |next| < 65536 && t.cls == 0 && t.number == 16
    requires s == EntityContents(lib, e) + (Tlv(Sequence, next) + more) && found' == AddedBy(lib, e, keyWanted, found)
    ensures ReadItems(lib, s, t, keyWanted, found) == ReadItems(lib, next + more, TagOf(Sequence, |next|), keyWanted, found')
  {
    var tail := Tlv(Sequence, next) + more;
    OneEntity(lib, e, tail, keyWanted && found.key.None?);
    NextSequence(e.attrs, next, more, t);
    ItemsStep(lib, s, t, keyWanted, found,
              Expected1(lib, e.entry, keyWanted && found.key.None?, AttrBytes(e.attrs) + tail), TagOf(Sequence, |next|), next + more);
  }

  /** The last pass. */
  lemma LastRead(lib: Lib, e: Entity, pad: bytes, keyWanted: bool, found: Parsed, t: Tag)
    requires Lawful(lib) && EntityOk(lib, e) && |pad| <= 8 && t.cls == 0 && t.number == 16
    ensures ReadItems(lib, EntityContents(lib, e) + pad, t, keyWanted, found) == (true, AddedBy(lib, e, keyWanted, found))
  {
    OneEntity(lib, e, pad, keyWanted && found.key.None?);
    NextRead(lib, e.attrs, pad, t);
    ItemsStep(lib, EntityContents(lib, e) + pad, t, keyWanted, found,
              Expected1(lib, e.entry, keyWanted && found.key.None?, AttrBytes(e.attrs) + pad), NextItem(AttrBytes(e.attrs) + pad, t).value.0, []);
  }

  /** What one item adds. */
  function AddedBy(lib: Lib, e: Entity, keyWanted: bool, found: Parsed): Parsed {
    With(found, Expected1(lib, e.entry, keyWanted && found.key.None?, []))
  }

  lemma {:induction false} EntitiesRead(lib: Lib, list: seq<Entity>, pad: bytes, keyWanted: bool, found: Parsed)
    requires Lawful(lib) && list != [] && EntitiesOk(lib, list) && |pad| <= 8 && (!keyWanted ==> found.key.None?)
    ensures ReadItems(lib, Before(lib, list, pad), TagOf(Sequence, |EntityContents(lib, list[0])|), keyWanted, found) ==
              (true, FoundIn(lib, list, keyWanted, found))
    decreases |list|
  {
    var e, rest := list[0], list[1..];
    var t := TagOf(Sequence, |EntityContents(lib, e)|);
    var found' := AddedBy(lib, e, keyWanted, found);
    FirstEntityOk(lib, list);
    FoundStep(lib, list, keyWanted, found);
    if rest == [] {
      LastRead(lib, e, pad, keyWanted, found, t);
      NothingFound(lib, keyWanted, found');
      NothingInFront(pad);
    } else {
      var next, more := EntityContents(lib, rest[0]), EntitiesBytes(lib, rest[1..]) + pad;
      FirstEntityOk(lib, rest);
      MoreJoined(lib, rest, pad);
      PassRead(lib, e, Before(lib, list, pad), next, more, keyWanted, found, found', t);
      EntitiesRead(lib, rest, pad, keyWanted, found');
    }
  }

  lemma FirstEntityOk(lib: Lib, list: seq<Entity>)
    requires list != [] && EntitiesOk(lib, list)
    ensures EntityOk(lib, list[0]) && 13 <= |EntityContents(lib, list[0])| < 65536 && EntitiesOk(lib, list[1..])
  {
    assert EntityOk(lib, list[0]);
    EntrySize(lib, list[0].entry);
  }

  lemma NothingFound(lib: Lib, keyWanted: bool, found: Parsed)
    ensures FoundIn(lib, [], keyWanted, found) == found
  {
    assert found.certs + [] == found.certs;
  }

  lemma MoreJoined(lib: Lib, list: seq<Entity>, pad: bytes)
    requires list != []
    ensures EntitiesBytes(lib, list) + pad ==
              Tlv(Sequence, EntityContents(lib, list[0])) + (EntitiesBytes(lib, list[1..]) + pad)
  {
    Join(Tlv(Sequence, EntityContents(lib, list[0])), EntitiesBytes(lib, list[1..]), pad);
  }

  lemma OneEntity(lib: Lib, e: Entity, more: bytes, keyWanted: bool)
    requires Lawful(lib) && EntityOk(lib, e)
    ensures (e.attrs.Some? ==> |e.attrs.value| < 65536) && EntityContents(lib, e) + more != []
    ensures ReadItem(lib, EntityContents(lib, e) + more, keyWanted) ==
              Some(Expected1(lib, e.entry, keyWanted, AttrBytes(e.attrs) + more))
  {
    Join(EntryBytes(lib, e.entry), AttrBytes(e.attrs), more);
    EntrySize(lib, e.entry);
    if e.attrs.Some? {
      TlvLength(SetOf, e.attrs.value);
    }
    EntryRead(lib, e.entry, AttrBytes(e.attrs) + more, keyWanted);
  }

  /** Every certificate of a bag is handed back, in order and once; revocation lists are passed
      over; the first key is kept, if one is wanted; each item may have a SET of attributes, and
      up to eight octets behind the last one are padding. */
  lemma ContentsRead(lib: Lib, list: seq<Entity>, pad: bytes, keyWanted: bool, certs: seq<bytes>)
    requires Lawful(lib) && list != [] && EntitiesOk(lib, list) && |EntitiesBytes(lib, list)| < 65536 && |pad| <= 8
    ensures ReadContents(lib, Tlv(Sequence, EntitiesBytes(lib, list)) + pad, keyWanted, certs) ==
              (true, Parsed(if keyWanted then FirstKey(lib, list) else None, certs + Certs(list)))
    ensures Plausible(Tlv(Sequence, EntitiesBytes(lib, list)) + pad, false)
  {
    var items, contents := EntitiesBytes(lib, list), EntityContents(lib, list[0]);
    FirstEntityOk(lib, list);
    Expected(Sequence, items, pad);
    MoreJoined(lib, list, pad);
    TlvReads(Sequence, contents, EntitiesBytes(lib, list[1..]) + pad);
    EntitiesRead(lib, list, pad, keyWanted, Parsed(None, certs));
    ContentsAre(lib, Tlv(Sequence, items) + pad, TagOf(Sequence, |items|), items + pad, TagOf(Sequence, |contents|), Before(lib, list, pad), keyWanted, certs);
  }

  lemma ContentsAre(lib: Lib, s: bytes, t: Tag, s1: bytes, u: Tag, s2: bytes, keyWanted: bool, certs: seq<bytes>)
    requires Expect(s, 0, 16) == Some((t, s1)) && ParseTag(s1) == Some((u, s2))
    ensures ReadContents(lib, s, keyWanted, certs) == ReadItems(lib, s2, u, keyWanted, Parsed(None, certs)) && Plausible(s, false)
  {
  }

  // ---------------------------------------------------------------------------------
  // Decryption: the password in other character sets.

  /** The password in character set i; set 0 is the one it came in. */
  function Candidate(lib: Lib, pw: bytes, i: nat): Option<bytes> { if i == 0 then Some(pw) else lib.convert(i, pw) }

  /** What it gives; nothing but zeros where it is longer than 31 octets. */
  function Attempt(lib: Lib, algo: Algo, salt: bytes, iter: nat, candidate: bytes, data: bytes): bytes {
    if |candidate| <= 31 then lib.decrypt(algo, salt, iter, candidate, data) else Zeros(|data|)
  }

  /** The text that character set i gives, if the password can be converted to it. */
  function Given(lib: Lib, algo: Algo, salt: bytes, iter: nat, pw: bytes, data: bytes, i: nat): Option<bytes> {
    if Candidate(lib, pw, i).None? then None else Some(Attempt(lib, algo, salt, iter, Candidate(lib, pw, i).value, data))
  }

  /** The last text before number n, if there is one. */
  function LastBefore(given: nat -> Option<bytes>, n: nat): Option<bytes> {
    if n == 0 then None else if given(n - 1).Some? then given(n - 1) else LastBefore(given, n - 1)
  }

  predicate Wanted(given: nat -> Option<bytes>, ok: bytes -> bool, j: nat) { given(j).Some? && ok(given(j).value) }

  /** The first text that is wanted; and if there is none, the last one. */
  ghost predicate Chosen(given: nat -> Option<bytes>, ok: bytes -> bool, plain: bytes) {
    || (exists k: nat :: k < 16 && Wanted(given, ok, k) && given(k) == Some(plain) && forall j: nat | j < k :: !Wanted(given, ok, j))
    || ((forall j: nat | j < 16 :: !Wanted(given, ok, j)) && LastBefore(given, 16) == Some(plain))
  }

  /** None of the first i texts is wanted, and this is the last of them. */
  ghost predicate Passed(given: nat -> Option<bytes>, ok: bytes -> bool, i: nat, last: bytes) {
    (forall j: nat | j < i :: !Wanted(given, ok, j)) && (i > 0 ==> LastBefore(given, i) == Some(last))
  }

  lemma PassedOne(given: nat -> Option<bytes>, ok: bytes -> bool, i: nat, last: bytes, g: Option<bytes>)
    requires Passed(given, ok, i, last) && g == given(i) && !(g.Some? && ok(g.value)) && (i == 0 ==> g.Some?)
    ensures Passed(given, ok, i + 1, if g.Some? then g.value else last)
  {
  }

  lemma {:induction false} DecodeChooses(lib: Lib, algo: Algo, salt: bytes, iter: nat, pw: bytes, data: bytes, key: bool, i: nat, last: bytes,
                                         given: nat -> Option<bytes>, ok: bytes -> bool)
    requires i <= 16 && (forall j :: given(j) == Given(lib, algo, salt, iter, pw, data, j)) && (forall x :: ok(x) == Plausible(x, key))
    requires Passed(given, ok, i, last)
    ensures Chosen(given, ok, Decode(lib, algo, salt, iter, pw, data, key, i, last))
    decreases 16 - i
  {
    if i < 16 {
      var g := given(i);
      var good := g.Some? && ok(g.value);
      OneAttempt(lib, algo, salt, iter, pw, data, key, i, last, g, good);
      if good {
        assert Wanted(given, ok, i);
      } else {
        PassedOne(given, ok, i, last, g);
        DecodeChooses(lib, algo, salt, iter, pw, data, key, i + 1, if g.Some? then g.value else last, given, ok);
      }
    }
  }

  lemma OneAttempt(lib: Lib, algo: Algo, salt: bytes, iter: nat, pw: bytes, data: bytes, key: bool, i: nat, last: bytes, g: Option<bytes>, good: bool)
    requires i < 16 && g == Given(lib, algo, salt, iter, pw, data, i) && (g.Some? ==> good == Plausible(g.value, key))
    ensures Decode(lib, algo, salt, iter, pw, data, key, i, last) ==
              if g.None? then Decode(lib, algo, salt, iter, pw, data, key, i + 1, last)
              else if good then g.value
              else Decode(lib, algo, salt, iter, pw, data, key, i + 1, g.value)
  {
  }

  /** decrypt_block returns the text of the first of the sixteen character sets that gives a
      plausible one; and if none does, of the last one that the password can be converted to. */
  lemma DecodeMeans(lib: Lib, algo: Algo, salt: bytes, iter: nat, pw: bytes, data: bytes, key: bool)
    ensures Chosen((j: nat) => Given(lib, algo, salt, iter, pw, data, j), (x: bytes) => Plausible(x, key),
                   Decode(lib, algo, salt, iter, pw, data, key, 0, []))
  {
    DecodeChooses(lib, algo, salt, iter, pw, data, key, 0, [],
                  (j: nat) => Given(lib, algo, salt, iter, pw, data, j), (x: bytes) => Plausible(x, key));
  }

  // ---------------------------------------------------------------------------------
  // The algorithm with its salt and its iteration count.

  lemma {:induction false} IterationsSnoc(octets: bytes, x: byte, iter: nat)
    ensures Iterations(octets + [x], iter) == (Iterations(octets, iter) * 256) % 0x1_0000_0000 + x
  {
    if octets == [] {
      assert octets + [x] == [x] && [x][1..] == [];
    } else {
      assert (octets + [x])[0] == octets[0] && (octets + [x])[1..] == octets[1..] + [x];
      IterationsSnoc(octets[1..], x, (iter * 256) % 0x1_0000_0000 + octets[0]);
    }
  }

  /** The iteration count is the number modulo 2^32. */
  lemma {:induction false} IterationsAre(octets: bytes)
    ensures Iterations(octets, 0) == Number(octets) % 0x1_0000_0000
  {
    if octets != [] {
      var pre, x := octets[..|octets| - 1], octets[|octets| - 1];
      IterationsAre(pre);
      IterationsSnoc(pre, x, 0);
      assert pre + [x] == octets;
      ShiftedIn(Number(pre), x, 256, 0x100_0000);
    }
  }

  function PbeContents(salt: bytes, count: bytes): bytes { Tlv(OctetString, salt) + Tlv(Integer, count) }

  lemma PbeParts(salt: bytes, count: bytes, tail: bytes)
    requires |PbeContents(salt, count)| < 65536
    ensures var rest := Tlv(Integer, count) + tail;
            && |salt| < 65536 && |count| < 65536
            && Expect(PbeContents(salt, count) + tail, 0, 4) == Some((TagOf(OctetString, |salt|), salt + rest))
            && Advance(salt + rest, |salt|) == rest && (salt + rest)[..|salt|] == salt
            && Expect(rest, 0, 2) == Some((TagOf(Integer, |count|), count + tail))
            && Advance(count + tail, |count|) == tail && (count + tail)[..|count|] == count
  {
    TlvLength(OctetString, salt);
    TlvLength(Integer, count);
    Join(Tlv(OctetString, salt), Tlv(Integer, count), tail);
    Expected(OctetString, salt, Tlv(Integer, count) + tail);
    TakenFrom(salt, Tlv(Integer, count) + tail);
    Expected(Integer, count, tail);
    TakenFrom(count, tail);
  }

  /** Salts of 8 to 20 octets are read, and counts of any octets but none. */
  lemma PbeJudged(salt: bytes, count: bytes, tail: bytes)
    requires |PbeContents(salt, count)| < 65536
    ensures ReadPbeParams(Tlv(Sequence, PbeContents(salt, count)) + tail) ==
              if 8 <= |salt| <= 20 && count != [] then Some((salt, Number(count) % 0x1_0000_0000, tail)) else None
  {
    Expected(Sequence, PbeContents(salt, count), tail);
    PbeParts(salt, count, tail);
    IterationsAre(count);
    PbeIs(Tlv(Sequence, PbeContents(salt, count)) + tail, TagOf(Sequence, |PbeContents(salt, count)|), PbeContents(salt, count) + tail,
          TagOf(OctetString, |salt|), salt + (Tlv(Integer, count) + tail), TagOf(Integer, |count|), count + tail);
  }

  lemma PbeIs(s: bytes, t1: Tag, s1: bytes, t2: Tag, s2: bytes, t3: Tag, s3: bytes)
    requires Expect(s, 0, 16) == Some((t1, s1)) && Expect(s1, 0, 4) == Some((t2, s2)) && Expect(Advance(s2, t2.length), 0, 2) == Some((t3, s3))
    ensures ReadPbeParams(s) ==
              if 8 <= t2.length <= 20 && t3.length != 0
              then Some((s2[..t2.length], Iterations(s3[..t3.length], 0), Advance(s3, t3.length))) else None
  {
  }

  lemma OidJudged(oid: bytes, want: bytes, tail: bytes)
    requires |oid| < 128
    ensures ReadOid(Tlv(ObjectId, oid) + tail, want, false) == if oid == want then Some(tail) else None
  {
    TlvReads(ObjectId, oid, tail);
    TakenFrom(oid, tail);
    assert (oid + tail)[..|oid|] == oid;
  }

  function AlgorithmBytes(oid: bytes, salt: bytes, count: bytes): bytes {
    Tlv(Sequence, Tlv(ObjectId, oid) + Tlv(Sequence, PbeContents(salt, count)))
  }

  /** RC2 and triple DES are known, and nothing else. */
  lemma AlgorithmJudged(oid: bytes, salt: bytes, count: bytes, tail: bytes)
    requires |oid| < 128 && |Tlv(ObjectId, oid) + Tlv(Sequence, PbeContents(salt, count))| < 65536
    ensures ReadAlgorithm(AlgorithmBytes(oid, salt, count) + tail) ==
              if (oid == OidRc2 || oid == OidTripleDes) && 8 <= |salt| <= 20 && count != []
              then Some((if oid == OidRc2 then Rc2 else TripleDes, salt, Number(count) % 0x1_0000_0000, tail)) else None
  {
    var pbe := Tlv(Sequence, PbeContents(salt, count));
    TlvLength(Sequence, PbeContents(salt, count));
    Expected(Sequence, Tlv(ObjectId, oid) + pbe, tail);
    Join(Tlv(ObjectId, oid), pbe, tail);
    OidJudged(oid, OidRc2, pbe + tail);
    OidJudged(oid, OidTripleDes, pbe + tail);
    PbeJudged(salt, count, tail);
    CiphersDiffer();
    AlgorithmIs(AlgorithmBytes(oid, salt, count) + tail, TagOf(Sequence, |Tlv(ObjectId, oid) + pbe|), Tlv(ObjectId, oid) + (pbe + tail), pbe + tail,
                oid == OidRc2, oid == OidTripleDes, ReadPbeParams(pbe + tail));
  }

  lemma CiphersDiffer()
    ensures OidRc2 != OidTripleDes
  {
    assert OidRc2[9] != OidTripleDes[9];
  }

  lemma AlgorithmIs(s: bytes, t: Tag, s1: bytes, s2: bytes, rc2: bool, des: bool, pbe: Option<(bytes, nat, bytes)>)
    requires Expect(s, 0, 16) == Some((t, s1)) && ReadPbeParams(s2) == pbe && !(rc2 && des)
    requires ReadOid(s1, OidRc2, false) == if rc2 then Some(s2) else None
    requires ReadOid(s1, OidTripleDes, false) == if des then Some(s2) else None
    ensures ReadAlgorithm(s) ==
              if (rc2 || des) && pbe.Some? then Some((if rc2 then Rc2 else TripleDes, pbe.value.0, pbe.value.1, pbe.value.2)) else None
  {
  }

  // ---------------------------------------------------------------------------------
  // Octet strings in chunks: section 8.7.3 of X.690.

  function ChunksBytes(list: seq<bytes>): bytes {
    if list == [] then [] else Tlv(OctetString, list[0]) + ChunksBytes(list[1..])
  }

  function Joined(list: seq<bytes>): bytes {
    if list == [] then [] else list[0] + Joined(list[1..])
  }

  const Null: bytes := [0x00, 0x00]

  predicate ChunksOk(list: seq<bytes>) { forall i | 0 <= i < |list| :: |list[i]| < 65536 }

  lemma NullRead(tail: bytes)
    ensures ParseTag(Null + tail) == Some((Tag(0, false, 0, 0, 2, false), tail))
  {
    var s := Null + tail;
    assert s[0] == 0 && s[1..][0] == 0 && s[1..][1..] == tail;
  }

  lemma CramEnds(tail: bytes, acc: bytes)
    ensures Cram(Null + tail, acc) == Some((acc, tail))
  {
    NullRead(tail);
  }

  lemma CramIs(s: bytes, t: Tag, rest: bytes, acc: bytes)
    requires ParseTag(s) == Some((t, rest)) && t.cls == 0 && t.number == 4 && !t.ndef && !t.constructed
    ensures Cram(s, acc) == Cram(Advance(rest, t.length), acc + rest[..t.length])
  {
  }

  lemma CramStep(chunk: bytes, more: bytes, acc: bytes)
    requires |chunk| < 65536
    ensures Cram(Tlv(OctetString, chunk) + more, acc) == Cram(more, acc + chunk)
  {
    TlvReads(OctetString, chunk, more);
    CramIs(Tlv(OctetString, chunk) + more, TagOf(OctetString, |chunk|), chunk + more, acc);
    TakenFrom(chunk, more);
  }

  /** The chunks come back joined. */
  lemma {:induction false} ChunksRead(list: seq<bytes>, tail: bytes, acc: bytes)
    requires ChunksOk(list)
    ensures Cram(ChunksBytes(list) + (Null + tail), acc) == Some((acc + Joined(list), tail))
  {
    if list == [] {
      NothingInFront(Null + tail);
      CramEnds(tail, acc);
      NothingBehind(acc);
    } else {
      var more := ChunksBytes(list[1..]);
      Join(Tlv(OctetString, list[0]), more, Null + tail);
      assert |list[0]| < 65536;
      CramStep(list[0], more + (Null + tail), acc);
      ChunksRead(list[1..], tail, acc + list[0]);
      Join(acc, list[0], Joined(list[1..]));
    }
  }

  /** The header of something of indefinite length. */
  lemma IndefiniteRead(tag: byte, tail: bytes)
    requires Short(tag)
    ensures ParseTag([tag, 0x80] + tail) == Some((Tag(tag / 64, tag / 32 % 2 == 1, tag % 32, 0, 2, true), tail))
  {
    var s := [tag, 0x80] + tail;
    assert s[0] == tag && s[1..][0] == 0x80 && s[1..][1..] == tail;
  }

  const Constructed: byte := 0x24     // an octet string that is made of others

  function Chunked(tag: byte, list: seq<bytes>): bytes { [tag, 0x80] + (ChunksBytes(list) + Null) }

  lemma ChunkedText(tag: byte, list: seq<bytes>, tail: bytes)
    ensures Chunked(tag, list) + tail == [tag, 0x80] + (ChunksBytes(list) + (Null + tail))
  {
    Join([tag, 0x80], ChunksBytes(list) + Null, tail);
    Join(ChunksBytes(list), Null, tail);
  }

  lemma CipherCrammed(s: bytes, t: Tag, s1: bytes, data: bytes, rest: bytes)
    requires Expect(s, 2, 0) == Some((t, s1)) && t.constructed && t.ndef && Cram(s1, []) == Some((data, rest))
    ensures ReadCipher(s) == Some((data, rest))
  {
  }

  lemma WrappedCrammed(s: bytes, t: Tag, s1: bytes, u: Tag, s2: bytes, data: bytes, rest: bytes)
    requires Expect(s, 2, 0) == Some((t, s1)) && Expect(s1, 0, 4) == Some((u, s2)) && u.constructed && u.ndef
    requires Cram(s2, []) == Some((data, rest))
    ensures ReadWrapped(s) == Some((data, Some(rest)))
  {
  }

  /** A header of indefinite length and its chunks. */
  lemma ChunkedParts(tag: byte, list: seq<bytes>, tail: bytes)
    requires Short(tag) && ChunksOk(list)
    ensures var s := ChunksBytes(list) + (Null + tail);
            && Expect(Chunked(tag, list) + tail, tag / 64, tag % 32) == Some((Tag(tag / 64, tag / 32 % 2 == 1, tag % 32, 0, 2, true), s))
            && Cram(s, []) == Some((Joined(list), tail))
  {
    ChunkedText(tag, list, tail);
    IndefiniteRead(tag, ChunksBytes(list) + (Null + tail));
    ChunksRead(list, tail, []);
    NothingInFront(Joined(list));
  }

  /** Encrypted octets in chunks. */
  lemma ChunkedCipherRead(list: seq<bytes>, tail: bytes)
    requires ChunksOk(list)
    ensures ReadCipher(Chunked(Context, list) + tail) == Some((Joined(list), tail))
  {
    ChunkedParts(Context, list, tail);
    CipherCrammed(Chunked(Context, list) + tail, Tag(2, true, 0, 0, 2, true), ChunksBytes(list) + (Null + tail), Joined(list), tail);
  }

  /** The octet string around bags, in chunks. */
  lemma ChunkedWrappedRead(list: seq<bytes>, tail: bytes)
    requires ChunksOk(list) && |Chunked(Constructed, list)| < 65536
    ensures ReadWrapped(Tlv(Context, Chunked(Constructed, list)) + tail) == Some((Joined(list), Some(tail)))
  {
    var c := Chunked(Constructed, list);
    Expected(Context, c, tail);
    ChunkedParts(Constructed, list, tail);
    WrappedCrammed(Tlv(Context, c) + tail, TagOf(Context, |c|), c + tail, Tag(0, true, 4, 0, 2, true), ChunksBytes(list) + (Null + tail),
                   Joined(list), tail);
  }

  // ---------------------------------------------------------------------------------
  // A bag with encrypted data, of any maker.

  /** The bag behind its object identifier. */
  function EncryptedBody(algorithm: bytes, cipher: bytes): bytes {
    Tlv(Context, Tlv(Sequence, Tlv(Integer, [0]) + Tlv(Sequence, Tlv(ObjectId, OidData) + (algorithm + cipher))))
  }

  lemma BodyLengths(algorithm: bytes, cipher: bytes)
    requires |EncryptedBody(algorithm, cipher)| < 65536
    ensures var s4 := Tlv(ObjectId, OidData) + (algorithm + cipher); var s2 := Tlv(Integer, [0]) + Tlv(Sequence, s4);
            |s4| < 65536 && |s2| < 65536 && |Tlv(Sequence, s2)| < 65536 && |algorithm| < 65536 && |cipher| < 65536
  {
    var s4 := Tlv(ObjectId, OidData) + (algorithm + cipher);
    var s2 := Tlv(Integer, [0]) + Tlv(Sequence, s4);
    TlvLength(Sequence, s4);
    TlvLength(Sequence, s2);
    TlvLength(Context, Tlv(Sequence, s2));
  }

  lemma AnyHeadRead(algorithm: bytes, cipher: bytes, tail: bytes)
    requires |EncryptedBody(algorithm, cipher)| < 65536
    ensures ReadEncryptedHead(EncryptedBody(algorithm, cipher) + tail) == Some(algorithm + (cipher + tail))
  {
    var x := algorithm + cipher;
    var s4 := Tlv(ObjectId, OidData) + x;
    var s3 := Tlv(Sequence, s4);
    var s2 := Tlv(Integer, [0]) + s3;
    BodyLengths(algorithm, cipher);
    OuterHeadRead(s3, tail);
    InnerHeadRead(x, tail);
    Join(algorithm, cipher, tail);
    EncryptedHeadIs(EncryptedBody(algorithm, cipher) + tail, TagOf(Context, |Tlv(Sequence, s2)|), Tlv(Sequence, s2) + tail,
                    TagOf(Sequence, |s2|), s2 + tail, s3 + tail, TagOf(Sequence, |s4|), s4 + tail, x + tail);
  }

  lemma EncryptedIs(lib: Lib, s: bytes, pw: bytes, keyWanted: bool, certs: seq<bytes>, s1: bytes, algo: Algo, salt: bytes, iter: nat,
                    s2: bytes, data: bytes, rest: bytes, contents: (bool, Parsed))
    requires ReadEncryptedHead(s) == Some(s1) && ReadAlgorithm(s1) == Some((algo, salt, iter, s2)) && ReadCipher(s2) == Some((data, rest))
    requires ReadContents(lib, Decode(lib, algo, salt, iter, pw, data, false, 0, []), keyWanted, certs) == contents
    ensures ReadEncryptedData(lib, s, pw, keyWanted, certs) == Bag(contents.0, contents.1, Consumed(s, rest))
  {
  }

  /** The cipher, its salt and its count. */
  datatype Method = Method(algo: Algo, salt: bytes, count: bytes)

  function MethodBytes(m: Method): bytes { AlgorithmBytes(if m.algo == Rc2 then OidRc2 else OidTripleDes, m.salt, m.count) }

  predicate MethodOk(m: Method) { 8 <= |m.salt| <= 20 && m.count != [] }

  function Rounds(m: Method): nat { Number(m.count) % 0x1_0000_0000 }

  lemma MethodRead(m: Method, tail: bytes)
    requires MethodOk(m) && |MethodBytes(m)| < 65536
    ensures ReadAlgorithm(MethodBytes(m) + tail) == Some((m.algo, m.salt, Rounds(m), tail))
  {
    var oid := if m.algo == Rc2 then OidRc2 else OidTripleDes;
    TlvLength(Sequence, Tlv(ObjectId, oid) + Tlv(Sequence, PbeContents(m.salt, m.count)));
    AlgorithmJudged(oid, m.salt, m.count, tail);
    CiphersDiffer();
  }

  /** The encrypted octets, in one piece or in chunks. */
  datatype Cipher = Whole(data: bytes) | Parts(list: seq<bytes>)

  function CipherBytes(c: Cipher): bytes {
    match c
    case Whole(data) => Tlv(Implicit, data)
    case Parts(list) => Chunked(Context, list)
  }

  function CipherData(c: Cipher): bytes {
    match c
    case Whole(data) => data
    case Parts(list) => Joined(list)
  }

  predicate CipherOk(c: Cipher) {
    match c
    case Whole(data) => 0 < |data| < 65536
    case Parts(list) => ChunksOk(list)
  }

  lemma AnyCipherRead(c: Cipher, tail: bytes)
    requires CipherOk(c)
    ensures ReadCipher(CipherBytes(c) + tail) == Some((CipherData(c), if c.Whole? then c.data + tail else tail))
  {
    match c
    case Whole(data) => CipherRead(data, tail);
    case Parts(list) => ChunkedCipherRead(list, tail);
  }

  /** What is in the bag decides, whatever stands behind it. */
  lemma AnyEncryptedRead(lib: Lib, m: Method, c: Cipher, pw: bytes, keyWanted: bool, certs: seq<bytes>, tail: bytes, contents: (bool, Parsed))
    requires MethodOk(m) && CipherOk(c) && |EncryptedBody(MethodBytes(m), CipherBytes(c))| < 65536
    requires ReadContents(lib, Decode(lib, m.algo, m.salt, Rounds(m), pw, CipherData(c), false, 0, []), keyWanted, certs) == contents
    ensures var r := ReadEncryptedData(lib, EncryptedBody(MethodBytes(m), CipherBytes(c)) + tail, pw, keyWanted, certs);
            r.ok == contents.0 && r.found == contents.1
  {
    AnyHeadRead(MethodBytes(m), CipherBytes(c), tail);
    BodyLengths(MethodBytes(m), CipherBytes(c));
    MethodRead(m, CipherBytes(c) + tail);
    AnyCipherRead(c, tail);
    EncryptedIs(lib, EncryptedBody(MethodBytes(m), CipherBytes(c)) + tail, pw, keyWanted, certs, MethodBytes(m) + (CipherBytes(c) + tail),
                m.algo, m.salt, Rounds(m), CipherBytes(c) + tail, CipherData(c), if c.Whole? then c.data + tail else tail, contents);
  }

  /** The text of a bag: a sequence of items with up to eight octets behind it. */
  predicate Lists(lib: Lib, plain: bytes, list: seq<Entity>) {
    && list != [] && EntitiesOk(lib, list) && |EntitiesBytes(lib, list)| < 65536
    && Tlv(Sequence, EntitiesBytes(lib, list)) <= plain && |plain| <= |Tlv(Sequence, EntitiesBytes(lib, list))| + 8
  }

  lemma ListsRead(lib: Lib, plain: bytes, list: seq<Entity>, keyWanted: bool, certs: seq<bytes>)
    requires Lawful(lib) && Lists(lib, plain, list)
    ensures ReadContents(lib, plain, keyWanted, certs) == (true, Parsed(if keyWanted then FirstKey(lib, list) else None, certs + Certs(list)))
    ensures Plausible(plain, false)
  {
    var text := Tlv(Sequence, EntitiesBytes(lib, list));
    var pad := plain[|text|..];
    assert plain == text + pad;
    ContentsRead(lib, list, pad, keyWanted, certs);
  }

  lemma DecodedAtOnce(lib: Lib, m: Method, pw: bytes, data: bytes, key: bool, plain: bytes)
    requires |pw| <= MaxPassword && lib.decrypt(m.algo, m.salt, Rounds(m), pw, data) == plain && Plausible(plain, key)
    ensures Decode(lib, m.algo, m.salt, Rounds(m), pw, data, key, 0, []) == plain
  {
  }

  lemma ItemsFound(lib: Lib, m: Method, c: Cipher, pw: bytes, keyWanted: bool, certs: seq<bytes>, tail: bytes, list: seq<Entity>)
    requires Lawful(lib) && MethodOk(m) && CipherOk(c) && |EncryptedBody(MethodBytes(m), CipherBytes(c))| < 65536 && |pw| <= MaxPassword
    requires Lists(lib, lib.decrypt(m.algo, m.salt, Rounds(m), pw, CipherData(c)), list)
    ensures var r := ReadEncryptedData(lib, EncryptedBody(MethodBytes(m), CipherBytes(c)) + tail, pw, keyWanted, certs);
            r.ok && r.found == Parsed(if keyWanted then FirstKey(lib, list) else None, certs + Certs(list))
  {
    var plain := lib.decrypt(m.algo, m.salt, Rounds(m), pw, CipherData(c));
    ListsRead(lib, plain, list, keyWanted, certs);
    DecodedAtOnce(lib, m, pw, CipherData(c), false, plain);
    AnyEncryptedRead(lib, m, c, pw, keyWanted, certs, tail, (true, Parsed(if keyWanted then FirstKey(lib, list) else None, certs + Certs(list))));
  }

  // ---------------------------------------------------------------------------------
  // A bag with an encrypted key, of any maker.

  function ShroudedContents(m: Method, data: bytes): bytes { MethodBytes(m) + Tlv(OctetString, data) }

  function ShroudedItem(m: Method, data: bytes, attributes: bytes): bytes {
    Tlv(ObjectId, OidShroudedKeyBag) + (Tlv(Context, Tlv(Sequence, ShroudedContents(m, data))) + attributes)
  }

  function ShroudedText(m: Method, data: bytes, attributes: bytes): bytes { Tlv(Sequence, Tlv(Sequence, ShroudedItem(m, data, attributes))) }

  function ShroudedBody(m: Method, data: bytes, attributes: bytes): bytes { Tlv(Context, Tlv(OctetString, ShroudedText(m, data, attributes))) }

  lemma TextLengths(m: Method, data: bytes, attrs: bytes)
    requires |ShroudedText(m, data, attrs)| < 65536
    ensures |data| < 65536 && |MethodBytes(m)| < 65536
    ensures |ShroudedContents(m, data)| < 65536 && |Tlv(Sequence, ShroudedContents(m, data))| < 65536
    ensures |ShroudedItem(m, data, attrs)| < 65536 && |Tlv(Sequence, ShroudedItem(m, data, attrs))| < 65536
  {
    var item := ShroudedItem(m, data, attrs);
    TlvLength(Sequence, item);
    TlvLength(Sequence, Tlv(Sequence, item));
    TlvLength(Context, Tlv(Sequence, ShroudedContents(m, data)));
    TlvLength(Sequence, ShroudedContents(m, data));
    TlvLength(OctetString, data);
  }

  lemma TextHeadRead(m: Method, data: bytes, attrs: bytes, tail: bytes)
    requires |ShroudedText(m, data, attrs)| < 65536
    ensures ReadShroudedHead(ShroudedText(m, data, attrs) + tail) == Some(ShroudedContents(m, data) + (attrs + tail))
  {
    var item, key := ShroudedItem(m, data, attrs), ShroudedContents(m, data);
    var s3 := Tlv(Context, Tlv(Sequence, key));
    TextLengths(m, data, attrs);
    Expected(Sequence, Tlv(Sequence, item), tail);
    Expected(Sequence, item, tail);
    Join(Tlv(ObjectId, OidShroudedKeyBag), s3 + attrs, tail);
    Join(s3, attrs, tail);
    OidRead(OidShroudedKeyBag, s3 + (attrs + tail), false);
    Expected(Context, Tlv(Sequence, key), attrs + tail);
    Expected(Sequence, key, attrs + tail);
    ShroudedHeadIs(Tlv(Sequence, Tlv(Sequence, item)) + tail, TagOf(Sequence, |Tlv(Sequence, item)|), Tlv(Sequence, item) + tail,
                   TagOf(Sequence, |item|), item + tail, s3 + (attrs + tail), TagOf(Context, |Tlv(Sequence, key)|),
                   Tlv(Sequence, key) + (attrs + tail), TagOf(Sequence, |key|), key + (attrs + tail));
  }

  lemma ContentsOpened(m: Method, data: bytes, tail: bytes)
    requires MethodOk(m) && m.algo == TripleDes && 0 < |data| < 65536 && |MethodBytes(m)| < 65536
    ensures ReadShrouded(ShroudedContents(m, data) + tail) == Some((m.salt, Rounds(m), data, data + tail))
  {
    var d, pbe := Tlv(OctetString, data), Tlv(Sequence, PbeContents(m.salt, m.count));
    var c := Tlv(ObjectId, OidTripleDes) + pbe;
    TlvLength(Sequence, c);
    TlvLength(Sequence, PbeContents(m.salt, m.count));
    Join(MethodBytes(m), d, tail);
    Expected(Sequence, c, d + tail);
    Join(Tlv(ObjectId, OidTripleDes), pbe, d + tail);
    OidRead(OidTripleDes, pbe + (d + tail), false);
    PbeJudged(m.salt, m.count, d + tail);
    Expected(OctetString, data, tail);
    TakenFrom(data, tail);
    ShroudedIs(ShroudedContents(m, data) + tail, TagOf(Sequence, |c|), c + (d + tail), pbe + (d + tail), m.salt, Rounds(m), d + tail,
               TagOf(OctetString, |data|), data + tail);
  }

  lemma ShroudedIs(s: bytes, t: Tag, s1: bytes, s2: bytes, salt: bytes, iter: nat, s3: bytes, u: Tag, s4: bytes)
    requires Expect(s, 0, 16) == Some((t, s1)) && ReadOid(s1, OidTripleDes, false) == Some(s2) && ReadPbeParams(s2) == Some((salt, iter, s3))
    requires Expect(s3, 0, 4) == Some((u, s4)) && u.length > 0
    ensures ReadShrouded(s) == Some((salt, iter, s4[..u.length], s4))
  {
  }

  /** The text of a key, with anything behind it. */
  predicate Tells(lib: Lib, plain: bytes, params: seq<nat>) {
    |params| <= 9 && Encodable(lib, params) && KeySequence(lib, params) <= plain
  }

  lemma TellsRead(lib: Lib, plain: bytes, params: seq<nat>) returns (rest: bytes)
    requires Lawful(lib) && Tells(lib, plain, params)
    ensures ReadKey(lib, plain) == Some((Kept(lib, params), rest)) && Plausible(plain, true)
  {
    rest := plain[|KeySequence(lib, params)|..];
    assert plain == KeySequence(lib, params) + rest;
    KeyRead(lib, params, rest);
  }

  /** The octet string around the key is in one piece or in chunks. */
  datatype Wrapping = InOne | InParts(list: seq<bytes>)

  function KeyBody(m: Method, data: bytes, attrs: bytes, w: Wrapping): bytes {
    match w
    case InOne => ShroudedBody(m, data, attrs)
    case InParts(list) => Tlv(Context, Chunked(Constructed, list))
  }

  predicate WrappingOk(m: Method, data: bytes, attrs: bytes, w: Wrapping) {
    w.InParts? ==> ChunksOk(w.list) && Joined(w.list) == ShroudedText(m, data, attrs)
  }

  lemma UnwrappedKey(m: Method, data: bytes, attrs: bytes, w: Wrapping, tail: bytes) returns (rest: bytes, crammed: Option<bytes>)
    requires WrappingOk(m, data, attrs, w) && |KeyBody(m, data, attrs, w)| < 65536
    ensures ReadWrapped(KeyBody(m, data, attrs, w) + tail) == Some((ShroudedText(m, data, attrs) + rest, crammed))
  {
    match w
    case InOne =>
      rest, crammed := tail, None;
      WrappedRead(ShroudedText(m, data, attrs), tail);
    case InParts(list) =>
      rest, crammed := [], Some(tail);
      TlvLength(Context, Chunked(Constructed, list));
      ChunkedWrappedRead(list, tail);
      NothingBehind(ShroudedText(m, data, attrs));
  }

  lemma DataIs(lib: Lib, s: bytes, pw: bytes, s1: bytes, crammed: Option<bytes>, bag: (bytes, nat, bytes, bytes), params: seq<nat>, rest: bytes)
    requires ReadWrapped(s) == Some((s1, crammed)) && ReadShroudedBag(s1) == Some(bag)
    requires ReadKey(lib, Decode(lib, TripleDes, bag.0, bag.1, pw, bag.2, true, 0, [])) == Some((params, rest))
    ensures var r := ReadData(lib, s, pw); r.Some? && r.value.0 == params
  {
  }

  lemma BagIs(s: bytes, s1: bytes, bag: Option<(bytes, nat, bytes, bytes)>)
    requires ReadShroudedHead(s) == Some(s1) && ReadShrouded(s1) == bag
    ensures ReadShroudedBag(s) == bag
  {
  }

  lemma KeyFound(lib: Lib, m: Method, data: bytes, attrs: bytes, w: Wrapping, pw: bytes, tail: bytes, params: seq<nat>)
    requires Lawful(lib) && MethodOk(m) && m.algo == TripleDes && data != [] && WrappingOk(m, data, attrs, w) && |pw| <= MaxPassword
    requires |KeyBody(m, data, attrs, w)| < 65536 && |ShroudedText(m, data, attrs)| < 65536
    requires Tells(lib, lib.decrypt(TripleDes, m.salt, Rounds(m), pw, data), params)
    ensures var r := ReadData(lib, KeyBody(m, data, attrs, w) + tail, pw); r.Some? && r.value.0 == Kept(lib, params)
  {
    var plain := lib.decrypt(TripleDes, m.salt, Rounds(m), pw, data);
    var more, crammed := UnwrappedKey(m, data, attrs, w, tail);
    TextLengths(m, data, attrs);
    TextHeadRead(m, data, attrs, more);
    ContentsOpened(m, data, attrs + more);
    BagIs(ShroudedText(m, data, attrs) + more, ShroudedContents(m, data) + (attrs + more), Some((m.salt, Rounds(m), data, data + (attrs + more))));
    var rest := TellsRead(lib, plain, params);
    DecodedAtOnce(lib, m, pw, data, true, plain);
    DataIs(lib, KeyBody(m, data, attrs, w) + tail, pw, ShroudedText(m, data, attrs) + more, crammed,
           (m.salt, Rounds(m), data, data + (attrs + more)), Kept(lib, params), rest);
  }

  // ---------------------------------------------------------------------------------
  // Whole files.

  /** A bag of a file with what it holds: encrypted items, or one encrypted key. */
  datatype Content =
    | Items(m: Method, cipher: Cipher, list: seq<Entity>)
    | Key(m: Method, data: bytes, attrs: bytes, wrapping: Wrapping, params: seq<nat>)

  function ContentBody(c: Content): bytes {
    match c
    case Items(m, cipher, _) => EncryptedBody(MethodBytes(m), CipherBytes(cipher))
    case Key(m, data, attrs, w, _) => KeyBody(m, data, attrs, w)
  }

  function ContentOid(c: Content): bytes { if c.Items? then OidEncryptedData else OidData }

  function ContentBytes(c: Content): bytes { OneBag(ContentOid(c), ContentBody(c)) }

  function AllBytes(cs: seq<Content>): bytes {
    if cs == [] then [] else ContentBytes(cs[0]) + AllBytes(cs[1..])
  }

  /** The password opens the bag. */
  ghost predicate ContentOk(lib: Lib, pw: bytes, c: Content) {
    && MethodOk(c.m) && |ContentBytes(c)| < 65536
    && match c
       case Items(m, cipher, list) =>
         CipherOk(cipher) && Lists(lib, lib.decrypt(m.algo, m.salt, Rounds(m), pw, CipherData(cipher)), list)
       case Key(m, data, attrs, w, params) =>
         && m.algo == TripleDes && data != [] && WrappingOk(m, data, attrs, w) && |ShroudedText(m, data, attrs)| < 65536
         && Tells(lib, lib.decrypt(TripleDes, m.salt, Rounds(m), pw, data), params)
  }

  /** What a bag adds: its certificates, and its first key if there is none yet. */
  function Added(lib: Lib, c: Content, found: Parsed): Parsed {
    match c
    case Items(_, _, list) => Parsed(if found.key.Some? then found.key else FirstKey(lib, list), found.certs + Certs(list))
    case Key(_, _, _, _, params) => Parsed(Some(Kept(lib, params)), found.certs)
  }

  function AddedAll(lib: Lib, cs: seq<Content>, found: Parsed): Parsed {
    if cs == [] then found else AddedAll(lib, cs[1..], Added(lib, cs[0], found))
  }

  /** No bag with a key behind a key. */
  predicate OneKeyBag(lib: Lib, cs: seq<Content>, found: Parsed) {
    cs == [] || ((cs[0].Key? ==> found.key.None?) && OneKeyBag(lib, cs[1..], Added(lib, cs[0], found)))
  }

  lemma EncryptedFound(lib: Lib, pw: bytes, rest: bytes, found: Parsed, bag: Bag)
    requires ReadEncryptedData(lib, rest, pw, found.key.None?, found.certs) == bag
    ensures Reader(lib, pw)(TagOf(ObjectId, 9), OidEncryptedData + rest, found) == FromBag(bag, found)
  {
    EncryptedOid(rest);
  }

  lemma ContentFound(lib: Lib, pw: bytes, c: Content, tail: bytes, found: Parsed) returns (consumed: nat)
    requires Lawful(lib) && |pw| <= MaxPassword && ContentOk(lib, pw, c) && (c.Key? ==> found.key.None?)
    ensures Reader(lib, pw)(TagOf(ObjectId, 9), ContentOid(c) + (ContentBody(c) + tail), found) == Read(true, Added(lib, c, found), consumed)
  {
    OneBagLength(ContentOid(c), ContentBody(c));
    match c
    case Items(m, cipher, list) =>
      ItemsFound(lib, m, cipher, pw, found.key.None?, found.certs, tail, list);
      var bag := ReadEncryptedData(lib, ContentBody(c) + tail, pw, found.key.None?, found.certs);
      EncryptedFound(lib, pw, ContentBody(c) + tail, found, bag);
      consumed := bag.consumed;
    case Key(m, data, attrs, w, params) =>
      KeyFound(lib, m, data, attrs, w, pw, tail, params);
      consumed := DataGives(lib, pw, ContentBody(c) + tail, found.certs, Kept(lib, params));
  }

  lemma ContentSize(lib: Lib, pw: bytes, c: Content)
    requires ContentOk(lib, pw, c)
    ensures |ContentOid(c)| == 9 && |Tlv(ObjectId, ContentOid(c)) + ContentBody(c)| < 65536
  {
    OneBagLength(ContentOid(c), ContentBody(c));
  }

  lemma OnePassed(read: (Tag, bytes, Parsed) -> Contents, oid: bytes, body: bytes, s: bytes, n: nat, more: bytes, left: nat,
                  found: Parsed, found': Parsed, consumed: nat)
    requires |oid| == 9 && |Tlv(ObjectId, oid) + body| < 65536 && s == OneBag(oid, body) + more && n == |OneBag(oid, body)| + left
    requires read(TagOf(ObjectId, 9), oid + (body + more), found) == Read(true, found', consumed)
    ensures ReadBags(read, s, n, false, found) == ReadBags(read, more, left, false, found')
  {
    BagPassed(read, oid, body, more, left, n, found, found', consumed);
  }

  lemma OneFound(lib: Lib, pw: bytes, c: Content, s: bytes, n: nat, more: bytes, left: nat, found: Parsed, found': Parsed)
    requires Lawful(lib) && |pw| <= MaxPassword && ContentOk(lib, pw, c) && (c.Key? ==> found.key.None?)
    requires s == ContentBytes(c) + more && n == |ContentBytes(c)| + left && found' == Added(lib, c, found)
    ensures ReadBags(Reader(lib, pw), s, n, false, found) == ReadBags(Reader(lib, pw), more, left, false, found')
  {
    ContentSize(lib, pw, c);
    var consumed := ContentFound(lib, pw, c, more, found);
    OnePassed(Reader(lib, pw), ContentOid(c), ContentBody(c), s, n, more, left, found, found', consumed);
  }

  ghost predicate AllOk(lib: Lib, pw: bytes, cs: seq<Content>) { forall i | 0 <= i < |cs| :: ContentOk(lib, pw, cs[i]) }

  lemma FirstOk(lib: Lib, pw: bytes, cs: seq<Content>)
    requires AllOk(lib, pw, cs) && cs != []
    ensures ContentOk(lib, pw, cs[0]) && AllOk(lib, pw, cs[1..])
  {
  }

  lemma {:induction false} AllFound(lib: Lib, pw: bytes, cs: seq<Content>, mac: bytes, found: Parsed, s: bytes, n: nat)
    requires Lawful(lib) && |pw| <= MaxPassword && AllOk(lib, pw, cs) && OneKeyBag(lib, cs, found)
    requires s == AllBytes(cs) + mac && n == |AllBytes(cs)|
    ensures ReadBags(Reader(lib, pw), s, n, false, found) == AddedAll(lib, cs, found)
    decreases |cs|
  {
    if cs == [] {
      NoBagsLeft(Reader(lib, pw), s, found);
    } else {
      var more := AllBytes(cs[1..]);
      var found' := Added(lib, cs[0], found);
      FirstOk(lib, pw, cs);
      Join(ContentBytes(cs[0]), more, mac);
      OneFound(lib, pw, cs[0], s, n, more + mac, |more|, found, found');
      AllFound(lib, pw, cs[1..], mac, found', more + mac, |more|);
    }
  }

  /** A file with any number of bags, each with any number of items, with either cipher, any salt of 8
      to 20 octets and any iteration count, in chunks or not: all certificates are handed back in
      order, and the first key is returned, provided that no bag with a key follows a key. */
  lemma FileMeans(lib: Lib, pw: bytes, cs: seq<Content>, mac: bytes)
    requires Lawful(lib) && |pw| <= MaxPassword && AllOk(lib, pw, cs)
    requires OneKeyBag(lib, cs, Parsed(None, [])) && |FinalContents(AllBytes(cs), mac)| < 65536
    ensures Parse(lib, Tlv(Sequence, FinalContents(AllBytes(cs), mac)), pw) == AddedAll(lib, cs, Parsed(None, []))
  {
    FileRead(AllBytes(cs), mac);
    AllFound(lib, pw, cs, mac, Parsed(None, []), AllBytes(cs) + mac, |AllBytes(cs)|);
  }

  // ---------------------------------------------------------------------------------
  // What does not hold, and when.

  /** A bag that is passed over: of another kind, or with a key where there is one already. */
  lemma PassedOver(lib: Lib, pw: bytes, oid: bytes, rest: bytes, found: Parsed)
    requires |oid| == 9
    ensures Reader(lib, pw)(TagOf(ObjectId, 9), oid + rest, found) == Skipped <==>
              oid != OidEncryptedData && (oid != OidData || found.key.Some?)
  {
    assert (oid + rest)[..9] == oid;
    assert OidData[8] != OidEncryptedData[8];
  }

  /** The position behind such a bag is nine octets too far. */
  lemma SkippedTooFar(oid: bytes, body: bytes, more: bytes)
    requires |oid| == 9
    ensures BagEnd(StartOf(oid, body, more), Skipped) == if |more| < 9 then None else Some(Advance(more, 9))
  {
    TlvLength(ObjectId, oid);
    BehindBody(oid, body, more);
    if |more| >= 9 {
      AdvanceBoth(body, more, 9);
    }
  }

  lemma {:induction false} AdvanceBoth(a: bytes, s: bytes, n: nat)
    requires n <= |s|
    ensures Advance(a + s, |a| + n) == Advance(s, n)
  {
    if a == [] {
      NothingInFront(s);
    } else {
      assert (a + s)[1..] == a[1..] + s;
      AdvanceBoth(a[1..], s, n);
    }
  }

  /** So p12_parse goes on reading nine octets too far behind a bag that it passes over: the last bag
      of a file may be of another kind, while an earlier one makes it miss the start of the next. */
  lemma AfterSkipped(lib: Lib, pw: bytes, oid: bytes, body: bytes, s: bytes, n: nat, more: bytes, left: nat, found: Parsed)
    requires |oid| == 9 && |Tlv(ObjectId, oid) + body| < 65536 && s == OneBag(oid, body) + more && n == |OneBag(oid, body)| + left
    requires oid != OidEncryptedData && (oid != OidData || found.key.Some?)
    ensures ReadBags(Reader(lib, pw), s, n, false, found) ==
              if |more| < 9 then Failed(found) else ReadBags(Reader(lib, pw), Advance(more, 9), left, false, found)
  {
    PassedOver(lib, pw, oid, body + more, found);
    BagSize(oid, body, more);
    BagStarts(oid, body, more, n);
    SkippedTooFar(oid, body, more);
    SkippedStep(Reader(lib, pw), s, StartOf(oid, body, more), n, left, found, if |more| < 9 then None else Some(Advance(more, 9)));
  }

  lemma SkippedStep(read: (Tag, bytes, Parsed) -> Contents, s: bytes, b: Start, n: nat, left: nat, found: Parsed, end: Option<bytes>)
    requires n > 0 && BagStart(s, n, false) == b && b.Start? && left == n - b.t.nhdr - b.t.length
    requires read(b.u, b.s, found) == Skipped && BagEnd(b, Skipped) == end
    ensures ReadBags(read, s, n, false, found) == if end.None? then Failed(found) else ReadBags(read, end.value, left, false, found)
  {
  }
}
