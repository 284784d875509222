/** Files of indefinite lengths, as Mozilla writes them: section 8.1.3.6 of X.690. */
module Pkcs12Indefinite {
  import opened Wrappers
  import opened Octets
  import opened Der
  import opened Pkcs12
  import opened Pkcs12RoundTrip
  import opened Pkcs12Files

  function Open(tag: byte): bytes { [tag, 0x80] }

  function OpenTag(tag: byte): Tag { Tag(tag / 64, tag / 32 % 2 == 1, tag % 32, 0, 2, true) }

  lemma OpenRead(tag: byte, tail: bytes)
    requires Short(tag)
    ensures Expect(Open(tag) + tail, tag / 64, tag % 32) == Some((OpenTag(tag), tail))
    ensures Named(Open(tag) + tail, tag % 32) == Some((OpenTag(tag), tail))
    ensures ParseTag(Open(tag) + tail) == Some((OpenTag(tag), tail))
  {
    IndefiniteRead(tag, tail);
  }

  // ---------------------------------------------------------------------------------
  // The bags.

  /** A bag with encrypted data, up to the null tag behind the last chunk. */
  function OpenItems(m: Method, list: seq<bytes>): bytes {
    Open(Context) + (Open(Sequence) + (Tlv(Integer, [0]) + (Open(Sequence) + (Tlv(ObjectId, OidData) + (MethodBytes(m) + Chunked(Context, list))))))
  }

  /** A bag with a key, up to there. */
  function OpenKey(list: seq<bytes>): bytes { Open(Context) + Chunked(Constructed, list) }

  lemma Joins(a: bytes, b: bytes, c: bytes, d: bytes, e: bytes, f: bytes, tail: bytes)
    ensures (a + (b + (c + (d + (e + f))))) + tail == a + (b + (c + (d + (e + (f + tail)))))
  {
    Join(e, f, tail);
    Join(d, e + f, tail);
    Join(c, d + (e + f), tail);
    Join(b, c + (d + (e + f)), tail);
    Join(a, b + (c + (d + (e + f))), tail);
  }

  lemma OpenHeadRead(x: bytes, tail: bytes)
    ensures ReadEncryptedHead((Open(Context) + (Open(Sequence) + (Tlv(Integer, [0]) + (Open(Sequence) + (Tlv(ObjectId, OidData) + x))))) + tail) ==
              Some(x + tail)
  {
    var id := Tlv(ObjectId, OidData);
    var s4 := id + (x + tail);
    var s3 := Open(Sequence) + s4;
    var s2 := Tlv(Integer, [0]) + s3;
    var s1 := Open(Sequence) + s2;
    Joins(Open(Context), Open(Sequence), Tlv(Integer, [0]), Open(Sequence), id, x, tail);
    OpenRead(Context, s1);
    OpenRead(Sequence, s2);
    SmallRead(0, s3, true);
    OpenRead(Sequence, s4);
    OidRead(OidData, x + tail, true);
    EncryptedHeadIs(Open(Context) + s1, OpenTag(Context), s1, OpenTag(Sequence), s2, s3, OpenTag(Sequence), s4, x + tail);
  }

  /** The bag is read, and what is consumed ends behind the chunks. */
  lemma OpenItemsRead(lib: Lib, m: Method, list: seq<bytes>, pw: bytes, keyWanted: bool, certs: seq<bytes>, tail: bytes, items: seq<Entity>)
    requires Lawful(lib) && MethodOk(m) && |MethodBytes(m)| < 65536 && ChunksOk(list) && |pw| <= MaxPassword
    requires Lists(lib, lib.decrypt(m.algo, m.salt, Rounds(m), pw, Joined(list)), items)
    ensures ReadEncryptedData(lib, OpenItems(m, list) + tail, pw, keyWanted, certs) ==
              Bag(true, Parsed(if keyWanted then FirstKey(lib, items) else None, certs + Certs(items)), |OpenItems(m, list)|)
  {
    var x := MethodBytes(m) + Chunked(Context, list);
    var plain := lib.decrypt(m.algo, m.salt, Rounds(m), pw, Joined(list));
    OpenHeadRead(x, tail);
    Join(MethodBytes(m), Chunked(Context, list), tail);
    MethodRead(m, Chunked(Context, list) + tail);
    ChunkedCipherRead(list, tail);
    ListsRead(lib, plain, items, keyWanted, certs);
    DecodedAtOnce(lib, m, pw, Joined(list), false, plain);
    EncryptedIs(lib, OpenItems(m, list) + tail, pw, keyWanted, certs, x + tail, m.algo, m.salt, Rounds(m), Chunked(Context, list) + tail,
                Joined(list), tail, (true, Parsed(if keyWanted then FirstKey(lib, items) else None, certs + Certs(items))));
  }

  lemma OpenWrappedRead(list: seq<bytes>, tail: bytes)
    requires ChunksOk(list)
    ensures ReadWrapped(OpenKey(list) + tail) == Some((Joined(list), Some(tail)))
  {
    var c := Chunked(Constructed, list);
    Join(Open(Context), c, tail);
    OpenRead(Context, c + tail);
    ChunkedParts(Constructed, list, tail);
    WrappedCrammed(OpenKey(list) + tail, OpenTag(Context), c + tail, OpenTag(Constructed), ChunksBytes(list) + (Null + tail), Joined(list), tail);
  }

  lemma DataIsCounted(lib: Lib, s: bytes, pw: bytes, s1: bytes, rest: bytes, bag: (bytes, nat, bytes, bytes), params: seq<nat>, end: bytes)
    requires ReadWrapped(s) == Some((s1, Some(rest))) && ReadShroudedBag(s1) == Some(bag)
    requires ReadKey(lib, Decode(lib, TripleDes, bag.0, bag.1, pw, bag.2, true, 0, [])) == Some((params, end))
    ensures ReadData(lib, s, pw) == Some((params, Consumed(s, rest)))
  {
  }

  lemma OpenKeyRead(lib: Lib, m: Method, data: bytes, attrs: bytes, list: seq<bytes>, pw: bytes, tail: bytes, params: seq<nat>)
    requires Lawful(lib) && MethodOk(m) && m.algo == TripleDes && data != [] && ChunksOk(list) && |pw| <= MaxPassword
    requires Joined(list) == ShroudedText(m, data, attrs) && |ShroudedText(m, data, attrs)| < 65536
    requires Tells(lib, lib.decrypt(TripleDes, m.salt, Rounds(m), pw, data), params)
    ensures ReadData(lib, OpenKey(list) + tail, pw) == Some((Kept(lib, params), |OpenKey(list)|))
  {
    var plain := lib.decrypt(TripleDes, m.salt, Rounds(m), pw, data);
    OpenWrappedRead(list, tail);
    NothingBehind(ShroudedText(m, data, attrs));
    TextLengths(m, data, attrs);
    TextHeadRead(m, data, attrs, []);
    ContentsOpened(m, data, attrs + []);
    BagIs(ShroudedText(m, data, attrs), ShroudedContents(m, data) + (attrs + []), Some((m.salt, Rounds(m), data, data + (attrs + []))));
    var rest := TellsRead(lib, plain, params);
    DecodedAtOnce(lib, m, pw, data, true, plain);
    DataIsCounted(lib, OpenKey(list) + tail, pw, ShroudedText(m, data, attrs), tail,
                  (m.salt, Rounds(m), data, data + (attrs + [])), Kept(lib, params), rest);
  }

  // ---------------------------------------------------------------------------------
  // The loop.

  /** A null tag ends the bags. */
  lemma BagsEnd(read: (Tag, bytes, Parsed) -> Contents, more: bytes, found: Parsed)
    ensures ReadBags(read, Null + more, 0, true, found) == found
  {
    NullRead(more);
  }

  function StartAt(oid: bytes, body: bytes): Start { Start(OpenTag(Sequence), TagOf(ObjectId, 9), oid + body) }

  lemma OpenStarts(oid: bytes, body: bytes)
    requires |oid| == 9
    ensures BagStart(Open(Sequence) + (Tlv(ObjectId, oid) + body), 0, true) == StartAt(oid, body)
  {
    OpenRead(Sequence, Tlv(ObjectId, oid) + body);
    TlvReads(ObjectId, oid, body);
  }

  /** Behind what was consumed, two octets are passed over unseen and a null tag is expected. */
  lemma OpenEnds(oid: bytes, x: bytes, y: bytes, more: bytes, found: Parsed)
    requires |oid| == 9 && |y| == 2
    ensures BagEnd(StartAt(oid, x + (y + (Null + more))), Read(true, found, |x|)) == Some(more)
  {
    var body := x + (y + (Null + more));
    Advanced(oid, body);
    Join(x, y, Null + more);
    Advanced(x + y, Null + more);
    NullRead(more);
  }

  lemma OpenStep(read: (Tag, bytes, Parsed) -> Contents, s: bytes, b: Start, found: Parsed, found': Parsed, consumed: nat, rest: bytes)
    requires BagStart(s, 0, true) == b && b.Start? && read(b.u, b.s, found) == Read(true, found', consumed)
    requires BagEnd(b, Read(true, found', consumed)) == Some(rest)
    ensures ReadBags(read, s, 0, true, found) == ReadBags(read, rest, 0, true, found')
  {
  }

  lemma OpenPassed(read: (Tag, bytes, Parsed) -> Contents, oid: bytes, x: bytes, y: bytes, more: bytes, s: bytes, found: Parsed, found': Parsed)
    requires |oid| == 9 && |y| == 2 && s == Open(Sequence) + (Tlv(ObjectId, oid) + (x + (y + (Null + more))))
    requires read(TagOf(ObjectId, 9), oid + (x + (y + (Null + more))), found) == Read(true, found', |x|)
    ensures ReadBags(read, s, 0, true, found) == ReadBags(read, more, 0, true, found')
  {
    var body := x + (y + (Null + more));
    OpenStarts(oid, body);
    OpenEnds(oid, x, y, more, found');
    OpenStep(read, s, StartAt(oid, body), found, found', |x|, more);
  }

  /** A bag with a key is passed exactly: the null tags of its two open headers are those that are
      passed over and expected. */
  lemma KeyBagPassed(lib: Lib, m: Method, data: bytes, attrs: bytes, list: seq<bytes>, pw: bytes, params: seq<nat>, more: bytes, certs: seq<bytes>)
    requires Lawful(lib) && MethodOk(m) && m.algo == TripleDes && data != [] && ChunksOk(list) && |pw| <= MaxPassword
    requires Joined(list) == ShroudedText(m, data, attrs) && |ShroudedText(m, data, attrs)| < 65536
    requires Tells(lib, lib.decrypt(TripleDes, m.salt, Rounds(m), pw, data), params)
    ensures ReadBags(Reader(lib, pw), Open(Sequence) + (Tlv(ObjectId, OidData) + (OpenKey(list) + (Null + (Null + more)))), 0, true, Parsed(None, certs)) ==
              ReadBags(Reader(lib, pw), more, 0, true, Parsed(Some(Kept(lib, params)), certs))
  {
    var tail := Null + (Null + more);
    OpenKeyRead(lib, m, data, attrs, list, pw, tail, params);
    DataBagFound(lib, pw, OpenKey(list) + tail, certs);
    KeyGiven(ReadData(lib, OpenKey(list) + tail, pw), Kept(lib, params), certs);
    OpenPassed(Reader(lib, pw), OidData, OpenKey(list), Null, more, Open(Sequence) + (Tlv(ObjectId, OidData) + (OpenKey(list) + tail)),
               Parsed(None, certs), Parsed(Some(Kept(lib, params)), certs));
  }

  /** A bag with encrypted data has three open headers inside, and so the last of their null tags is
      taken for the end of all bags: what is in the bag is returned, and nothing of what follows. */
  lemma ItemsBagIsLast(lib: Lib, m: Method, list: seq<bytes>, pw: bytes, items: seq<Entity>, more: bytes, found: Parsed)
    requires Lawful(lib) && MethodOk(m) && |MethodBytes(m)| < 65536 && ChunksOk(list) && |pw| <= MaxPassword
    requires Lists(lib, lib.decrypt(m.algo, m.salt, Rounds(m), pw, Joined(list)), items)
    ensures ReadBags(Reader(lib, pw), Open(Sequence) + (Tlv(ObjectId, OidEncryptedData) + (OpenItems(m, list) + (Null + (Null + (Null + more))))), 0, true, found) ==
              Parsed(if found.key.Some? then found.key else FirstKey(lib, items), found.certs + Certs(items))
  {
    var x, tail := OpenItems(m, list), Null + (Null + (Null + more));
    var found' := Parsed(if found.key.Some? then found.key else FirstKey(lib, items), found.certs + Certs(items));
    OpenItemsRead(lib, m, list, pw, found.key.None?, found.certs, tail, items);
    EncryptedFound(lib, pw, x + tail, found, ReadEncryptedData(lib, x + tail, pw, found.key.None?, found.certs));
    OpenPassed(Reader(lib, pw), OidEncryptedData, x, Null, Null + more, Open(Sequence) + (Tlv(ObjectId, OidEncryptedData) + (x + tail)), found, found');
    BagsEnd(Reader(lib, pw), more, found');
  }

  // ---------------------------------------------------------------------------------
  // The file.

  lemma OpenHead(x: bytes)
    ensures ReadHead(Open(Sequence) + (Tlv(Integer, [3]) + (Open(Sequence) + (Tlv(ObjectId, OidData) + x)))) == Some(x)
  {
    var id := Tlv(ObjectId, OidData);
    var s2 := Open(Sequence) + (id + x);
    OpenRead(Sequence, Tlv(Integer, [3]) + s2);
    SmallRead(3, s2, true);
    OpenRead(Sequence, id + x);
    OidRead(OidData, x, true);
  }

  /** The bags of a file of indefinite length, in chunks themselves. */
  lemma OpenFileRead(list: seq<bytes>, bags: bytes, tail: bytes)
    requires ChunksOk(list) && Joined(list) == Open(Sequence) + bags
    ensures ReadFile(Open(Sequence) + (Tlv(Integer, [3]) + (Open(Sequence) + (Tlv(ObjectId, OidData) + (OpenKey(list) + tail))))) ==
              Some((bags, 0, true))
  {
    OpenHead(OpenKey(list) + tail);
    OpenWrappedRead(list, tail);
    OpenRead(Sequence, bags);
  }
}
