/** The loops and buffers of cns/gnupg-2.0.22/agent/minip12.c. */
module MiniP12 {
  import opened Wrappers
  import opened Octets
  import opened Der
  import opened Pkcs12
  import opened Buffers

  // ---------------------------------------------------------------------------------
  // parse_tag and store_tag_length.

  method ReadTag(text: bytes) returns (r: Option<(Tag, bytes)>)
    ensures r == ParseTag(text)
  {
    if text == [] {
      return None;
    }
    var c := text[0];
    var s := text[1..];
    var number := c % 32;
    if number == 31 {
      number := 0;
      var more := true;
      while more
        invariant 0 <= number
        invariant more ==> LongTag(s, number) == LongTag(text[1..], 0)
        invariant !more ==> LongTag(text[1..], 0) == Some((number, s))
        decreases more, |s|
      {
        if s == [] {
          return None;
        }
        number := (number * 128) % Word + s[0] % 128;
        more := s[0] >= 128;
        s := s[1..];
      }
    }
    var length := ReadLength(s);
    if length.None? {
      return None;
    }
    var (len, ndef, rest) := length.value;
    if c / 64 == 0 && number == 0 {
      len := 0;
    }
    if len > |rest| {
      return None;
    }
    r := Some((Tag(c / 64, c / 32 % 2 == 1, number, len, |text| - |rest|, ndef), rest));
  }

  method ReadLength(s: bytes) returns (r: Option<(nat, bool, bytes)>)
    ensures r == ParseLength(s)
  {
    if s == [] {
      return None;
    }
    if s[0] < 128 {
      return Some((s[0], false, s[1..]));
    } else if s[0] == 0x80 {
      return Some((0, true, s[1..]));
    } else if s[0] == 0xff {
      return None;
    }
    var len, count, rest := 0, s[0] - 128, s[1..];
    while count > 0
      invariant 0 <= count && 0 <= len
      invariant LengthOctets(rest, count, len) == LengthOctets(s[1..], s[0] - 128, 0)
    {
      if rest == [] {
        return None;
      }
      len := (len * 256) % Word + rest[0];
      count := count - 1;
      rest := rest[1..];
    }
    r := Some((len, false, rest));
  }

  /** Exactly compute_tag_length octets are written. */
  method StoreTagLength(buf: array<byte>, p: nat, tag: byte, n: nat) returns (q: nat)
    requires n < 65536 && p + ComputeTagLength(n) <= buf.Length
    modifies buf
    ensures q == p + ComputeTagLength(n) && buf[..q] == old(buf[..p]) + Header(tag, n)
  {
    if n < 128 {
      q := Put(buf, p, [tag, n]);
    } else if n < 256 {
      q := Put(buf, p, [tag, 0x81, n]);
    } else {
      q := Put(buf, p, [tag, 0x82, n / 256, n % 256]);
    }
  }

  /** An object that is stored whole. */
  method StoreObject(buf: array<byte>, p: nat, tag: byte, contents: bytes) returns (q: nat)
    requires |contents| < 65536 && p + ComputeTagLength(|contents|) + |contents| <= buf.Length
    modifies buf
    ensures q == p + ComputeTagLength(|contents|) + |contents| && buf[..q] == old(buf[..p]) + Tlv(tag, contents)
  {
    q := StoreTagLength(buf, p, tag, |contents|);
    q := Put(buf, q, contents);
    Join(old(buf[..p]), Header(tag, |contents|), contents);
  }

  // ---------------------------------------------------------------------------------
  // The builders.  Sizes are computed from the inside out, and the buffer is then filled from
  // the outside in.

  /** Steps 0 to 2 of both bags: a sequence, the object identifier and a [0] tag. */
  function BagHead(oid: bytes, len0: nat, len2: nat): bytes {
    Header(Sequence, len0) + (Tlv(ObjectId, oid) + Header(Context, len2))
  }

  method StoreBagHead(bag: array<byte>, oid: bytes, len0: nat, len2: nat) returns (p: nat)
    requires len0 < 65536 && len2 < 65536 && |oid| == 9 && ComputeTagLength(len0) + 11 + ComputeTagLength(len2) <= bag.Length
    modifies bag
    ensures p == ComputeTagLength(len0) + 11 + ComputeTagLength(len2) && bag[..p] == BagHead(oid, len0, len2)
  {
    p := StoreTagLength(bag, 0, Sequence, len0);
    p := StoreObject(bag, p, ObjectId, oid);
    p := StoreTagLength(bag, p, Context, len2);
    Flat3([], Header(Sequence, len0), Tlv(ObjectId, oid), Header(Context, len2));
    NothingInFront(BagHead(oid, len0, len2));
  }

  lemma BagHeadFlat(oid: bytes, len0: nat, len2: nat, rest: bytes)
    ensures BagHead(oid, len0, len2) + rest == Header(Sequence, len0) + (Tlv(ObjectId, oid) + (Header(Context, len2) + rest))
  {
    Join(Header(Sequence, len0), Tlv(ObjectId, oid) + Header(Context, len2), rest);
    Join(Tlv(ObjectId, oid), Header(Context, len2), rest);
  }

  method BuildCertBag(data: bytes, salt: bytes) returns (bag: array<byte>)
    requires |salt| == 8 && |CertBag(data, salt)| < 65536
    ensures fresh(bag) && bag[..] == CertBag(data, salt)
  {
    var needed := Wrapped(|data|) + 30 + 11;
    var len5 := needed;
    needed := Wrapped(needed) + 3;
    var len3 := needed;
    needed := Wrapped(needed);
    var len2 := needed;
    needed := Wrapped(needed) + 11;
    var len0 := needed;
    needed := Wrapped(needed);
    CertBagSizes(data, salt);
    bag := new byte[needed];
    var p := StoreBagHead(bag, OidEncryptedData, len0, len2);
    p := StoreTagLength(bag, p, Sequence, len3);
    p := Put(bag, p, [0x02, 0x01, 0x00]);
    p := StoreEncryptedContents(bag, p, data, salt, len5);
    assert p == needed;
    assert bag[..] == bag[..p];
    CertBagFlat(data, salt, len0, len2, len3);
  }

  /** Its steps 5 to 8. */
  method StoreEncryptedContents(bag: array<byte>, p: nat, data: bytes, salt: bytes, len5: nat) returns (q: nat)
    requires |salt| == 8 && |data| < 65536 && len5 == |EncryptedContents(data, salt)| < 65536
    requires p + Wrapped(len5) <= bag.Length && len5 == Wrapped(|data|) + 41
    modifies bag
    ensures q == p + Wrapped(len5) && bag[..q] == old(bag[..p]) + Tlv(Sequence, EncryptedContents(data, salt))
  {
    ghost var w := bag[..p];
    q := StoreTagLength(bag, p, Sequence, len5);
    q := StoreObject(bag, q, ObjectId, OidData);
    q := Put(bag, q, AlgorithmId(OidRc2, salt));
    q := StoreObject(bag, q, Implicit, data);
    Flat4(w, Header(Sequence, len5), Tlv(ObjectId, OidData), AlgorithmId(OidRc2, salt), Tlv(Implicit, data));
  }

  lemma CertBagSizes(data: bytes, salt: bytes)
    requires |salt| == 8 && |CertBag(data, salt)| < 65536
    ensures var len5 := Wrapped(|data|) + 41; var len3 := Wrapped(len5) + 3; var len2 := Wrapped(len3); var len0 := Wrapped(len2) + 11;
            && |data| < 65536 && |EncryptedContents(data, salt)| == len5 < 65536
            && |Tlv(Integer, [0]) + Tlv(Sequence, EncryptedContents(data, salt))| == len3 < 65536
            && |Tlv(Sequence, Tlv(Integer, [0]) + Tlv(Sequence, EncryptedContents(data, salt)))| == len2 < 65536
            && len0 < 65536 && |CertBag(data, salt)| == Wrapped(len0)
  {
    TlvLength(Implicit, data);
    TlvLength(Sequence, EncryptedContents(data, salt));
    TlvLength(Sequence, Tlv(Integer, [0]) + Tlv(Sequence, EncryptedContents(data, salt)));
    TlvLength(Context, Tlv(Sequence, Tlv(Integer, [0]) + Tlv(Sequence, EncryptedContents(data, salt))));
    TlvLength(Sequence, Tlv(ObjectId, OidEncryptedData) + Tlv(Context, Tlv(Sequence, Tlv(Integer, [0]) + Tlv(Sequence, EncryptedContents(data, salt)))));
  }

  lemma Flat4(w: bytes, p1: bytes, p2: bytes, p3: bytes, p4: bytes)
    ensures w + p1 + p2 + p3 + p4 == w + (p1 + (p2 + (p3 + (p4))))
  {
    Join(w + p1 + p2, p3, p4);
    Join(w + p1, p2, p3 + (p4));
    Join(w, p1, p2 + (p3 + (p4)));
  }

  /** Headers and contents one behind the other are the nested objects. */
  lemma CertBagFlat(data: bytes, salt: bytes, len0: nat, len2: nat, len3: nat)
    requires len3 == |Tlv(Integer, [0]) + Tlv(Sequence, EncryptedContents(data, salt))|
    requires len2 == |Tlv(Sequence, Tlv(Integer, [0]) + Tlv(Sequence, EncryptedContents(data, salt)))|
    requires len0 == Wrapped(len2) + 11 && len2 < 65536
    ensures BagHead(OidEncryptedData, len0, len2) + Header(Sequence, len3) + [0x02, 0x01, 0x00]
              + Tlv(Sequence, EncryptedContents(data, salt)) == CertBag(data, salt)
  {
    var contents := Tlv(Sequence, EncryptedContents(data, salt));
    IntegerZero();
    TlvLength(Context, Tlv(Sequence, Tlv(Integer, [0]) + contents));
    Flat3(BagHead(OidEncryptedData, len0, len2), Header(Sequence, len3), [0x02, 0x01, 0x00], contents);
    BagHeadFlat(OidEncryptedData, len0, len2, Header(Sequence, len3) + ([0x02, 0x01, 0x00] + contents));
  }

  lemma IntegerZero()
    ensures Tlv(Integer, [0]) == [0x02, 0x01, 0x00]
  {
  }

  // The bag with the key.

  /** The sizes of build_key_bag, from step 8 down to step 0. */
  datatype KeyBagSizes = KeyBagSizes(len8: nat, len7: nat, len5: nat, len4: nat, len3: nat, len2: nat, len0: nat)

  function SizesOf(data: nat, attributes: nat): KeyBagSizes {
    var len8 := Wrapped(data) + 30;
    var len7 := Wrapped(len8);
    var len5 := Wrapped(len7) + attributes + 13;
    var len4 := Wrapped(len5);
    var len3 := Wrapped(len4);
    var len2 := Wrapped(len3);
    KeyBagSizes(len8, len7, len5, len4, len3, len2, Wrapped(len2) + 11)
  }

  lemma KeyBagSizesRight(data: bytes, salt: bytes, attrs: bytes)
    requires |salt| == 8 && |KeyBag(data, salt, attrs)| < 65536
    ensures var n := SizesOf(|data|, |attrs|); var bag := ShroudedBag(data, salt, attrs);
            && |data| < 65536 && |ShroudedKey(data, salt)| == n.len8 < 65536 && |Tlv(Sequence, ShroudedKey(data, salt))| == n.len7 < 65536
            && |bag| == n.len5 < 65536 && |Tlv(Sequence, bag)| == n.len4 < 65536 && |Tlv(Sequence, Tlv(Sequence, bag))| == n.len3 < 65536
            && |Tlv(OctetString, Tlv(Sequence, Tlv(Sequence, bag)))| == n.len2 < 65536 && n.len0 < 65536
            && |KeyBag(data, salt, attrs)| == Wrapped(n.len0)
  {
    var key, bag := ShroudedKey(data, salt), ShroudedBag(data, salt, attrs);
    TlvLength(OctetString, data);
    TlvLength(Sequence, key);
    TlvLength(Context, Tlv(Sequence, key));
    TlvLength(Sequence, bag);
    TlvLength(Sequence, Tlv(Sequence, bag));
    var s3 := Tlv(Sequence, Tlv(Sequence, bag));
    TlvLength(OctetString, s3);
    TlvLength(Context, Tlv(OctetString, s3));
    TlvLength(Sequence, Tlv(ObjectId, OidData) + Tlv(Context, Tlv(OctetString, s3)));
  }

  /** Octet k of the template with the first i octets of the key id put in. */
  function Filled(template: bytes, keyid: bytes, i: nat, k: nat): byte
    requires k < |template| && i <= |keyid|
  {
    if 74 <= k < 74 + 2 * i && k % 2 == 0 then keyid[(k - 74) / 2] else template[k]
  }

  /** The template, with the key id put into it octet by octet. */
  method StoreTemplate(buf: array<byte>, p: nat, template: bytes, keyid: bytes) returns (q: nat)
    requires |template| == 106 && |keyid| == 8 && p + 106 <= buf.Length
    modifies buf
    ensures q == p + 106 && forall k | 0 <= k < p :: buf[k] == old(buf[k])
    ensures forall j | p <= j < p + 106 :: buf[j] == Filled(template, keyid, 8, j - p)
  {
    q := Put(buf, p, template);
    assert forall k | 0 <= k < p :: buf[..q][k] == old(buf[..p])[k];
    assert forall j | p <= j < p + 106 :: buf[..q][j] == template[j - p];
    var i := 0;
    while i < 8
      invariant 0 <= i <= 8
      invariant forall k | 0 <= k < p :: buf[k] == old(buf[k])
      invariant forall j | p <= j < p + 106 :: buf[j] == Filled(template, keyid, i, j - p)
    {
      buf[p + (73 + 2 * i + 1)] := keyid[i];
      i := i + 1;
    }
  }

  lemma AttributesSplit(hash: bytes)
    requires |hash| == 20
    ensures Attributes(hash)[..106] + hash == Attributes(hash)
    ensures forall k | 0 <= k < 106 :: Attributes(hash)[..106][k] == Filled(AttrTemplate, KeyId(hash), 8, k)
  {
  }

  lemma SameBytes(s: bytes, p: nat, w: bytes, a: bytes)
    requires |s| == p + |a| && |w| == p && (forall k | 0 <= k < p :: s[k] == w[k]) && (forall j | p <= j < |s| :: s[j] == a[j - p])
    ensures s == w + a
  {
  }

  /** The attributes: the template with the key id, and the hash. */
  method StoreAttributes(buf: array<byte>, p: nat, hash: bytes) returns (q: nat)
    requires |hash| == 20 && p + 126 <= buf.Length
    modifies buf
    ensures q == p + 126 && buf[..q] == old(buf[..p]) + Attributes(hash)
  {
    ghost var w, a := buf[..p], Attributes(hash)[..106];
    q := StoreTemplate(buf, p, AttrTemplate, KeyId(hash));
    AttributesSplit(hash);
    SameBytes(buf[..q], p, w, a);
    q := Put(buf, q, hash);
    Join(w, a, hash);
  }

  method BuildKeyBag(data: bytes, salt: bytes, sha1hash: Option<bytes>) returns (bag: array<byte>)
    requires |salt| == 8 && (sha1hash.Some? ==> |sha1hash.value| == 20)
    requires |KeyBag(data, salt, if sha1hash.Some? then Attributes(sha1hash.value) else [])| < 65536
    ensures fresh(bag) && bag[..] == KeyBag(data, salt, if sha1hash.Some? then Attributes(sha1hash.value) else [])
  {
    ghost var attrs := if sha1hash.Some? then Attributes(sha1hash.value) else [];
    var n := SizesOf(|data|, if sha1hash.Some? then 106 + 20 else 0);
    KeyBagSizesRight(data, salt, attrs);
    bag := new byte[Wrapped(n.len0)];
    var p := StoreBagHead(bag, OidData, n.len0, n.len2);
    p := StoreHeaders(bag, p, n.len3, n.len4, n.len5);
    p := StoreShrouded(bag, p, data, salt, n.len7, n.len8, sha1hash);
    assert p == bag.Length;
    assert bag[..] == bag[..p];
    KeyBagFlat(data, salt, attrs, n);
  }

  /** Its steps 3 to 5: an octet string and two sequences. */
  method StoreHeaders(bag: array<byte>, p: nat, len3: nat, len4: nat, len5: nat) returns (q: nat)
    requires len3 < 65536 && len4 < 65536 && len5 < 65536
    requires p + ComputeTagLength(len3) + ComputeTagLength(len4) + ComputeTagLength(len5) <= bag.Length
    modifies bag
    ensures q == p + ComputeTagLength(len3) + ComputeTagLength(len4) + ComputeTagLength(len5)
    ensures bag[..q] == old(bag[..p]) + (Header(OctetString, len3) + (Header(Sequence, len4) + Header(Sequence, len5)))
  {
    ghost var w := bag[..p];
    q := StoreTagLength(bag, p, OctetString, len3);
    q := StoreTagLength(bag, q, Sequence, len4);
    q := StoreTagLength(bag, q, Sequence, len5);
    Flat3(w, Header(OctetString, len3), Header(Sequence, len4), Header(Sequence, len5));
  }

  lemma Flat3(w: bytes, p1: bytes, p2: bytes, p3: bytes)
    ensures w + p1 + p2 + p3 == w + (p1 + (p2 + (p3)))
  {
    Join(w + p1, p2, p3);
    Join(w, p1, p2 + (p3));
  }

  /** Its steps 6 to 10 and the attributes. */
  method StoreShrouded(bag: array<byte>, p: nat, data: bytes, salt: bytes, len7: nat, len8: nat, sha1hash: Option<bytes>) returns (q: nat)
    requires |salt| == 8 && |data| < 65536 && (sha1hash.Some? ==> |sha1hash.value| == 20)
    requires len8 == |ShroudedKey(data, salt)| == Wrapped(|data|) + 30 < 65536 && len7 == |Tlv(Sequence, ShroudedKey(data, salt))| == Wrapped(len8) < 65536
    requires p + 13 + Wrapped(len7) + (if sha1hash.Some? then 126 else 0) <= bag.Length
    modifies bag
    ensures q == p + 13 + Wrapped(len7) + (if sha1hash.Some? then 126 else 0)
    ensures bag[..q] == old(bag[..p]) + ShroudedBag(data, salt, if sha1hash.Some? then Attributes(sha1hash.value) else [])
  {
    ghost var w := bag[..p];
    ghost var attrs := if sha1hash.Some? then Attributes(sha1hash.value) else [];
    q := StoreObject(bag, p, ObjectId, OidShroudedKeyBag);
    q := StoreTagLength(bag, q, Context, len7);
    q := StoreTagLength(bag, q, Sequence, len8);
    q := Put(bag, q, AlgorithmId(OidTripleDes, salt));
    q := StoreObject(bag, q, OctetString, data);
    if sha1hash.Some? {
      q := StoreAttributes(bag, q, sha1hash.value);
    } else {
      NothingBehind(bag[..q]);
    }
    ShroudedFlat(w, data, salt, attrs, len7, len8);
  }

  lemma ShroudedFlat(w: bytes, data: bytes, salt: bytes, attrs: bytes, len7: nat, len8: nat)
    requires len8 == |ShroudedKey(data, salt)| && len7 == |Tlv(Sequence, ShroudedKey(data, salt))|
    ensures w + Tlv(ObjectId, OidShroudedKeyBag) + Header(Context, len7) + Header(Sequence, len8) + AlgorithmId(OidTripleDes, salt)
              + Tlv(OctetString, data) + attrs == w + ShroudedBag(data, salt, attrs)
  {
    var oid: bytes := Tlv(ObjectId, OidShroudedKeyBag);
    var key := Tlv(Context, Tlv(Sequence, ShroudedKey(data, salt)));
    Flat4(w + oid, Header(Context, len7), Header(Sequence, len8), AlgorithmId(OidTripleDes, salt), Tlv(OctetString, data));
    Join(w + oid, key, attrs);
    Join(w, oid, key + attrs);
  }

  lemma KeyBagFlat(data: bytes, salt: bytes, attrs: bytes, n: KeyBagSizes)
    requires var bag := ShroudedBag(data, salt, attrs);
             && n.len5 == |bag| && n.len4 == |Tlv(Sequence, bag)| && n.len3 == |Tlv(Sequence, Tlv(Sequence, bag))|
             && n.len2 == |Tlv(OctetString, Tlv(Sequence, Tlv(Sequence, bag)))| < 65536 && n.len0 == Wrapped(n.len2) + 11
    ensures BagHead(OidData, n.len0, n.len2)
              + (Header(OctetString, n.len3) + (Header(Sequence, n.len4) + Header(Sequence, n.len5)))
              + ShroudedBag(data, salt, attrs) == KeyBag(data, salt, attrs)
  {
    var bag := ShroudedBag(data, salt, attrs);
    var h3, h4, h5 := Header(OctetString, n.len3), Header(Sequence, n.len4), Header(Sequence, n.len5);
    TlvLength(Context, Tlv(OctetString, Tlv(Sequence, Tlv(Sequence, bag))));
    Join(BagHead(OidData, n.len0, n.len2), h3 + (h4 + h5), bag);
    Join(h3, h4 + h5, bag);
    Join(h4, h5, bag);
    BagHeadFlat(OidData, n.len0, n.len2, h3 + (h4 + (h5 + bag)));
  }

  // The certificate.

  /** The loop that appends the padding. */
  method StorePadding(buf: array<byte>, p: nat) returns (q: nat)
    requires p + 8 <= buf.Length
    modifies buf
    ensures q == p + |Padding(p)| && buf[..q] == old(buf[..p]) + Padding(p)
  {
    var n := 8 - p % 8;
    ghost var w := buf[..p];
    var i := 0;
    while i < n
      invariant 0 <= i <= n
      invariant buf[..p + i] == w + Padding(p)[..i]
    {
      buf[p + i] := n;
      i := i + 1;
    }
    q := p + n;
    assert Padding(p)[..n] == Padding(p);
  }

  lemma CertSizesRight(cert: bytes, attrs: bytes)
    requires |attrs| == 126 && |CertSequence(cert, attrs)| < 65536
    ensures var len6 := Wrapped(|cert|); var len4 := Wrapped(len6) + 12; var len3 := Wrapped(len4); var len1 := Wrapped(len3) + 139; var len0 := Wrapped(len1);
            && |cert| < 65536 && |Tlv(OctetString, cert)| == len6 < 65536 && |CertValue(cert)| == len4 < 65536
            && |Tlv(Sequence, CertValue(cert))| == len3 < 65536 && |CertItem(cert) + attrs| == len1 < 65536
            && |Tlv(Sequence, CertItem(cert) + attrs)| == len0 < 65536 && |CertSequence(cert, attrs)| == Wrapped(len0)
  {
    TlvLength(OctetString, cert);
    TlvLength(Context, Tlv(OctetString, cert));
    TlvLength(Sequence, CertValue(cert));
    TlvLength(Context, Tlv(Sequence, CertValue(cert)));
    TlvLength(Sequence, CertItem(cert) + attrs);
    TlvLength(Sequence, Tlv(Sequence, CertItem(cert) + attrs));
  }

  /** Steps 2 to 4 of build_cert_sequence, and then 5 to 7. */
  method StoreCertItem(buf: array<byte>, p: nat, cert: bytes, len3: nat, len4: nat, len6: nat) returns (q: nat)
    requires |cert| < 65536 && len6 == |Tlv(OctetString, cert)| == Wrapped(|cert|) < 65536
    requires len4 == |CertValue(cert)| == Wrapped(len6) + 12 < 65536 && len3 == |Tlv(Sequence, CertValue(cert))| == Wrapped(len4) < 65536
    requires p + 13 + Wrapped(len3) <= buf.Length
    modifies buf
    ensures q == p + 13 + Wrapped(len3) && buf[..q] == old(buf[..p]) + CertItem(cert)
  {
    ghost var w := buf[..p];
    q := StoreObject(buf, p, ObjectId, OidCertBag);
    q := StoreTagLength(buf, q, Context, len3);
    q := StoreTagLength(buf, q, Sequence, len4);
    q := StoreCertValue(buf, q, cert, len6);
    Flat4(w, Tlv(ObjectId, OidCertBag), Header(Context, len3), Header(Sequence, len4), CertValue(cert));
  }

  method StoreCertValue(buf: array<byte>, p: nat, cert: bytes, len6: nat) returns (q: nat)
    requires |cert| < 65536 && len6 == |Tlv(OctetString, cert)| == Wrapped(|cert|) < 65536 && p + 12 + Wrapped(len6) <= buf.Length
    modifies buf
    ensures q == p + 12 + Wrapped(len6) && buf[..q] == old(buf[..p]) + CertValue(cert)
  {
    ghost var w := buf[..p];
    q := StoreObject(buf, p, ObjectId, OidX509);
    q := StoreTagLength(buf, q, Context, len6);
    q := StoreObject(buf, q, OctetString, cert);
    Flat3(w, Tlv(ObjectId, OidX509), Header(Context, len6), Tlv(OctetString, cert));
  }

  method BuildCertSequence(cert: bytes, hash: bytes) returns (r: bytes)
    requires |hash| == 20 && |CertSequence(cert, Attributes(hash))| < 65536
    ensures r == Padded(CertSequence(cert, Attributes(hash)))
  {
    var len6 := Wrapped(|cert|);
    var len4 := Wrapped(len6) + 12;
    var len3 := Wrapped(len4);
    var len1 := Wrapped(len3) + (106 + 20) + 13;
    var len0 := Wrapped(len1);
    var needed := Wrapped(len0);
    CertSizesRight(cert, Attributes(hash));
    var buf := new byte[needed + 8];
    var p := StoreTagLength(buf, 0, Sequence, len0);
    p := StoreTagLength(buf, p, Sequence, len1);
    p := StoreCertItem(buf, p, cert, len3, len4, len6);
    p := StoreAttributes(buf, p, hash);
    assert p == needed;
    CertFlat(cert, Attributes(hash), len0, len1);
    p := StorePadding(buf, p);
    r := buf[..p];
  }

  lemma CertFlat(cert: bytes, attrs: bytes, len0: nat, len1: nat)
    requires len1 == |CertItem(cert) + attrs| && len0 == |Tlv(Sequence, CertItem(cert) + attrs)|
    ensures [] + Header(Sequence, len0) + Header(Sequence, len1) + CertItem(cert) + attrs == CertSequence(cert, attrs)
  {
    Flat4([], Header(Sequence, len0), Header(Sequence, len1), CertItem(cert), attrs);
    NothingInFront(CertSequence(cert, attrs));
  }

  // The key.

  lemma {:induction false} IntegersLast(lib: Lib, params: seq<nat>, v: nat)
    ensures Integers(lib, params + [v]) == Integers(lib, params) + Tlv(Integer, lib.format(v))
  {
    if params == [] {
      assert params + [v] == [v] && [v][1..] == [];
      NothingBehind(Tlv(Integer, lib.format(v)));
      NothingInFront(Tlv(Integer, lib.format(v)));
      assert Integers(lib, [v]) == Tlv(Integer, lib.format(v)) + Integers(lib, [v][1..]);
    } else {
      assert (params + [v])[1..] == params[1..] + [v];
      IntegersLast(lib, params[1..], v);
      Join(Tlv(Integer, lib.format(params[0])), Integers(lib, params[1..]), Tlv(Integer, lib.format(v)));
    }
  }

  lemma IntegersNext(lib: Lib, params: seq<nat>, i: nat)
    requires i < |params|
    ensures Integers(lib, params[..i + 1]) == Integers(lib, params[..i]) + Tlv(Integer, lib.format(params[i]))
  {
    assert params[..i + 1] == params[..i] + [params[i]];
    IntegersLast(lib, params[..i], params[i]);
  }

  /** The first loop: the size of the integers, or nothing where one is too large. */
  method MeasureIntegers(lib: Lib, params: seq<nat>) returns (needed: Option<nat>)
    ensures needed.None? <==> exists i :: 0 <= i < |params| && |lib.format(params[i])| >= 65536
    ensures needed.Some? ==> needed.value == |KeyIntegers(lib, params)|
  {
    var sum, i := 3, 0;
    while i < |params|
      invariant 0 <= i <= |params| && forall k | 0 <= k < i :: |lib.format(params[k])| < 65536
      invariant sum == 3 + |Integers(lib, params[..i])|
    {
      var n := |lib.format(params[i])|;
      IntegersNext(lib, params, i);
      TlvLength(Integer, lib.format(params[i]));
      sum := sum + n;
      n := ComputeTagLength(n);
      if n == 0 {
        return None;
      }
      sum := sum + n;
      i := i + 1;
    }
    assert params[..i] == params;
    needed := Some(sum);
  }

  /** The second loop. */
  method StoreIntegers(lib: Lib, buf: array<byte>, p: nat, params: seq<nat>) returns (q: nat)
    requires forall i | 0 <= i < |params| :: |lib.format(params[i])| < 65536
    requires p + |Integers(lib, params)| <= buf.Length
    modifies buf
    ensures q == p + |Integers(lib, params)| && buf[..q] == old(buf[..p]) + Integers(lib, params)
  {
    ghost var w := buf[..p];
    var i := 0;
    q := p;
    NothingBehind(w);
    while i < |params|
      invariant 0 <= i <= |params|
      invariant q == p + |Integers(lib, params[..i])| <= buf.Length && buf[..q] == w + Integers(lib, params[..i])
    {
      var v := lib.format(params[i]);
      IntegersNext(lib, params, i);
      TlvLength(Integer, v);
      IntegersPrefix(lib, params, i + 1);
      ghost var done := Integers(lib, params[..i]);
      q := StoreObject(buf, q, Integer, v);
      Join(w, done, Tlv(Integer, v));
      i := i + 1;
    }
    assert params[..i] == params;
  }

  lemma {:induction false} IntegersPrefix(lib: Lib, params: seq<nat>, i: nat)
    requires i <= |params|
    ensures |Integers(lib, params[..i])| <= |Integers(lib, params)|
    decreases |params| - i
  {
    if i == |params| {
      assert params[..i] == params;
    } else {
      IntegersNext(lib, params, i);
      IntegersPrefix(lib, params, i + 1);
    }
  }

  lemma RsaAlgorithmLength()
    ensures |RsaAlgorithm()| == 15 && |Tlv(ObjectId, OidRsa) + [0x05, 0x00]| == 13
  {
  }

  method StoreRsaAlgorithm(buf: array<byte>, p: nat) returns (q: nat)
    requires p + 15 <= buf.Length
    modifies buf
    ensures q == p + 15 && buf[..q] == old(buf[..p]) + RsaAlgorithm()
  {
    ghost var w := buf[..p];
    RsaAlgorithmLength();
    q := StoreTagLength(buf, p, Sequence, 13);
    q := StoreObject(buf, q, ObjectId, OidRsa);
    q := Put(buf, q, [0x05, 0x00]);
    Flat3(w, Header(Sequence, 13), Tlv(ObjectId, OidRsa), [0x05, 0x00]);
  }

  /** The octet string with the parameters. */
  method StoreKeyIntegers(lib: Lib, buf: array<byte>, p: nat, params: seq<nat>, octstrlen: nat, inseqlen: nat) returns (q: nat)
    requires forall i | 0 <= i < |params| :: |lib.format(params[i])| < 65536
    requires inseqlen == |KeyIntegers(lib, params)| < 65536 && octstrlen == |Tlv(Sequence, KeyIntegers(lib, params))| == Wrapped(inseqlen) < 65536
    requires p + Wrapped(octstrlen) <= buf.Length
    modifies buf
    ensures q == p + Wrapped(octstrlen) && buf[..q] == old(buf[..p]) + Tlv(OctetString, Tlv(Sequence, KeyIntegers(lib, params)))
  {
    ghost var w := buf[..p];
    IntegerZero();
    q := StoreTagLength(buf, p, OctetString, octstrlen);
    q := StoreTagLength(buf, q, Sequence, inseqlen);
    q := Put(buf, q, [0x02, 0x01, 0x00]);
    q := StoreIntegers(lib, buf, q, params);
    Flat4(w, Header(OctetString, octstrlen), Header(Sequence, inseqlen), [0x02, 0x01, 0x00], Integers(lib, params));
  }

  method BuildKeySequence(lib: Lib, params: seq<nat>) returns (r: Option<bytes>)
    ensures r == Pkcs12.BuildKeySequence(lib, params)
  {
    var needed := MeasureIntegers(lib, params);
    if needed.None? || |params| != 8 {
      return None;
    }
    var inseqlen := needed.value;
    var octstrlen := Wrapped(inseqlen);
    var outseqlen := Wrapped(octstrlen) + (2 + 13) + 3;
    TlvLength(Sequence, KeyIntegers(lib, params));
    TlvLength(OctetString, Tlv(Sequence, KeyIntegers(lib, params)));
    if ComputeTagLength(inseqlen) == 0 || ComputeTagLength(octstrlen) == 0 || ComputeTagLength(outseqlen) == 0 {
      return None;
    }
    var plain := FillKeySequence(lib, params, inseqlen, octstrlen, outseqlen);
    r := Some(plain);
  }

  method FillKeySequence(lib: Lib, params: seq<nat>, inseqlen: nat, octstrlen: nat, outseqlen: nat) returns (r: bytes)
    requires forall i | 0 <= i < |params| :: |lib.format(params[i])| < 65536
    requires inseqlen == |KeyIntegers(lib, params)| < 65536 && octstrlen == |Tlv(Sequence, KeyIntegers(lib, params))| == Wrapped(inseqlen) < 65536
    requires outseqlen == Wrapped(octstrlen) + 18 < 65536
    ensures r == Padded(KeySequence(lib, params))
  {
    var needed := Wrapped(outseqlen);
    var buf := new byte[needed + 8];
    ghost var keys := Tlv(OctetString, Tlv(Sequence, KeyIntegers(lib, params)));
    var p := StoreTagLength(buf, 0, Sequence, outseqlen);
    p := Put(buf, p, [0x02, 0x01, 0x00]);
    p := StoreRsaAlgorithm(buf, p);
    p := StoreKeyIntegers(lib, buf, p, params, octstrlen, inseqlen);
    assert p == needed;
    KeySequenceFlat(lib, params, outseqlen);
    p := StorePadding(buf, p);
    r := buf[..p];
  }

  lemma KeySequenceFlat(lib: Lib, params: seq<nat>, outseqlen: nat)
    requires outseqlen == |Tlv(OctetString, Tlv(Sequence, KeyIntegers(lib, params)))| + 18
    ensures [] + Header(Sequence, outseqlen) + [0x02, 0x01, 0x00] + RsaAlgorithm() + Tlv(OctetString, Tlv(Sequence, KeyIntegers(lib, params)))
              == KeySequence(lib, params)
  {
    var keys := Tlv(OctetString, Tlv(Sequence, KeyIntegers(lib, params)));
    IntegerZero();
    RsaAlgorithmLength();
    Flat4([], Header(Sequence, outseqlen), [0x02, 0x01, 0x00], RsaAlgorithm(), keys);
    NothingInFront(KeySequence(lib, params));
  }

  // The file.

  /** The buffers of the list one behind the other. */
  function Concat(sequences: seq<bytes>): bytes {
    if sequences == [] then [] else Concat(sequences[..|sequences| - 1]) + sequences[|sequences| - 1]
  }

  lemma ConcatNext(sequences: seq<bytes>, i: nat)
    requires i < |sequences|
    ensures Concat(sequences[..i + 1]) == Concat(sequences[..i]) + sequences[i]
  {
    assert sequences[..i + 1][..i] == sequences[..i];
  }

  lemma {:induction false} ConcatPrefix(sequences: seq<bytes>, i: nat)
    requires i <= |sequences|
    ensures |Concat(sequences[..i])| <= |Concat(sequences)|
    decreases |sequences| - i
  {
    if i == |sequences| {
      assert sequences[..i] == sequences;
    } else {
      ConcatNext(sequences, i);
      ConcatPrefix(sequences, i + 1);
    }
  }

  method TotalLength(sequences: seq<bytes>) returns (needed: nat)
    ensures needed == |Concat(sequences)|
  {
    needed := 0;
    var i := 0;
    while i < |sequences|
      invariant 0 <= i <= |sequences| && needed == |Concat(sequences[..i])|
    {
      ConcatNext(sequences, i);
      needed := needed + |sequences[i]|;
      i := i + 1;
    }
    assert sequences[..i] == sequences;
  }

  method StoreAll(buf: array<byte>, p: nat, sequences: seq<bytes>) returns (q: nat)
    requires p + |Concat(sequences)| <= buf.Length
    modifies buf
    ensures q == p + |Concat(sequences)| && buf[..q] == old(buf[..p]) + Concat(sequences)
  {
    ghost var w := buf[..p];
    q := p;
    NothingBehind(w);
    var i := 0;
    while i < |sequences|
      invariant 0 <= i <= |sequences|
      invariant q == p + |Concat(sequences[..i])| <= buf.Length && buf[..q] == w + Concat(sequences[..i])
    {
      ConcatNext(sequences, i);
      ConcatPrefix(sequences, i + 1);
      q := Put(buf, q, sequences[i]);
      Join(w, Concat(sequences[..i]), sequences[i]);
      i := i + 1;
    }
    assert sequences[..i] == sequences;
  }

  lemma FinalSizesRight(bags: bytes, mac: bytes)
    requires |mac| == 51 && |FinalContents(bags, mac)| < 65536
    ensures var len5 := Wrapped(|bags|); var len4 := Wrapped(len5); var len2 := Wrapped(len4) + 11; var len0 := Wrapped(len2) + 54;
            && |bags| < 65536 && |Tlv(Sequence, bags)| == len5 < 65536 && |Tlv(OctetString, Tlv(Sequence, bags))| == len4 < 65536
            && |Tlv(ObjectId, OidData) + Tlv(Context, Tlv(OctetString, Tlv(Sequence, bags)))| == len2 < 65536
            && |FinalContents(bags, mac)| == len0
  {
    TlvLength(Sequence, bags);
    TlvLength(OctetString, Tlv(Sequence, bags));
    TlvLength(Context, Tlv(OctetString, Tlv(Sequence, bags)));
    TlvLength(Sequence, Tlv(ObjectId, OidData) + Tlv(Context, Tlv(OctetString, Tlv(Sequence, bags))));
  }

  /** create_final: the buffer is filled exactly. */
  method CreateFinal(lib: Lib, sequences: seq<bytes>, pw: bytes, salt: bytes) returns (r: Option<bytes>)
    requires Lawful(lib) && |salt| == 8
    requires |FinalContents(Concat(sequences), MacData(lib.mac(salt, pw, Tlv(Sequence, Concat(sequences))), salt))| < 65536
    ensures r == Final(lib, Concat(sequences), pw, salt)
  {
    ghost var bags := Concat(sequences);
    var len6 := TotalLength(sequences);
    var len5 := Wrapped(len6);
    var len4 := Wrapped(len5);
    var len2 := Wrapped(len4) + 11;
    var len0 := Wrapped(len2) + 3 + 51;
    if |pw| > MaxPassword {
      return None;
    }
    FinalSizesRight(bags, MacData(lib.mac(salt, pw, Tlv(Sequence, bags)), salt));
    var result := new byte[Wrapped(len0)];
    var p := StoreTagLength(result, 0, Sequence, len0);
    p := Put(result, p, [0x02, 0x01, 0x03]);
    p := StoreBags(result, p, sequences, len2, len4, len5, len6);
    var macstart := p - len5;
    MacCovers(result[..p], [] + Header(Sequence, len0) + [0x02, 0x01, 0x03], bags, len2, len4, len5);
    var mac := MacData(lib.mac(salt, pw, result[macstart..p]), salt);
    assert result[macstart..p] == result[..p][macstart..];
    p := Put(result, p, mac);
    assert p == result.Length;
    FinalFlat(bags, mac, len0);
    assert result[..] == result[..p];
    r := Some(result[..]);
  }

  /** Its steps 2 to 7. */
  method StoreBags(buf: array<byte>, p: nat, sequences: seq<bytes>, len2: nat, len4: nat, len5: nat, len6: nat) returns (q: nat)
    requires len6 == |Concat(sequences)| < 65536 && len5 == |Tlv(Sequence, Concat(sequences))| == Wrapped(len6) < 65536
    requires len4 == |Tlv(OctetString, Tlv(Sequence, Concat(sequences)))| == Wrapped(len5) < 65536
    requires len2 == |Tlv(ObjectId, OidData) + Tlv(Context, Tlv(OctetString, Tlv(Sequence, Concat(sequences))))| == Wrapped(len4) + 11 < 65536
    requires p + Wrapped(len2) <= buf.Length
    modifies buf
    ensures q == p + Wrapped(len2)
    ensures buf[..q] == old(buf[..p]) + Tlv(Sequence, Tlv(ObjectId, OidData) + Tlv(Context, Tlv(OctetString, Tlv(Sequence, Concat(sequences)))))
  {
    ghost var w, bags := buf[..p], Concat(sequences);
    q := StoreTagLength(buf, p, Sequence, len2);
    q := StoreObject(buf, q, ObjectId, OidData);
    q := StoreTagLength(buf, q, Context, len4);
    ghost var w' := buf[..q];
    q := StoreTagLength(buf, q, OctetString, len5);
    q := StoreTagLength(buf, q, Sequence, len6);
    q := StoreAll(buf, q, sequences);
    Flat3(w', Header(OctetString, len5), Header(Sequence, len6), bags);
    Flat4(w, Header(Sequence, len2), Tlv(ObjectId, OidData), Header(Context, len4), Tlv(OctetString, Tlv(Sequence, bags)));
  }

  /** The hashed part is the innermost sequence, at the end of what has been written. */
  lemma MacCovers(s: bytes, w: bytes, bags: bytes, len2: nat, len4: nat, len5: nat)
    requires s == w + Tlv(Sequence, Tlv(ObjectId, OidData) + Tlv(Context, Tlv(OctetString, Tlv(Sequence, bags))))
    requires len5 == |Tlv(Sequence, bags)| && len4 == |Tlv(OctetString, Tlv(Sequence, bags))|
    requires len2 == |Tlv(ObjectId, OidData) + Tlv(Context, Tlv(OctetString, Tlv(Sequence, bags)))|
    ensures len5 <= |s| && s[|s| - len5..] == Tlv(Sequence, bags)
  {
    var a := w + Header(Sequence, len2) + Tlv(ObjectId, OidData) + Header(Context, len4) + Header(OctetString, len5);
    Flat4(w, Header(Sequence, len2), Tlv(ObjectId, OidData), Header(Context, len4), Header(OctetString, len5) + Tlv(Sequence, bags));
    Join(w + Header(Sequence, len2) + Tlv(ObjectId, OidData) + Header(Context, len4), Header(OctetString, len5), Tlv(Sequence, bags));
    LastPart(s, a, Tlv(Sequence, bags));
  }

  lemma LastPart(s: bytes, a: bytes, b: bytes)
    requires s == a + b
    ensures s[|s| - |b|..] == b
  {
  }

  lemma FinalFlat(bags: bytes, mac: bytes, len0: nat)
    requires len0 == |FinalContents(bags, mac)|
    ensures [] + Header(Sequence, len0) + [0x02, 0x01, 0x03]
              + Tlv(Sequence, Tlv(ObjectId, OidData) + Tlv(Context, Tlv(OctetString, Tlv(Sequence, bags)))) + mac
              == Tlv(Sequence, FinalContents(bags, mac))
  {
    IntegerThree();
    Flat4([], Header(Sequence, len0), [0x02, 0x01, 0x03], Tlv(Sequence, Tlv(ObjectId, OidData) + Tlv(Context, Tlv(OctetString, Tlv(Sequence, bags)))), mac);
    NothingInFront(Tlv(Sequence, FinalContents(bags, mac)));
  }

  lemma IntegerThree()
    ensures Tlv(Integer, [3]) == [0x02, 0x01, 0x03]
  {
  }

  lemma FinalHoldsBags(bags: bytes, mac: bytes)
    requires |FinalContents(bags, mac)| < 65536
    ensures |bags| < 65536
  {
    TlvLength(Sequence, bags);
    TlvLength(OctetString, Tlv(Sequence, bags));
    TlvLength(Context, Tlv(OctetString, Tlv(Sequence, bags)));
    TlvLength(Sequence, Tlv(ObjectId, OidData) + Tlv(Context, Tlv(OctetString, Tlv(Sequence, bags))));
  }

  lemma CertBagHoldsCert(lib: Lib, cert: bytes, pw: bytes, salt: bytes)
    requires Lawful(lib) && |salt| == 8 && |BuildCert(lib, cert, pw, salt)| < 65536
    ensures |CertSequence(cert, Attributes(lib.sha1(cert)))| < 65536
  {
    CertBagSizes(EncryptedCert(lib, cert, pw, salt), salt);
    assert |EncryptedCert(lib, cert, pw, salt)| == |Padded(CertSequence(cert, Attributes(lib.sha1(cert))))|;
  }

  lemma TwoBuffers(a: bytes, b: bytes)
    ensures Concat([]) == [] && Concat([a]) == a && Concat([a, b]) == a + b
  {
    assert [a][..0] == [] && [a, b][..1] == [a];
    assert Concat([a]) == Concat([]) + a;
    NothingInFront(a);
  }

  /** The list of the bags. */
  method CollectBags(lib: Lib, kparms: Option<seq<nat>>, cert: bytes, pw: bytes, salts: Salts) returns (r: Option<seq<bytes>>)
    requires Lawful(lib) && |salts.cert| == 8 && |salts.key| == 8
    requires cert != [] ==> |BuildCert(lib, cert, pw, salts.cert)| < 65536
    requires var bags := Bags(lib, kparms, cert, pw, salts); bags.Some? ==> |bags.value| < 65536
    ensures var bags := Bags(lib, kparms, cert, pw, salts);
            (r.None? <==> bags.None?) && (r.Some? ==> Concat(r.value) == bags.value)
  {
    var seqlist := [];
    if cert != [] {
      var bag := BuildCertPart(lib, cert, pw, salts.cert);
      seqlist := [bag];
    }
    ghost var first := if cert == [] then [] else BuildCert(lib, cert, pw, salts.cert);
    TwoBuffers(first, []);
    if kparms.Some? {
      var plain := BuildKeySequence(lib, kparms.value);
      if plain.None? {
        return None;
      }
      ghost var second := BuildKey(lib, plain.value, cert, pw, salts.key);
      var bag := BuildKeyPart(lib, plain.value, cert, pw, salts.key);
      seqlist := seqlist + [bag];
      TwoBuffers(first, second);
      TwoBuffers(second, []);
      NothingInFront(second);
    }
    r := Some(seqlist);
  }

  /** p12_build. */
  method Build(lib: Lib, kparms: Option<seq<nat>>, cert: bytes, pw: bytes, salts: Salts) returns (r: Option<bytes>)
    requires Lawful(lib) && |salts.cert| == 8 && |salts.key| == 8 && |salts.mac| == 8
    requires cert != [] ==> |BuildCert(lib, cert, pw, salts.cert)| < 65536
    requires var bags := Bags(lib, kparms, cert, pw, salts);
             bags.Some? ==> |FinalContents(bags.value, MacData(lib.mac(salts.mac, pw, Tlv(Sequence, bags.value)), salts.mac))| < 65536
    ensures r == Pkcs12.Build(lib, kparms, cert, pw, salts)
  {
    ghost var bags := Bags(lib, kparms, cert, pw, salts);
    if bags.Some? {
      FinalHoldsBags(bags.value, MacData(lib.mac(salts.mac, pw, Tlv(Sequence, bags.value)), salts.mac));
    }
    var seqlist := CollectBags(lib, kparms, cert, pw, salts);
    if seqlist.None? {
      return None;
    }
    r := CreateFinal(lib, seqlist.value, pw, salts.mac);
  }

  method BuildCertPart(lib: Lib, cert: bytes, pw: bytes, salt: bytes) returns (bag: bytes)
    requires Lawful(lib) && |salt| == 8 && |BuildCert(lib, cert, pw, salt)| < 65536
    ensures bag == BuildCert(lib, cert, pw, salt)
  {
    CertBagHoldsCert(lib, cert, pw, salt);
    var plain := BuildCertSequence(cert, lib.sha1(cert));
    var buf := BuildCertBag(Encipher(lib, Rc2, salt, 2048, pw, plain), salt);
    bag := buf[..];
  }

  method BuildKeyPart(lib: Lib, plain: bytes, cert: bytes, pw: bytes, salt: bytes) returns (bag: bytes)
    requires Lawful(lib) && |salt| == 8 && |BuildKey(lib, plain, cert, pw, salt)| < 65536
    ensures bag == BuildKey(lib, plain, cert, pw, salt)
  {
    var buf := BuildKeyBag(Encipher(lib, TripleDes, salt, 2048, pw, plain), salt,
                           if cert == [] then None else Some(lib.sha1(cert)));
    bag := buf[..];
  }

  // ---------------------------------------------------------------------------------
  // The parser.

  method ExpectTag(s: bytes, cls: nat, number: nat) returns (r: Option<(Tag, bytes)>)
    ensures r == Expect(s, cls, number)
  {
    r := ReadTag(s);
    if r.Some? && (r.value.0.cls != cls || r.value.0.number != number) {
      r := None;
    }
  }

  method NamedTag(s: bytes, number: nat) returns (r: Option<(Tag, bytes)>)
    ensures r == Named(s, number)
  {
    r := ReadTag(s);
    if r.Some? && r.value.0.number != number {
      r := None;
    }
  }

  method MatchOid(s: bytes, oid: bytes, anyClass: bool) returns (r: Option<bytes>)
    ensures r == ReadOid(s, oid, anyClass)
  {
    var tag := ReadTag(s);
    if tag.None? {
      return None;
    }
    var (t, rest) := tag.value;
    r := if IsOid(t, rest, oid) && (anyClass || t.cls == 0) then Some(Advance(rest, |oid|)) else None;
  }

  method MatchSmall(s: bytes, value: byte, anyClass: bool) returns (r: Option<bytes>)
    ensures r == ReadSmall(s, value, anyClass)
  {
    var tag := NamedTag(s, 2);
    if tag.None? {
      return None;
    }
    var (t, rest) := tag.value;
    r := if (anyClass || t.cls == 0) && t.length == 1 && rest[0] == value then Some(rest[1..]) else None;
  }

  method CramOctetString(text: bytes) returns (r: Option<(bytes, bytes)>)
    ensures r == Cram(text, [])
  {
    var s, output: bytes := text, [];
    while true
      invariant Cram(s, output) == Cram(text, [])
      decreases |s|
    {
      var tag := ReadTag(s);
      if tag.None? {
        return None;
      }
      var (t, rest) := tag.value;
      if t.cls == 0 && t.number == 4 && !t.ndef && !t.constructed {
        output := output + rest[..t.length];
        s := Advance(rest, t.length);
      } else if t.cls == 0 && t.number == 0 && !t.constructed {
        return Some((output, rest));
      } else {
        return None;
      }
    }
  }

  /** The loop over the octets of the iteration count. */
  method CountIterations(octets: bytes) returns (iter: nat)
    ensures iter == Iterations(octets, 0)
  {
    iter := 0;
    var rest := octets;
    while rest != []
      invariant Iterations(rest, iter) == Iterations(octets, 0)
      decreases |rest|
    {
      iter := (iter * 256) % 0x1_0000_0000 + rest[0];
      rest := rest[1..];
    }
  }

  method ReadSaltAndCount(s: bytes) returns (r: Option<(bytes, nat, bytes)>)
    ensures r == ReadPbeParams(s)
  {
    var head := ExpectTag(s, 0, 16);
    if head.None? {
      return None;
    }
    var salt := ExpectTag(head.value.1, 0, 4);
    if salt.None? || salt.value.0.length < 8 || salt.value.0.length > 20 {
      return None;
    }
    var (t, s2) := salt.value;
    var count := ExpectTag(Advance(s2, t.length), 0, 2);
    if count.None? || count.value.0.length == 0 {
      return None;
    }
    var (u, s3) := count.value;
    var iter := CountIterations(s3[..u.length]);
    r := Some((s2[..t.length], iter, Advance(s3, u.length)));
  }

  method IsPlausible(plain: bytes, key: bool) returns (ok: bool)
    ensures ok == Plausible(plain, key)
  {
    var head := ExpectTag(plain, 0, 16);
    if head.None? {
      return false;
    }
    if key {
      var version := MatchSmall(head.value.1, 0, false);
      return version.Some?;
    }
    var next := ReadTag(head.value.1);
    ok := next.Some?;
  }

  /** The loop over the character sets. */
  method DecryptBlock(lib: Lib, algo: Algo, salt: bytes, iter: nat, pw: bytes, data: bytes, key: bool) returns (plain: bytes)
    ensures plain == Decode(lib, algo, salt, iter, pw, data, key, 0, [])
  {
    plain := [];
    var charsetidx := 0;
    while charsetidx < 16
      invariant 0 <= charsetidx <= 16
      invariant Decode(lib, algo, salt, iter, pw, data, key, charsetidx, plain) == Decode(lib, algo, salt, iter, pw, data, key, 0, [])
    {
      var converted := if charsetidx == 0 then Some(pw) else lib.convert(charsetidx, pw);
      if converted.Some? {
        plain := Decipher(lib, algo, salt, iter, converted.value, data);
        var plausible := IsPlausible(plain, key);
        if plausible {
          return;
        }
      }
      charsetidx := charsetidx + 1;
    }
  }

  /** The loop over the key parameters. */
  method ReadParameters(lib: Lib, text: bytes, length: nat) returns (r: Option<(seq<nat>, bytes)>)
    ensures r == ReadIntegers(lib, text, length, [])
  {
    var s, len, result: seq<nat> := text, length, [];
    while len > 0 && |result| < 9
      invariant 0 <= len && ReadIntegers(lib, s, len, result) == ReadIntegers(lib, text, length, [])
      decreases |s|
    {
      var tag := ExpectTag(s, 0, 2);
      if tag.None? {
        return None;
      }
      var (t, rest) := tag.value;
      if len < t.nhdr {
        return None;
      }
      len := len - t.nhdr;
      if len < t.length {
        return None;
      }
      len := len - t.length;
      if !(|result| == 0 && t.length == 1 && rest[0] == 0) {
        result := result + [lib.scan(rest[..t.length])];
      }
      s := Advance(rest, t.length);
    }
    if len != 0 {
      return None;
    }
    r := Some((result, s));
  }

  method PassKeyAlgorithm(s: bytes) returns (r: Option<bytes>)
    ensures r == ReadKeyAlgorithm(s)
  {
    var head := ExpectTag(s, 0, 16);
    if head.None? {
      return None;
    }
    var (t, s1) := head.value;
    var oid := ExpectTag(s1, 0, 6);
    if oid.None? {
      return None;
    }
    var (u, s2) := oid.value;
    if t.length < u.nhdr || !IsOid(u, s2, OidRsa) || t.length - u.nhdr < u.length {
      return None;
    }
    var len := t.length - u.nhdr - u.length;
    r := if |s2| - u.length < len then None else Some(Advance(s2, u.length + len));
  }

  method ReadPrivateKey(lib: Lib, s: bytes) returns (r: Option<(seq<nat>, bytes)>)
    ensures r == ReadKey(lib, s)
  {
    var head := ExpectTag(s, 0, 16);
    if head.None? {
      return None;
    }
    var version := MatchSmall(head.value.1, 0, false);
    if version.None? {
      return None;
    }
    var algorithm := PassKeyAlgorithm(version.value);
    if algorithm.None? {
      return None;
    }
    var octets := ExpectTag(algorithm.value, 0, 4);
    if octets.None? {
      return None;
    }
    var params := ExpectTag(octets.value.1, 0, 16);
    if params.None? {
      return None;
    }
    r := ReadParameters(lib, params.value.1, params.value.0.length);
  }

  // parse_bag_encrypted_data.

  method ReadCertificate(s: bytes) returns (r: Option<Item>)
    ensures r == ReadCert(s)
  {
    var head := ExpectTag(s, 0, 16);
    if head.None? {
      return None;
    }
    var oid := MatchOid(head.value.1, OidX509, false);
    if oid.None? {
      return None;
    }
    var context := ExpectTag(oid.value, 2, 0);
    if context.None? {
      return None;
    }
    var octets := ExpectTag(context.value.1, 0, 4);
    if octets.None? || octets.value.0.ndef {
      return None;
    }
    var (t, s4) := octets.value;
    r := Some(Item(Some(s4[..t.length]), None, Advance(s4, t.length)));
  }

  method ReadOneItem(lib: Lib, s: bytes, keyWanted: bool) returns (r: Option<Item>)
    ensures r == ReadItem(lib, s, keyWanted)
  {
    var head := ExpectTag(s, 0, 6);
    if head.None? {
      return None;
    }
    var (t, s1) := head.value;
    var cert, crl, key := IsOid(t, s1, OidCertBag), IsOid(t, s1, OidCrlBag), IsOid(t, s1, OidKeyBag);
    if !cert && !crl && !key {
      return None;
    }
    var context := ExpectTag(Advance(s1, t.length), 2, 0);
    if context.None? {
      return None;
    }
    var (u, s2) := context.value;
    if crl || (key && !keyWanted) {
      return Some(Item(None, None, Advance(s2, u.length)));
    }
    if cert {
      r := ReadCertificate(s2);
      return;
    }
    var params := ReadPrivateKey(lib, s2);
    r := if params.None? then None else Some(Item(None, Some(params.value.0), params.value.1));
  }

  /** The attributes and the padding behind an item. */
  method PassAttributes(s: bytes, t: Tag) returns (r: Option<(Tag, bytes)>)
    ensures r == NextItem(s, t)
  {
    if |s| <= 8 {
      return Some((t, []));
    }
    var tag := ReadTag(s);
    if tag.None? {
      return None;
    }
    var (u, s1) := tag.value;
    if u.cls == 0 && u.number == 16 {
      return Some((u, s1));
    }
    if !(u.cls == 0 && u.number == 17 && !u.ndef) {
      return None;
    }
    var s2 := DropPadding(Advance(s1, u.length));
    if s2 == [] {
      return Some((u, []));
    }
    r := ReadTag(s2);
  }

  /** The loop over the items of a bag. */
  method ReadAllItems(lib: Lib, text: bytes, tag: Tag, keyWanted: bool, start: Parsed) returns (ok: bool, found: Parsed)
    ensures (ok, found) == ReadItems(lib, text, tag, keyWanted, start)
  {
    var s, t := text, tag;
    found := start;
    while s != []
      invariant ReadItems(lib, s, t, keyWanted, found) == ReadItems(lib, text, tag, keyWanted, start)
      decreases |s|
    {
      if t.cls != 0 || t.number != 16 {
        return false, found;
      }
      var item := ReadOneItem(lib, s, keyWanted && found.key.None?);
      if item.None? {
        return false, found;
      }
      var next := PassAttributes(item.value.rest, t);
      found := With(found, item.value);
      if next.None? {
        return false, found;
      }
      t, s := next.value.0, next.value.1;
    }
    ok := true;
  }

  method PassEncryptedHead(s: bytes) returns (r: Option<bytes>)
    ensures r == ReadEncryptedHead(s)
  {
    var context := ExpectTag(s, 2, 0);
    if context.None? {
      return None;
    }
    var outer := NamedTag(context.value.1, 16);
    if outer.None? {
      return None;
    }
    var version := MatchSmall(outer.value.1, 0, true);
    if version.None? {
      return None;
    }
    var inner := NamedTag(version.value, 16);
    if inner.None? {
      return None;
    }
    r := MatchOid(inner.value.1, OidData, true);
  }

  method ReadCipherAlgorithm(s: bytes) returns (r: Option<(Algo, bytes, nat, bytes)>)
    ensures r == ReadAlgorithm(s)
  {
    var head := ExpectTag(s, 0, 16);
    if head.None? {
      return None;
    }
    var rc2 := MatchOid(head.value.1, OidRc2, false);
    var des := MatchOid(head.value.1, OidTripleDes, false);
    if rc2.None? && des.None? {
      return None;
    }
    var params := ReadSaltAndCount(if rc2.Some? then rc2.value else des.value);
    if params.None? {
      return None;
    }
    r := Some((if rc2.Some? then Rc2 else TripleDes, params.value.0, params.value.1, params.value.2));
  }

  method ReadCiphertext(s: bytes) returns (r: Option<(bytes, bytes)>)
    ensures r == ReadCipher(s)
  {
    var tag := ExpectTag(s, 2, 0);
    if tag.None? {
      return None;
    }
    var (t, s1) := tag.value;
    if t.constructed && t.ndef {
      r := CramOctetString(s1);
    } else {
      r := if t.length == 0 then None else Some((s1[..t.length], s1));
    }
  }

  method ReadPlaintext(lib: Lib, plain: bytes, keyWanted: bool, certs: seq<bytes>) returns (ok: bool, found: Parsed)
    ensures (ok, found) == ReadContents(lib, plain, keyWanted, certs)
  {
    found := Parsed(None, certs);
    var head := ExpectTag(plain, 0, 16);
    if head.None? {
      return false, found;
    }
    var tag := ReadTag(head.value.1);
    if tag.None? {
      return false, found;
    }
    ok, found := ReadAllItems(lib, tag.value.1, tag.value.0, keyWanted, found);
  }

  /** parse_bag_encrypted_data. */
  method ParseBagEncryptedData(lib: Lib, s: bytes, pw: bytes, keyWanted: bool, certs: seq<bytes>) returns (r: Bag)
    ensures r == ReadEncryptedData(lib, s, pw, keyWanted, certs)
  {
    r := Bag(false, Parsed(None, certs), 0);
    var head := PassEncryptedHead(s);
    if head.None? {
      return;
    }
    var algorithm := ReadCipherAlgorithm(head.value);
    if algorithm.None? {
      return;
    }
    var (algo, salt, iter, s2) := algorithm.value;
    var cipher := ReadCiphertext(s2);
    if cipher.None? {
      return;
    }
    var plain := DecryptBlock(lib, algo, salt, iter, pw, cipher.value.0, false);
    var ok, found := ReadPlaintext(lib, plain, keyWanted, certs);
    r := Bag(ok, found, Consumed(s, cipher.value.1));
  }

  // parse_bag_data.

  method PassShroudedHead(s: bytes) returns (r: Option<bytes>)
    ensures r == ReadShroudedHead(s)
  {
    var outer := ExpectTag(s, 0, 16);
    if outer.None? {
      return None;
    }
    var inner := ExpectTag(outer.value.1, 0, 16);
    if inner.None? {
      return None;
    }
    var oid := MatchOid(inner.value.1, OidShroudedKeyBag, false);
    if oid.None? {
      return None;
    }
    var context := ExpectTag(oid.value, 2, 0);
    if context.None? {
      return None;
    }
    var key := ExpectTag(context.value.1, 0, 16);
    r := if key.None? then None else Some(key.value.1);
  }

  method ReadShroudedKey(s: bytes) returns (r: Option<(bytes, nat, bytes, bytes)>)
    ensures r == ReadShrouded(s)
  {
    var head := ExpectTag(s, 0, 16);
    if head.None? {
      return None;
    }
    var oid := MatchOid(head.value.1, OidTripleDes, false);
    if oid.None? {
      return None;
    }
    var params := ReadSaltAndCount(oid.value);
    if params.None? {
      return None;
    }
    var octets := ExpectTag(params.value.2, 0, 4);
    if octets.None? || octets.value.0.length == 0 {
      return None;
    }
    var (t, s4) := octets.value;
    r := Some((params.value.0, params.value.1, s4[..t.length], s4));
  }

  method ParseShroudedBag(s: bytes) returns (r: Option<(bytes, nat, bytes, bytes)>)
    ensures r == ReadShroudedBag(s)
  {
    var head := PassShroudedHead(s);
    if head.None? {
      return None;
    }
    r := ReadShroudedKey(head.value);
  }

  method Unwrap(s: bytes) returns (r: Option<(bytes, Option<bytes>)>)
    ensures r == ReadWrapped(s)
  {
    var context := ExpectTag(s, 2, 0);
    if context.None? {
      return None;
    }
    var octets := ExpectTag(context.value.1, 0, 4);
    if octets.None? {
      return None;
    }
    var (t, s2) := octets.value;
    if t.constructed && t.ndef {
      var crammed := CramOctetString(s2);
      return if crammed.None? then None else Some((crammed.value.0, Some(crammed.value.1)));
    }
    r := Some((s2, None));
  }

  method DecryptKey(lib: Lib, pw: bytes, salt: bytes, iter: nat, data: bytes) returns (r: Option<(seq<nat>, bytes)>)
    ensures r == OpenKey(lib, pw, salt, iter, data)
  {
    var plain := DecryptBlock(lib, TripleDes, salt, iter, pw, data, true);
    r := ReadPrivateKey(lib, plain);
  }

  method DecryptBagKey(lib: Lib, pw: bytes, bag: Option<(bytes, nat, bytes, bytes)>) returns (r: Option<(seq<nat>, bytes)>)
    ensures r == BagKey(lib, pw, bag)
  {
    if bag.None? {
      return None;
    }
    r := DecryptKey(lib, pw, bag.value.0, bag.value.1, bag.value.2);
  }

  /** parse_bag_data. */
  method ParseBagData(lib: Lib, s: bytes, pw: bytes) returns (r: Option<(seq<nat>, nat)>)
    ensures r == ReadData(lib, s, pw)
  {
    var wrapped := Unwrap(s);
    if wrapped.None? {
      return None;
    }
    var (s1, crammed) := wrapped.value;
    var bag := ParseShroudedBag(s1);
    var key := DecryptBagKey(lib, pw, bag);
    r := Counted(key, BagConsumed(s, s1, crammed, bag));
  }

  // The file.

  method ParseBag(lib: Lib, pw: bytes, t: Tag, s: bytes, found: Parsed) returns (r: Contents)
    ensures r == Reader(lib, pw)(t, s, found)
  {
    if IsOid(t, s, OidEncryptedData) {
      var bag := ParseBagEncryptedData(lib, Advance(s, |OidEncryptedData|), pw, found.key.None?, found.certs);
      r := FromBag(bag, found);
    } else if IsOid(t, s, OidData) && found.key.None? {
      var key := ParseBagData(lib, Advance(s, |OidData|), pw);
      r := FromKey(key, found);
    } else {
      r := Skipped;
    }
  }

  method StartBag(s: bytes, left: nat, ndef: bool) returns (r: Start)
    ensures r == BagStart(s, left, ndef)
  {
    var tag := ReadTag(s);
    if tag.None? {
      return Bad;
    }
    var (t, s1) := tag.value;
    if ndef && t.cls == 0 && t.number == 0 && !t.constructed {
      return End;
    }
    if t.cls != 0 || t.number != 16 || (!ndef && (left < t.nhdr || left - t.nhdr < t.length)) {
      return Bad;
    }
    var oid := ReadTag(s1);
    r := if oid.None? then Bad else Start(t, oid.value.0, oid.value.1);
  }

  /** One pass of the loop, for any reader. */
  lemma OneBagMore(read: (Tag, bytes, Parsed) -> Contents, s: bytes, left: nat, ndef: bool, found: Parsed, b: Start, r: Contents)
    requires (left > 0 || ndef) && BagStart(s, left, ndef) == b && b.Start? && read(b.u, b.s, found) == r
    ensures var found' := if r.Read? then r.found else found;
            ReadBags(read, s, left, ndef, found) ==
              if r.Read? && !r.ok then Failed(found')
              else if BagEnd(b, r).None? then Failed(found')
              else ReadBags(read, BagEnd(b, r).value, if ndef then 0 else left - b.t.nhdr - b.t.length, ndef, found')
  {
  }

  /** The loop over the bags. */
  method ReadAllBags(lib: Lib, pw: bytes, text: bytes, length: nat, ndef: bool) returns (found: Parsed)
    ensures found == ReadBags(Reader(lib, pw), text, length, ndef, Parsed(None, []))
  {
    var s, left := text, length;
    found := Parsed(None, []);
    while left > 0 || ndef
      invariant 0 <= left
      invariant ReadBags(Reader(lib, pw), s, left, ndef, found) == ReadBags(Reader(lib, pw), text, length, ndef, Parsed(None, []))
      decreases |s|
    {
      var b := StartBag(s, left, ndef);
      if b.End? {
        return;
      }
      if b.Bad? {
        return Failed(found);
      }
      var r := ParseBag(lib, pw, b.u, b.s, found);
      OneBagMore(Reader(lib, pw), s, left, ndef, found, b, r);
      if r.Read? {
        found := r.found;
        if !r.ok {
          return Failed(found);
        }
      }
      var rest := BagEnd(b, r);
      if rest.None? {
        return Failed(found);
      }
      left := if ndef then 0 else left - b.t.nhdr - b.t.length;
      s := rest.value;
    }
  }

  method PassHead(s: bytes) returns (r: Option<bytes>)
    ensures r == ReadHead(s)
  {
    var outer := NamedTag(s, 16);
    if outer.None? {
      return None;
    }
    var version := MatchSmall(outer.value.1, 3, true);
    if version.None? {
      return None;
    }
    var inner := NamedTag(version.value, 16);
    if inner.None? {
      return None;
    }
    r := MatchOid(inner.value.1, OidData, true);
  }

  method FindBags(s: bytes) returns (r: Option<(bytes, nat, bool)>)
    ensures r == ReadFile(s)
  {
    var head := PassHead(s);
    if head.None? {
      return None;
    }
    var wrapped := Unwrap(head.value);
    if wrapped.None? {
      return None;
    }
    var bags := ExpectTag(wrapped.value.0, 0, 16);
    r := if bags.None? then None else Some((bags.value.1, bags.value.0.length, bags.value.0.ndef));
  }

  /** p12_parse. */
  method Parse(lib: Lib, text: bytes, pw: bytes) returns (found: Parsed)
    ensures found == Pkcs12.Parse(lib, text, pw)
  {
    var file := FindBags(text);
    if file.None? {
      return Parsed(None, []);
    }
    var (bags, left, ndef) := file.value;
    found := ReadAllBags(lib, pw, bags, left, ndef);
  }
}
