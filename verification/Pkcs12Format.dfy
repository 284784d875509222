/** PKCS#12 files as section 4 of RFC 7292 describes them, and p12_build as the maker of one. */
module Pkcs12Format {
  import opened Wrappers
  import opened Octets
  import opened Der
  import Pkcs12
  import opened Pkcs12RoundTrip

  // ---------------------------------------------------------------------------------
  // Object identifiers: section 8.19 of X.690.

  /** All but the last septet of a number. */
  function Septets(n: nat): bytes {
    if n == 0 then [] else Septets(n / 128) + [128 + n % 128]
  }

  function Arc(n: nat): bytes { Septets(n / 128) + [n % 128] }

  function Arcs(arcs: seq<nat>): bytes {
    if arcs == [] then [] else Arc(arcs[0]) + Arcs(arcs[1..])
  }

  function OidValue(first: nat, second: nat, arcs: seq<nat>): bytes
    requires first < 3 && second < 40
  {
    [40 * first + second] + Arcs(arcs)
  }

  /** iso(1) member-body(2) us(840) rsadsi(113549) pkcs(1). */
  function PkcsValue(arcs: seq<nat>): bytes { OidValue(1, 2, [840, 113549, 1] + arcs) }

  function Oid(arcs: seq<nat>): bytes { Tlv(ObjectId, PkcsValue(arcs)) }

  const IdData: seq<nat> := [7, 1]
  const IdEncryptedData: seq<nat> := [7, 6]
  const IdKeyBag: seq<nat> := [12, 10, 1, 1]
  const IdShroudedKeyBag: seq<nat> := [12, 10, 1, 2]
  const IdCertBag: seq<nat> := [12, 10, 1, 3]
  const IdCrlBag: seq<nat> := [12, 10, 1, 4]
  const IdTripleDes: seq<nat> := [12, 1, 3]
  const IdRc2: seq<nat> := [12, 1, 6]
  const IdX509: seq<nat> := [9, 22, 1]
  const IdRsa: seq<nat> := [1, 1]
  const IdFriendlyName: seq<nat> := [9, 20]
  const IdLocalKeyId: seq<nat> := [9, 21]

  lemma ArcsOne(a: nat)
    requires a < 128
    ensures Arcs([a]) == [a]
  {
    assert [a][1..] == [] && Septets(0) == [];
  }

  lemma ArcsMore(a: nat, rest: seq<nat>)
    requires a < 128
    ensures Arcs([a] + rest) == [a] + Arcs(rest)
  {
    assert ([a] + rest)[0] == a && ([a] + rest)[1..] == rest && Septets(0) == [];
  }

  lemma ArcsOf2(a: nat, b: nat)
    requires a < 128 && b < 128
    ensures Arcs([a, b]) == [a, b]
  {
    ArcsOne(b);
    ArcsMore(a, [b]);
    assert [a] + [b] == [a, b];
  }

  lemma ArcsOf3(a: nat, b: nat, c: nat)
    requires a < 128 && b < 128 && c < 128
    ensures Arcs([a, b, c]) == [a, b, c]
  {
    ArcsOf2(b, c);
    ArcsMore(a, [b, c]);
    assert [a] + [b, c] == [a, b, c];
  }

  lemma ArcsOf4(a: nat, b: nat, c: nat, d: nat)
    requires a < 128 && b < 128 && c < 128 && d < 128
    ensures Arcs([a, b, c, d]) == [a, b, c, d]
  {
    ArcsOf3(b, c, d);
    ArcsMore(a, [b, c, d]);
    assert [a] + [b, c, d] == [a, b, c, d];
  }

  lemma LongArcs()
    ensures Arc(840) == [0x86, 0x48] && Arc(113549) == [0x86, 0xF7, 0x0D]
  {
    assert Septets(6) == Septets(0) + [134] == [134];
    assert Septets(887) == Septets(6) + [0xF7];
  }

  lemma PkcsIs(arcs: seq<nat>)
    ensures PkcsValue(arcs) == [0x2A, 0x86, 0x48, 0x86, 0xF7, 0x0D, 0x01] + Arcs(arcs)
  {
    var all, rest, last := [840, 113549, 1] + arcs, [113549, 1] + arcs, [1] + arcs;
    assert all[0] == 840 && all[1..] == rest && rest[0] == 113549 && rest[1..] == last;
    LongArcs();
    ArcsMore(1, arcs);
    assert Arcs(all) == Arc(840) + Arcs(rest);
    assert Arcs(rest) == Arc(113549) + Arcs(last);
    assert [0x2A] + ([0x86, 0x48] + ([0x86, 0xF7, 0x0D] + ([0x01] + Arcs(arcs)))) == [0x2A, 0x86, 0x48, 0x86, 0xF7, 0x0D, 0x01] + Arcs(arcs);
  }

  lemma Id2(a: nat, b: nat)
    requires a < 128 && b < 128
    ensures PkcsValue([a, b]) == [0x2A, 0x86, 0x48, 0x86, 0xF7, 0x0D, 0x01, a, b]
  {
    PkcsIs([a, b]);
    ArcsOf2(a, b);
  }

  lemma Id3(a: nat, b: nat, c: nat)
    requires a < 128 && b < 128 && c < 128
    ensures PkcsValue([a, b, c]) == [0x2A, 0x86, 0x48, 0x86, 0xF7, 0x0D, 0x01, a, b, c]
  {
    PkcsIs([a, b, c]);
    ArcsOf3(a, b, c);
  }

  lemma Id4(a: nat, b: nat, c: nat, d: nat)
    requires a < 128 && b < 128 && c < 128 && d < 128
    ensures PkcsValue([a, b, c, d]) == [0x2A, 0x86, 0x48, 0x86, 0xF7, 0x0D, 0x01, a, b, c, d]
  {
    PkcsIs([a, b, c, d]);
    ArcsOf4(a, b, c, d);
  }

  /** The identifiers of the source are those of the standards. */
  lemma OidsAre()
    ensures PkcsValue(IdData) == Pkcs12.OidData && PkcsValue(IdEncryptedData) == Pkcs12.OidEncryptedData
    ensures PkcsValue(IdRsa) == Pkcs12.OidRsa
  {
    Id2(7, 1);
    Id2(7, 6);
    Id2(1, 1);
  }

  lemma BagOidsAre()
    ensures PkcsValue(IdKeyBag) == Pkcs12.OidKeyBag && PkcsValue(IdShroudedKeyBag) == Pkcs12.OidShroudedKeyBag
    ensures PkcsValue(IdCertBag) == Pkcs12.OidCertBag && PkcsValue(IdCrlBag) == Pkcs12.OidCrlBag
  {
    Id4(12, 10, 1, 1);
    Id4(12, 10, 1, 2);
    Id4(12, 10, 1, 3);
    Id4(12, 10, 1, 4);
  }

  lemma CipherOidsAre()
    ensures PkcsValue(IdTripleDes) == Pkcs12.OidTripleDes && PkcsValue(IdRc2) == Pkcs12.OidRc2 && PkcsValue(IdX509) == Pkcs12.OidX509
  {
    Id3(12, 1, 3);
    Id3(12, 1, 6);
    Id3(9, 22, 1);
  }

  // ---------------------------------------------------------------------------------
  // The parts of a file.

  function ContentInfo(id: seq<nat>, content: bytes): bytes { Tlv(Sequence, Oid(id) + Tlv(Context, content)) }

  function Pbe(id: seq<nat>, salt: bytes, count: bytes): bytes {
    Tlv(Sequence, Oid(id) + Tlv(Sequence, Tlv(OctetString, salt) + Tlv(Integer, count)))
  }

  function SafeBag(id: seq<nat>, value: bytes, attributes: bytes): bytes {
    Tlv(Sequence, Oid(id) + (Tlv(Context, value) + attributes))
  }

  function CertBagValue(cert: bytes): bytes { Tlv(Sequence, Oid(IdX509) + Tlv(Context, Tlv(OctetString, cert))) }

  /** A sequence of bags, encrypted. */
  function EncryptedInfo(id: seq<nat>, salt: bytes, count: bytes, data: bytes): bytes {
    ContentInfo(IdEncryptedData,
      Tlv(Sequence, Tlv(Integer, [0]) + Tlv(Sequence, Oid(IdData) + (Pbe(id, salt, count) + Tlv(Implicit, data)))))
  }

  /** A sequence of one bag with an encrypted key. */
  function ShroudedInfo(salt: bytes, count: bytes, data: bytes, attributes: bytes): bytes {
    ContentInfo(IdData,
      Tlv(OctetString, Tlv(Sequence,
        SafeBag(IdShroudedKeyBag, Tlv(Sequence, Pbe(IdTripleDes, salt, count) + Tlv(OctetString, data)), attributes))))
  }

  function Attribute(id: seq<nat>, value: bytes): bytes { Tlv(Sequence, Oid(id) + Tlv(SetOf, value)) }

  /** Two octets for each character. */
  function Bmp(s: string): bytes {
    seq(2 * |s|, i requires 0 <= i < 2 * |s| => if i % 2 == 0 then s[i / 2] as int / 256 % 256 else s[i / 2] as int % 256)
  }

  function HexDigit(d: nat): char
    requires d < 16
  {
    "0123456789abcdef"[d]
  }

  function HexText(data: bytes): string {
    seq(2 * |data|, i requires 0 <= i < 2 * |data| => if i % 2 == 0 then HexDigit(data[i / 2] / 16) else HexDigit(data[i / 2] % 16))
  }

  const BmpString: byte := 0x1e

  /** The name tells the last four octets of the digest; the key id is the digest. */
  function BagAttributes(digest: bytes): bytes
    requires |digest| == 20
  {
    Tlv(SetOf, Attribute(IdFriendlyName, Tlv(BmpString, Bmp("GnuPG " + "exported " + "certificate " + HexText(digest[16..])))) +
               Attribute(IdLocalKeyId, Tlv(OctetString, digest)))
  }

  function DigestInfo(digest: bytes): bytes {
    Tlv(Sequence, Tlv(Sequence, Tlv(ObjectId, OidValue(1, 3, [14, 3, 2, 26])) + [0x05, 0x00]) + Tlv(OctetString, digest))
  }

  function MacData(digest: bytes, salt: bytes, count: bytes): bytes {
    Tlv(Sequence, DigestInfo(digest) + (Tlv(OctetString, salt) + Tlv(Integer, count)))
  }

  function Pfx(authSafe: bytes, macData: bytes): bytes {
    Tlv(Sequence, Tlv(Integer, [3]) + (ContentInfo(IdData, Tlv(OctetString, authSafe)) + macData))
  }

  /** The octets of 2048. */
  const Count2048: bytes := [0x08, 0x00]

  // ---------------------------------------------------------------------------------
  // The templates of the source.

  lemma PbeIs(id: seq<nat>, oid: bytes, salt: bytes)
    requires PkcsValue(id) == oid && |oid| == 10 && |salt| == 8
    ensures Pkcs12.AlgorithmId(oid, salt) == Pbe(id, salt, Count2048)
  {
    AlgorithmIdIsDer(oid, salt);
  }

  lemma Sha1Oid()
    ensures OidValue(1, 3, [14, 3, 2, 26]) == [0x2b, 0x0e, 0x03, 0x02, 0x1a]
  {
    ArcsOf4(14, 3, 2, 26);
  }

  lemma DigestInfoIs(digest: bytes)
    requires |digest| == 20
    ensures DigestInfo(digest) ==
              [0x30, 0x21, 0x30, 0x09, 0x06, 0x05, 0x2b, 0x0e, 0x03, 0x02, 0x1a, 0x05, 0x00, 0x04, 0x14] + digest
  {
    Sha1Oid();
    var oid: bytes := [0x2b, 0x0e, 0x03, 0x02, 0x1a];
    assert Tlv(ObjectId, oid) + [0x05, 0x00] == [0x06, 0x05, 0x2b, 0x0e, 0x03, 0x02, 0x1a, 0x05, 0x00];
    var algo: bytes := Tlv(Sequence, [0x06, 0x05, 0x2b, 0x0e, 0x03, 0x02, 0x1a, 0x05, 0x00]);
    assert algo == [0x30, 0x09, 0x06, 0x05, 0x2b, 0x0e, 0x03, 0x02, 0x1a, 0x05, 0x00];
    assert Tlv(OctetString, digest) == [0x04, 0x14] + digest;
    assert |algo + Tlv(OctetString, digest)| == 33;
    assert [0x30, 0x21] + (algo + ([0x04, 0x14] + digest)) ==
             [0x30, 0x21, 0x30, 0x09, 0x06, 0x05, 0x2b, 0x0e, 0x03, 0x02, 0x1a, 0x05, 0x00, 0x04, 0x14] + digest;
  }

  /** data_mactemplate is a digest with salt and count. */
  lemma MacDataIs(digest: bytes, salt: bytes)
    requires |digest| == 20 && |salt| == 8
    ensures Pkcs12.MacData(digest, salt) == MacData(digest, salt, Count2048)
  {
    DigestInfoIs(digest);
    var info, rest := DigestInfo(digest), Tlv(OctetString, salt) + Tlv(Integer, Count2048);
    assert Tlv(OctetString, salt) == [0x04, 0x08] + salt && Tlv(Integer, Count2048) == [0x02, 0x02, 0x08, 0x00];
    assert |info + rest| == 49;
    MacJoined(digest, salt, info, rest);
  }

  lemma MacJoined(digest: bytes, salt: bytes, info: bytes, rest: bytes)
    requires info == [0x30, 0x21, 0x30, 0x09, 0x06, 0x05, 0x2b, 0x0e, 0x03, 0x02, 0x1a, 0x05, 0x00, 0x04, 0x14] + digest
    requires rest == ([0x04, 0x08] + salt) + [0x02, 0x02, 0x08, 0x00]
    ensures [0x30, 0x31] + (info + rest) == Pkcs12.MacData(digest, salt)
  {
    Join([0x04, 0x08], salt, [0x02, 0x02, 0x08, 0x00]);
    var head: bytes := [0x30, 0x21, 0x30, 0x09, 0x06, 0x05, 0x2b, 0x0e, 0x03, 0x02, 0x1a, 0x05, 0x00, 0x04, 0x14];
    Join(head, digest, rest);
    Join([0x30, 0x31], head, digest + rest);
    assert [0x30, 0x31] + head == [0x30, 0x31, 0x30, 0x21, 0x30, 0x09, 0x06, 0x05, 0x2b, 0x0e, 0x03, 0x02, 0x1a, 0x05, 0x00, 0x04, 0x14];
  }

  lemma BmpJoin(a: string, b: string)
    ensures Bmp(a + b) == Bmp(a) + Bmp(b)
  {
    var l, r := Bmp(a + b), Bmp(a) + Bmp(b);
    forall i | 0 <= i < |l| ensures l[i] == r[i] {
      if i >= 2 * |a| {
        assert (a + b)[i / 2] == b[(i - 2 * |a|) / 2];
      }
    }
  }

  lemma WordsAre()
    ensures Bmp("GnuPG ") == Pkcs12.AttrWord1 && Bmp("exported ") == Pkcs12.AttrWord2
  {
  }

  lemma LastWordIs()
    ensures Bmp("certificate ") == Pkcs12.AttrWord3
  {
  }

  lemma HexIs(d: nat)
    requires d < 16
    ensures HexDigit(d) as int == Pkcs12.Hex(d)
  {
  }

  /** The key id with its characters in two octets each. */
  function KeyIdOctets(hash: bytes): bytes
    requires |hash| == 20
  {
    seq(16, i requires 0 <= i < 16 => if i % 2 == 0 then 0 else Pkcs12.KeyId(hash)[i / 2])
  }

  lemma KeyIdChar(hash: bytes, j: nat)
    requires |hash| == 20 && j < 8
    ensures HexText(hash[16..])[j] as int == Pkcs12.KeyId(hash)[j]
  {
    var b := hash[16 + j / 2];
    assert hash[16..][j / 2] == b;
    HexIs(b / 16);
    HexIs(b % 16);
    assert j == 0 || j == 1 || j == 2 || j == 3 || j == 4 || j == 5 || j == 6 || j == 7;
  }

  lemma KeyIdIs(hash: bytes)
    requires |hash| == 20
    ensures Bmp(HexText(hash[16..])) == KeyIdOctets(hash)
  {
    var l := Bmp(HexText(hash[16..]));
    forall i | 0 <= i < 16 ensures l[i] == KeyIdOctets(hash)[i] {
      KeyIdChar(hash, i / 2);
    }
  }

  lemma KeyIdPlace(j: nat)
    requires j < 16 && j % 2 == 0
    ensures Pkcs12.AttrKeyId[j] == 0
  {
    assert j == 0 || j == 2 || j == 4 || j == 6 || j == 8 || j == 10 || j == 12 || j == 14;
  }

  /** The template with other octets in the place of the key id. */
  function Template(k: bytes): bytes {
    Pkcs12.AttrHead + (Pkcs12.AttrWord1 + (Pkcs12.AttrWord2 + (Pkcs12.AttrWord3 + (k + Pkcs12.AttrTail))))
  }

  lemma TemplateOf(h: bytes, k: bytes, k': bytes, t: bytes, i: nat)
    requires |k| == |k'| && i < |h| + |k| + |t|
    ensures !(|h| <= i < |h| + |k|) ==> (h + (k + t))[i] == (h + (k' + t))[i]
    ensures |h| <= i < |h| + |k| ==> (h + (k + t))[i] == k[i - |h|] && (h + (k' + t))[i] == k'[i - |h|]
  {
  }

  lemma TemplateParts(k: bytes)
    requires |k| == 16
    ensures var h := Pkcs12.AttrHead + (Pkcs12.AttrWord1 + (Pkcs12.AttrWord2 + Pkcs12.AttrWord3));
            |h| == 73 && Template(k) == h + (k + Pkcs12.AttrTail)
  {
    var a, b, c, d := Pkcs12.AttrHead, Pkcs12.AttrWord1, Pkcs12.AttrWord2, Pkcs12.AttrWord3;
    Join(c, d, k + Pkcs12.AttrTail);
    Join(b, c + d, k + Pkcs12.AttrTail);
    Join(a, b + (c + d), k + Pkcs12.AttrTail);
  }

  /** Outside of the key id nothing changes. */
  lemma TemplateSame(k: bytes, i: nat)
    requires |k| == 16 && i < 106
    ensures |Template(k)| == 106
    ensures Template(k)[i] == if 73 <= i < 89 then k[i - 73] else Pkcs12.AttrTemplate[i]
    ensures 73 <= i < 89 ==> Pkcs12.AttrTemplate[i] == Pkcs12.AttrKeyId[i - 73]
  {
    var h := Pkcs12.AttrHead + (Pkcs12.AttrWord1 + (Pkcs12.AttrWord2 + Pkcs12.AttrWord3));
    TemplateParts(k);
    TemplateParts(Pkcs12.AttrKeyId);
    TemplateOf(h, k, Pkcs12.AttrKeyId, Pkcs12.AttrTail, i);
  }

  lemma AttributeAt(hash: bytes, i: nat)
    requires |hash| == 20 && i < 106
    ensures Pkcs12.Attributes(hash)[i] == if 74 <= i < 90 && i % 2 == 0 then Pkcs12.KeyId(hash)[(i - 74) / 2] else Pkcs12.AttrTemplate[i]
  {
  }

  lemma KeyIdAt(k: bytes, hash: bytes, j: nat)
    requires |hash| == 20 && k == KeyIdOctets(hash) && j < 16
    ensures k[j] == if j % 2 == 1 then Pkcs12.KeyId(hash)[j / 2] else 0
  {
  }

  lemma TemplateAt(hash: bytes, i: nat, k: bytes)
    requires |hash| == 20 && i < 106 && k == KeyIdOctets(hash)
    ensures |Template(k)| == 106 && Pkcs12.Attributes(hash)[i] == Template(k)[i]
  {
    TemplateSame(k, i);
    AttributeAt(hash, i);
    if 73 <= i < 89 {
      KeyIdAt(k, hash, i - 73);
      if i % 2 == 1 {
        KeyIdPlace(i - 73);
      }
    }
  }

  lemma AttributesSplit(hash: bytes)
    requires |hash| == 20
    ensures Pkcs12.Attributes(hash) == Template(KeyIdOctets(hash)) + hash
  {
    var t, a := Template(KeyIdOctets(hash)), Pkcs12.Attributes(hash);
    TemplateSame(KeyIdOctets(hash), 0);
    forall i | 0 <= i < 106 ensures a[i] == t[i] {
      TemplateAt(hash, i, KeyIdOctets(hash));
    }
    assert a == a[..106] + a[106..] && a[106..] == hash;
  }

  /** The value of the name. */
  lemma NameIs(hash: bytes)
    requires |hash| == 20
    ensures Bmp("GnuPG " + "exported " + "certificate " + HexText(hash[16..])) ==
              ((Pkcs12.AttrWord1 + Pkcs12.AttrWord2) + Pkcs12.AttrWord3) + KeyIdOctets(hash)
  {
    WordsAre();
    LastWordIs();
    KeyIdIs(hash);
    BmpJoin("GnuPG ", "exported ");
    BmpJoin("GnuPG " + "exported ", "certificate ");
    BmpJoin("GnuPG " + "exported " + "certificate ", HexText(hash[16..]));
  }

  lemma NameOids()
    ensures Oid(IdFriendlyName) == [0x06, 0x09, 0x2a, 0x86, 0x48, 0x86, 0xf7, 0x0d, 0x01, 0x09, 0x14]
    ensures Oid(IdLocalKeyId) == [0x06, 0x09, 0x2a, 0x86, 0x48, 0x86, 0xf7, 0x0d, 0x01, 0x09, 0x15]
  {
    Id2(9, 20);
    Id2(9, 21);
  }

  lemma FriendlyName(name: bytes)
    requires |name| == 70
    ensures [0x31, 0x7c] + Attribute(IdFriendlyName, Tlv(BmpString, name)) == Pkcs12.AttrHead + name
    ensures |Attribute(IdFriendlyName, Tlv(BmpString, name))| == 87
  {
    NameOids();
    var s1: bytes := Tlv(BmpString, name);
    assert s1 == [0x1e, 0x46] + name;
    var s2: bytes := Tlv(SetOf, s1);
    assert s2 == [0x31, 0x48] + s1;
    var c := Oid(IdFriendlyName) + s2;
    assert |c| == 85;
    assert Tlv(Sequence, c) == [0x30, 0x55] + c;
  }

  lemma LocalKeyId(hash: bytes)
    requires |hash| == 20
    ensures Attribute(IdLocalKeyId, Tlv(OctetString, hash)) == Pkcs12.AttrTail + hash
  {
    NameOids();
    var s1: bytes := Tlv(OctetString, hash);
    assert s1 == [0x04, 0x14] + hash;
    var s2: bytes := Tlv(SetOf, s1);
    assert s2 == [0x31, 0x16] + s1;
    var c := Oid(IdLocalKeyId) + s2;
    assert |c| == 35;
    assert Tlv(Sequence, c) == [0x30, 0x23] + c;
  }

  /** data_attrtemplate is a set of two attributes. */
  lemma AttributesAre(hash: bytes)
    requires |hash| == 20
    ensures Pkcs12.Attributes(hash) == BagAttributes(hash)
  {
    var name := ((Pkcs12.AttrWord1 + Pkcs12.AttrWord2) + Pkcs12.AttrWord3) + KeyIdOctets(hash);
    var a, b := Attribute(IdFriendlyName, Tlv(BmpString, name)), Attribute(IdLocalKeyId, Tlv(OctetString, hash));
    NameIs(hash);
    AttributesSplit(hash);
    FriendlyName(name);
    LocalKeyId(hash);
    assert |a + b| == 124;
    assert Tlv(SetOf, a + b) == [0x31, 0x7c] + (a + b);
    AttributesJoined(hash, name, a, b);
  }

  lemma AttributesJoined(hash: bytes, name: bytes, a: bytes, b: bytes)
    requires |hash| == 20 && name == ((Pkcs12.AttrWord1 + Pkcs12.AttrWord2) + Pkcs12.AttrWord3) + KeyIdOctets(hash)
    requires [0x31, 0x7c] + a == Pkcs12.AttrHead + name && b == Pkcs12.AttrTail + hash
    ensures [0x31, 0x7c] + (a + b) == Template(KeyIdOctets(hash)) + hash
  {
    var h, u, v, w, k, t := Pkcs12.AttrHead, Pkcs12.AttrWord1, Pkcs12.AttrWord2, Pkcs12.AttrWord3, KeyIdOctets(hash), Pkcs12.AttrTail;
    Join([0x31, 0x7c], a, b);
    Regrouped(h, u, v, w, k, t, hash);
  }

  lemma Regrouped(h: bytes, u: bytes, v: bytes, w: bytes, k: bytes, t: bytes, x: bytes)
    ensures (h + (((u + v) + w) + k)) + (t + x) == (h + (u + (v + (w + (k + t))))) + x
  {
  }

  // ---------------------------------------------------------------------------------
  // The file that p12_build makes.

  function IntegersOf(lib: Pkcs12.Lib, params: seq<nat>): bytes {
    if params == [] then [] else IntegersOf(lib, params[..|params| - 1]) + Tlv(Integer, lib.format(params[|params| - 1]))
  }

  /** What stands in a private key: section 5 of RFC 5208. */
  function KeyContents(lib: Pkcs12.Lib, params: seq<nat>): bytes {
    Tlv(Integer, [0]) +
    (Tlv(Sequence, Oid(IdRsa) + [0x05, 0x00]) +
     Tlv(OctetString, Tlv(Sequence, Tlv(Integer, [0]) + IntegersOf(lib, params))))
  }

  function PrivateKeyInfo(lib: Pkcs12.Lib, params: seq<nat>): bytes { Tlv(Sequence, KeyContents(lib, params)) }

  /** One to eight octets that each hold their number fill up the last block. */
  ghost predicate FilledUp(text: bytes, padded: bytes) {
    exists p: byte :: 1 <= p <= 8 && padded == text + Repeated(p) && |padded| % 8 == 0
  }

  function Repeated(p: byte): bytes { seq(p, i => p) }

  lemma PaddedIsFilledUp(text: bytes)
    ensures FilledUp(text, Pkcs12.Padded(text))
  {
    var p: byte := 8 - |text| % 8;
    assert Pkcs12.Padded(text) == text + Repeated(p);
  }

  lemma {:induction false} IntegersSnoc(lib: Pkcs12.Lib, params: seq<nat>, last: nat)
    ensures Pkcs12.Integers(lib, params + [last]) == Pkcs12.Integers(lib, params) + Tlv(Integer, lib.format(last))
  {
    if params == [] {
      assert params + [last] == [last] && [last][1..] == [];
      NothingBehind(Tlv(Integer, lib.format(last)));
      NothingInFront(Tlv(Integer, lib.format(last)));
    } else {
      assert (params + [last])[0] == params[0] && (params + [last])[1..] == params[1..] + [last];
      IntegersSnoc(lib, params[1..], last);
      Join(Tlv(Integer, lib.format(params[0])), Pkcs12.Integers(lib, params[1..]), Tlv(Integer, lib.format(last)));
    }
  }

  lemma {:induction false} IntegersAre(lib: Pkcs12.Lib, params: seq<nat>)
    ensures Pkcs12.Integers(lib, params) == IntegersOf(lib, params)
  {
    if params != [] {
      var pre, last := params[..|params| - 1], params[|params| - 1];
      IntegersAre(lib, pre);
      IntegersSnoc(lib, pre, last);
      assert pre + [last] == params;
    }
  }

  lemma KeyIs(lib: Pkcs12.Lib, params: seq<nat>)
    ensures Pkcs12.KeySequence(lib, params) == PrivateKeyInfo(lib, params)
  {
    IntegersAre(lib, params);
    OidsAre();
  }

  /** A key can be encoded if and only if its contents are shorter than 65536 octets. */
  lemma EncodableIff(lib: Pkcs12.Lib, params: seq<nat>)
    ensures Pkcs12.Encodable(lib, params) <==> |KeyContents(lib, params)| < 65536
  {
    IntegersAre(lib, params);
    OidsAre();
    var ints := Pkcs12.KeyIntegers(lib, params);
    var octets := Tlv(OctetString, Tlv(Sequence, ints));
    TlvLength(Sequence, ints);
    TlvLength(OctetString, Tlv(Sequence, ints));
    TlvLength(ObjectId, Pkcs12.OidRsa);
    TlvLength(Sequence, Tlv(ObjectId, Pkcs12.OidRsa) + [0x05, 0x00]);
    TlvLength(Integer, [0]);
    assert |KeyContents(lib, params)| == 18 + |octets|;
    forall i | 0 <= i < |params| ensures |lib.format(params[i])| <= |Pkcs12.Integers(lib, params)| {
      IntegerFits(lib, params, i);
    }
  }

  lemma {:induction false} IntegerFits(lib: Pkcs12.Lib, params: seq<nat>, i: nat)
    requires i < |params|
    ensures |lib.format(params[i])| <= |Pkcs12.Integers(lib, params)|
  {
    TlvLength(Integer, lib.format(params[0]));
    if i > 0 {
      IntegerFits(lib, params[1..], i - 1);
    }
  }

  lemma CertInfoIs(data: bytes, salt: bytes)
    requires |salt| == 8
    ensures Pkcs12.CertBag(data, salt) == EncryptedInfo(IdRc2, salt, Count2048, data)
  {
    OidsAre();
    CipherOidsAre();
    PbeIs(IdRc2, Pkcs12.OidRc2, salt);
  }

  lemma KeyInfoIs(data: bytes, salt: bytes, attributes: bytes)
    requires |salt| == 8
    ensures Pkcs12.KeyBag(data, salt, attributes) == ShroudedInfo(salt, Count2048, data, attributes)
  {
    OidsAre();
    BagOidsAre();
    CipherOidsAre();
    PbeIs(IdTripleDes, Pkcs12.OidTripleDes, salt);
  }

  /** The bags of a certificate. */
  function CertBags(cert: bytes, digest: bytes): bytes
    requires |digest| == 20
  {
    Tlv(Sequence, SafeBag(IdCertBag, CertBagValue(cert), BagAttributes(digest)))
  }

  lemma CertBagsAre(cert: bytes, digest: bytes)
    requires |digest| == 20
    ensures Pkcs12.CertSequence(cert, Pkcs12.Attributes(digest)) == CertBags(cert, digest)
  {
    BagOidsAre();
    CipherOidsAre();
    AttributesAre(digest);
    Join(Oid(IdCertBag), Tlv(Context, CertBagValue(cert)), BagAttributes(digest));
  }

  lemma PfxIs(lib: Pkcs12.Lib, bags: bytes, pw: bytes, salt: bytes)
    requires |pw| <= Pkcs12.MaxPassword && |salt| == 8 && |lib.mac(salt, pw, Tlv(Sequence, bags))| == 20
    ensures var authSafe := Tlv(Sequence, bags);
            Pkcs12.Final(lib, bags, pw, salt) == Some(Pfx(authSafe, MacData(lib.mac(salt, pw, authSafe), salt, Count2048)))
  {
    OidsAre();
    MacDataIs(lib.mac(salt, pw, Tlv(Sequence, bags)), salt);
  }

  /** p12_build fails if and only if the password has more than 31 octets, or there is a key that
      does not have eight parameters or whose contents take 65536 octets or more. */
  lemma BuildFails(lib: Pkcs12.Lib, kparms: Option<seq<nat>>, cert: bytes, pw: bytes, salts: Pkcs12.Salts)
    requires |lib.sha1(cert)| == 20
    ensures Pkcs12.Build(lib, kparms, cert, pw, salts).None? <==>
              |pw| > 31 || (kparms.Some? && (|kparms.value| != 8 || |KeyContents(lib, kparms.value)| >= 65536))
  {
    if kparms.Some? {
      EncodableIff(lib, kparms.value);
    }
  }

  function CertInfo(lib: Pkcs12.Lib, cert: bytes, pw: bytes, salt: bytes, certText: bytes): bytes {
    if cert == [] then [] else EncryptedInfo(IdRc2, salt, Count2048, lib.encrypt(Pkcs12.Rc2, salt, 2048, pw, certText))
  }

  function KeyInfo(lib: Pkcs12.Lib, cert: bytes, pw: bytes, salt: bytes, keyText: bytes): bytes
    requires |lib.sha1(cert)| == 20
  {
    ShroudedInfo(salt, Count2048, lib.encrypt(Pkcs12.TripleDes, salt, 2048, pw, keyText), if cert == [] then [] else BagAttributes(lib.sha1(cert)))
  }

  lemma FirstBagIs(lib: Pkcs12.Lib, cert: bytes, pw: bytes, salt: bytes, certText: bytes)
    requires |lib.sha1(cert)| == 20 && |salt| == 8 && |pw| <= Pkcs12.MaxPassword && cert != []
    requires certText == Pkcs12.Padded(CertBags(cert, lib.sha1(cert)))
    ensures Pkcs12.BuildCert(lib, cert, pw, salt) == CertInfo(lib, cert, pw, salt, certText)
  {
    CertBagsAre(cert, lib.sha1(cert));
    CertInfoIs(lib.encrypt(Pkcs12.Rc2, salt, 2048, pw, certText), salt);
  }

  lemma SecondBagIs(lib: Pkcs12.Lib, params: seq<nat>, cert: bytes, pw: bytes, salt: bytes, keyText: bytes)
    requires |lib.sha1(cert)| == 20 && |salt| == 8 && |pw| <= Pkcs12.MaxPassword
    requires keyText == Pkcs12.Padded(PrivateKeyInfo(lib, params))
    ensures Pkcs12.BuildKey(lib, Pkcs12.Padded(Pkcs12.KeySequence(lib, params)), cert, pw, salt) == KeyInfo(lib, cert, pw, salt, keyText)
  {
    KeyIs(lib, params);
    AttributesAre(lib.sha1(cert));
    KeyInfoIs(lib.encrypt(Pkcs12.TripleDes, salt, 2048, pw, keyText), salt, Pkcs12.KeyAttributes(lib, cert));
  }

  lemma BagsAre(lib: Pkcs12.Lib, kparms: Option<seq<nat>>, cert: bytes, pw: bytes, salts: Pkcs12.Salts, first: bytes, second: bytes, bags: bytes)
    requires |lib.sha1(cert)| == 20 && Pkcs12.Bags(lib, kparms, cert, pw, salts) == Some(bags)
    requires first == if cert == [] then [] else Pkcs12.BuildCert(lib, cert, pw, salts.cert)
    requires second == if kparms.None? then [] else Pkcs12.BuildKey(lib, Pkcs12.Padded(Pkcs12.KeySequence(lib, kparms.value)), cert, pw, salts.key)
    ensures bags == first + second
  {
    if kparms.None? {
      NothingBehind(bags);
    }
  }

  /** What p12_build returns is a file of the standard: its contents are the certificate, encrypted
      with RC2, and the key, encrypted with triple DES; the digest at its end is computed over these
      contents. */
  lemma BuildIsPfx(lib: Pkcs12.Lib, kparms: Option<seq<nat>>, cert: bytes, pw: bytes, salts: Pkcs12.Salts)
      returns (certText: bytes, keyText: bytes)
    requires Pkcs12.Lawful(lib) && SaltsOk(salts) && Pkcs12.Build(lib, kparms, cert, pw, salts).Some?
    ensures FilledUp(CertBags(cert, lib.sha1(cert)), certText)
    ensures kparms.Some? ==> FilledUp(PrivateKeyInfo(lib, kparms.value), keyText)
    ensures var bags := CertInfo(lib, cert, pw, salts.cert, certText) + (if kparms.None? then [] else KeyInfo(lib, cert, pw, salts.key, keyText));
            var authSafe := Tlv(Sequence, bags);
            Pkcs12.Build(lib, kparms, cert, pw, salts) == Some(Pfx(authSafe, MacData(lib.mac(salts.mac, pw, authSafe), salts.mac, Count2048)))
  {
    certText := Pkcs12.Padded(CertBags(cert, lib.sha1(cert)));
    keyText := if kparms.Some? then Pkcs12.Padded(PrivateKeyInfo(lib, kparms.value)) else [];
    PaddedIsFilledUp(CertBags(cert, lib.sha1(cert)));
    if kparms.Some? {
      PaddedIsFilledUp(PrivateKeyInfo(lib, kparms.value));
    }
    var bags := Pkcs12.Bags(lib, kparms, cert, pw, salts).value;
    InfosAre(lib, kparms, cert, pw, salts, certText, keyText, bags);
    PfxIs(lib, bags, pw, salts.mac);
  }

  lemma InfosAre(lib: Pkcs12.Lib, kparms: Option<seq<nat>>, cert: bytes, pw: bytes, salts: Pkcs12.Salts, certText: bytes, keyText: bytes, bags: bytes)
    requires |lib.sha1(cert)| == 20 && SaltsOk(salts) && |pw| <= Pkcs12.MaxPassword
    requires Pkcs12.Bags(lib, kparms, cert, pw, salts) == Some(bags)
    requires certText == Pkcs12.Padded(CertBags(cert, lib.sha1(cert)))
    requires kparms.Some? ==> keyText == Pkcs12.Padded(PrivateKeyInfo(lib, kparms.value))
    ensures bags == CertInfo(lib, cert, pw, salts.cert, certText) + (if kparms.None? then [] else KeyInfo(lib, cert, pw, salts.key, keyText))
  {
    if cert != [] {
      FirstBagIs(lib, cert, pw, salts.cert, certText);
    }
    if kparms.Some? {
      SecondBagIs(lib, kparms.value, cert, pw, salts.key, keyText);
    }
    BagsAre(lib, kparms, cert, pw, salts, CertInfo(lib, cert, pw, salts.cert, certText),
            if kparms.None? then [] else KeyInfo(lib, cert, pw, salts.key, keyText), bags);
  }
}
