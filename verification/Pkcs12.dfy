/** The PKCS#12 parser and builder of cns/gnupg-2.0.22/agent/minip12.c (section 4 of RFC 7292)
    as functions on octet strings. */
module Pkcs12 {
  import opened Wrappers
  import opened Octets
  import opened Der

  const OidData: bytes := [0x2A, 0x86, 0x48, 0x86, 0xF7, 0x0D, 0x01, 0x07, 0x01]
  const OidEncryptedData: bytes := [0x2A, 0x86, 0x48, 0x86, 0xF7, 0x0D, 0x01, 0x07, 0x06]
  const OidKeyBag: bytes := [0x2A, 0x86, 0x48, 0x86, 0xF7, 0x0D, 0x01, 0x0C, 0x0A, 0x01, 0x01]
  const OidShroudedKeyBag: bytes := [0x2A, 0x86, 0x48, 0x86, 0xF7, 0x0D, 0x01, 0x0C, 0x0A, 0x01, 0x02]
  const OidCertBag: bytes := [0x2A, 0x86, 0x48, 0x86, 0xF7, 0x0D, 0x01, 0x0C, 0x0A, 0x01, 0x03]
  const OidCrlBag: bytes := [0x2A, 0x86, 0x48, 0x86, 0xF7, 0x0D, 0x01, 0x0C, 0x0A, 0x01, 0x04]
  const OidTripleDes: bytes := [0x2A, 0x86, 0x48, 0x86, 0xF7, 0x0D, 0x01, 0x0C, 0x01, 0x03]
  const OidRc2: bytes := [0x2A, 0x86, 0x48, 0x86, 0xF7, 0x0D, 0x01, 0x0C, 0x01, 0x06]
  const OidX509: bytes := [0x2A, 0x86, 0x48, 0x86, 0xF7, 0x0D, 0x01, 0x09, 0x16, 0x01]
  const OidRsa: bytes := [0x2A, 0x86, 0x48, 0x86, 0xF7, 0x0D, 0x01, 0x01, 0x01]

  datatype Algo = TripleDes | Rc2

  /** The foreign functions: printing and scanning big integers, the two ciphers (algorithm,
      salt, iterations, password, data), SHA-1, the keyed hash of the file (salt, password,
      data), and the conversion of a password to the character set with the given index. */
  datatype Lib = Lib(format: nat -> bytes, scan: bytes -> nat,
                     encrypt: (Algo, bytes, nat, bytes, bytes) -> bytes,
                     decrypt: (Algo, bytes, nat, bytes, bytes) -> bytes,
                     sha1: bytes -> bytes, mac: (bytes, bytes, bytes) -> bytes,
                     convert: (nat, bytes) -> Option<bytes>)

  /** All that is needed of them. */
  ghost predicate Lawful(lib: Lib) {
    && (forall v :: lib.scan(lib.format(v)) == v)
    && (forall algo, salt, iter, pw, data | |data| % 8 == 0 ::
          && |lib.encrypt(algo, salt, iter, pw, data)| == |data|
          && lib.decrypt(algo, salt, iter, pw, lib.encrypt(algo, salt, iter, pw, data)) == data)
    && (forall data :: |lib.sha1(data)| == 20)
    && (forall salt, pw, data :: |lib.mac(salt, pw, data)| == 20)
  }

  const MaxPassword: nat := 31

  /** crypt_block: where no key can be made of the password, the buffer is wiped. */
  function Encipher(lib: Lib, algo: Algo, salt: bytes, iter: nat, pw: bytes, data: bytes): bytes {
    if |pw| > MaxPassword then Zeros(|data|) else lib.encrypt(algo, salt, iter, pw, data)
  }

  function Decipher(lib: Lib, algo: Algo, salt: bytes, iter: nat, pw: bytes, data: bytes): bytes {
    if |pw| > MaxPassword then Zeros(|data|) else lib.decrypt(algo, salt, iter, pw, data)
  }

  // ---------------------------------------------------------------------------------
  // Building.

  function Integers(lib: Lib, params: seq<nat>): bytes {
    if params == [] then [] else Tlv(Integer, lib.format(params[0])) + Integers(lib, params[1..])
  }

  /** The RSA parameters with the version in front of them. */
  function KeyIntegers(lib: Lib, params: seq<nat>): bytes { Tlv(Integer, [0]) + Integers(lib, params) }

  /** The object identifier sequence of a key. */
  function RsaAlgorithm(): bytes { Tlv(Sequence, Tlv(ObjectId, OidRsa) + [0x05, 0x00]) }

  function KeySequence(lib: Lib, params: seq<nat>): bytes {
    Tlv(Sequence, Tlv(Integer, [0]) +
                  (RsaAlgorithm() +
                   Tlv(OctetString, Tlv(Sequence, KeyIntegers(lib, params)))))
  }

  /** One to eight octets of padding, each holding their number. */
  function Padding(n: nat): (r: bytes)
    ensures 1 <= |r| <= 8 && (n + |r|) % 8 == 0
  {
    seq(8 - n % 8, i => 8 - n % 8)
  }

  function Padded(data: bytes): (r: bytes)
    ensures |r| % 8 == 0
  {
    data + Padding(|data|)
  }

  /** Whether build_key_sequence finds nothing too large to encode. */
  predicate Encodable(lib: Lib, params: seq<nat>) {
    && (forall i | 0 <= i < |params| :: |lib.format(params[i])| < 65536)
    && |KeyIntegers(lib, params)| < 65536
    && |Tlv(Sequence, KeyIntegers(lib, params))| < 65536
    && |Tlv(OctetString, Tlv(Sequence, KeyIntegers(lib, params)))| + 18 < 65536
  }

  function BuildKeySequence(lib: Lib, params: seq<nat>): Option<bytes> {
    if |params| != 8 || !Encodable(lib, params) then None else Some(Padded(KeySequence(lib, params)))
  }

  /** data_3desiter2048 and data_rc2iter2048 with the salt put in. */
  function AlgorithmId(oid: bytes, salt: bytes): bytes {
    [0x30, 0x1C, 0x06, 0x0A] + (oid + ([0x30, 0x0E, 0x04, 0x08] + (salt + [0x02, 0x02, 0x08, 0x00])))
  }

  function KeyBag(data: bytes, salt: bytes, attributes: bytes): bytes {
    Tlv(Sequence, Tlv(ObjectId, OidData) +
                  Tlv(Context, Tlv(OctetString, Tlv(Sequence, Tlv(Sequence, ShroudedBag(data, salt, attributes))))))
  }

  function ShroudedKey(data: bytes, salt: bytes): bytes { AlgorithmId(OidTripleDes, salt) + Tlv(OctetString, data) }

  function ShroudedBag(data: bytes, salt: bytes, attributes: bytes): bytes {
    Tlv(ObjectId, OidShroudedKeyBag) + (Tlv(Context, Tlv(Sequence, ShroudedKey(data, salt))) + attributes)
  }

  function CertBag(data: bytes, salt: bytes): bytes {
    Tlv(Sequence, Tlv(ObjectId, OidEncryptedData) +
                  Tlv(Context, Tlv(Sequence, Tlv(Integer, [0]) + Tlv(Sequence, EncryptedContents(data, salt)))))
  }

  function EncryptedContents(data: bytes, salt: bytes): bytes {
    Tlv(ObjectId, OidData) + (AlgorithmId(OidRc2, salt) + Tlv(Implicit, data))
  }

  /** The certificate with its type. */
  function CertValue(cert: bytes): bytes { Tlv(ObjectId, OidX509) + Tlv(Context, Tlv(OctetString, cert)) }

  function CertItem(cert: bytes): bytes {
    Tlv(ObjectId, OidCertBag) + Tlv(Context, Tlv(Sequence, CertValue(cert)))
  }

  function CertSequence(cert: bytes, attributes: bytes): bytes {
    Tlv(Sequence, Tlv(Sequence, CertItem(cert) + attributes))
  }

  /** data_attrtemplate: up to the name, the words of the name, the place of the key id, and the
      rest up to the hash. */
  const AttrHead: bytes :=
    [ 0x31, 0x7c, 0x30, 0x55, 0x06, 0x09, 0x2a, 0x86, 0x48, 0x86, 0xf7, 0x0d, 0x01, 0x09, 0x14, 0x31, 0x48, 0x1e, 0x46 ]
  const AttrWord1: bytes := [ 0x00, 0x47, 0x00, 0x6e, 0x00, 0x75, 0x00, 0x50, 0x00, 0x47, 0x00, 0x20 ]
  const AttrWord2: bytes :=
    [ 0x00, 0x65, 0x00, 0x78, 0x00, 0x70, 0x00, 0x6f, 0x00, 0x72, 0x00, 0x74, 0x00, 0x65, 0x00, 0x64, 0x00, 0x20 ]
  const AttrWord3: bytes :=
    [ 0x00, 0x63, 0x00, 0x65, 0x00, 0x72, 0x00, 0x74, 0x00, 0x69, 0x00, 0x66, 0x00, 0x69, 0x00, 0x63, 0x00, 0x61,
      0x00, 0x74, 0x00, 0x65, 0x00, 0x20 ]
  const AttrKeyId: bytes :=
    [ 0x00, 0x66, 0x00, 0x66, 0x00, 0x66, 0x00, 0x66, 0x00, 0x66, 0x00, 0x66, 0x00, 0x66, 0x00, 0x66 ]
  const AttrTail: bytes :=
    [ 0x30, 0x23, 0x06, 0x09, 0x2a, 0x86, 0x48, 0x86, 0xf7, 0x0d, 0x01, 0x09, 0x15, 0x31, 0x16, 0x04, 0x14 ]

  const AttrTemplate: bytes := AttrHead + (AttrWord1 + (AttrWord2 + (AttrWord3 + (AttrKeyId + AttrTail))))

  /** A lower-case hexadecimal digit. */
  function Hex(d: nat): byte
    requires d < 16
  {
    if d < 10 then 0x30 + d else 0x61 + (d - 10)
  }

  /** The key id: the last four octets of the hash in hexadecimal. */
  function KeyId(hash: bytes): (r: bytes)
    requires |hash| == 20
    ensures |r| == 8
  {
    [ Hex(hash[16] / 16), Hex(hash[16] % 16), Hex(hash[17] / 16), Hex(hash[17] % 16),
      Hex(hash[18] / 16), Hex(hash[18] % 16), Hex(hash[19] / 16), Hex(hash[19] % 16) ]
  }

  /** The bag attributes: the template with the key id put in, and the hash. */
  function Attributes(hash: bytes): (r: bytes)
    requires |hash| == 20
    ensures |r| == 126
  {
    seq(106, i requires 0 <= i < 106 =>
      if 74 <= i < 90 && i % 2 == 0 then KeyId(hash)[(i - 74) / 2] else AttrTemplate[i]) + hash
  }

  /** data_mactemplate with the hash and the salt put in. */
  function MacData(mac: bytes, salt: bytes): bytes {
    [0x30, 0x31, 0x30, 0x21, 0x30, 0x09, 0x06, 0x05, 0x2b, 0x0e, 0x03, 0x02, 0x1a, 0x05, 0x00, 0x04, 0x14] +
    (mac + ([0x04, 0x08] + (salt + [0x02, 0x02, 0x08, 0x00])))
  }

  /** What stands in the outermost sequence. */
  function FinalContents(bags: bytes, mac: bytes): bytes {
    Tlv(Integer, [3]) +
    (Tlv(Sequence, Tlv(ObjectId, OidData) + Tlv(Context, Tlv(OctetString, Tlv(Sequence, bags)))) + mac)
  }

  /** create_final. */
  function Final(lib: Lib, bags: bytes, pw: bytes, salt: bytes): Option<bytes> {
    if |pw| > MaxPassword then None
    else Some(Tlv(Sequence, FinalContents(bags, MacData(lib.mac(salt, pw, Tlv(Sequence, bags)), salt))))
  }

  /** The random salts. */
  datatype Salts = Salts(cert: bytes, key: bytes, mac: bytes)

  /** The certificate as it is put into its bag. */
  function EncryptedCert(lib: Lib, cert: bytes, pw: bytes, salt: bytes): bytes
    requires |lib.sha1(cert)| == 20
  {
    Encipher(lib, Rc2, salt, 2048, pw, Padded(CertSequence(cert, Attributes(lib.sha1(cert)))))
  }

  function BuildCert(lib: Lib, cert: bytes, pw: bytes, salt: bytes): bytes
    requires |lib.sha1(cert)| == 20
  {
    CertBag(EncryptedCert(lib, cert, pw, salt), salt)
  }

  /** The attributes of the key are those of the certificate. */
  function KeyAttributes(lib: Lib, cert: bytes): bytes
    requires |lib.sha1(cert)| == 20
  {
    if cert == [] then [] else Attributes(lib.sha1(cert))
  }

  function BuildKey(lib: Lib, plain: bytes, cert: bytes, pw: bytes, salt: bytes): bytes
    requires |lib.sha1(cert)| == 20
  {
    KeyBag(Encipher(lib, TripleDes, salt, 2048, pw, plain), salt, KeyAttributes(lib, cert))
  }

  /** The bags: the certificate, if there is one, and the key, if there is one. */
  function Bags(lib: Lib, kparms: Option<seq<nat>>, cert: bytes, pw: bytes, salts: Salts): Option<bytes>
    requires |lib.sha1(cert)| == 20
  {
    var first := if cert == [] then [] else BuildCert(lib, cert, pw, salts.cert);
    match kparms
    case None => Some(first)
    case Some(params) =>
      match BuildKeySequence(lib, params)
      case None => None
      case Some(plain) => Some(first + BuildKey(lib, plain, cert, pw, salts.key))
  }

  /** p12_build; an empty certificate stands for none. */
  function Build(lib: Lib, kparms: Option<seq<nat>>, cert: bytes, pw: bytes, salts: Salts): Option<bytes>
    requires |lib.sha1(cert)| == 20
  {
    match Bags(lib, kparms, cert, pw, salts)
    case None => None
    case Some(bags) => Final(lib, bags, pw, salts.mac)
  }

  // ---------------------------------------------------------------------------------
  // Parsing.  The position and the remaining count are what is left of the buffer.

  /** The position n octets further on: s[n..]. */
  function Advance(s: bytes, n: nat): (r: bytes)
    requires n <= |s|
    ensures |r| == |s| - n
  {
    if n == 0 then s else Advance(s[1..], n - 1)
  }

  /** A tag with this number, of any class. */
  function Named(s: bytes, number: nat): (r: Option<(Tag, bytes)>)
    ensures r.Some? ==> r == ParseTag(s) && r.value.0.number == number
  {
    match ParseTag(s)
    case None => None
    case Some((t, rest)) => if t.number != number then None else Some((t, rest))
  }

  /** A tag with this number and of this class. */
  function Expect(s: bytes, cls: nat, number: nat): (r: Option<(Tag, bytes)>)
    ensures r.Some? ==> r == ParseTag(s) && r.value.0.number == number && r.value.0.cls == cls
  {
    match ParseTag(s)
    case None => None
    case Some((t, rest)) => if t.cls != cls || t.number != number then None else Some((t, rest))
  }

  /** The tag is an object identifier with these octets at s. */
  predicate IsOid(t: Tag, s: bytes, oid: bytes) { t.number == 6 && t.length == |oid| && oid <= s }

  /** This object identifier; what follows it. */
  function ReadOid(s: bytes, oid: bytes, anyClass: bool): (r: Option<bytes>)
    ensures r.Some? ==> |r.value| < |s|
  {
    match ParseTag(s)
    case None => None
    case Some((t, rest)) => if IsOid(t, rest, oid) && (anyClass || t.cls == 0) then Some(Advance(rest, |oid|)) else None
  }

  /** An integer of one octet with this value; what follows it. */
  function ReadSmall(s: bytes, value: byte, anyClass: bool): (r: Option<bytes>)
    ensures r.Some? ==> |r.value| < |s|
  {
    match Named(s, 2)
    case None => None
    case Some((t, rest)) => if (anyClass || t.cls == 0) && t.length == 1 && rest[0] == value then Some(rest[1..]) else None
  }

  /** cram_octet_string: the chunks up to the null tag, joined; and what follows. */
  function Cram(s: bytes, acc: bytes): (r: Option<(bytes, bytes)>)
    ensures r.Some? ==> |r.value.1| < |s|
    decreases |s|
  {
    match ParseTag(s)
    case None => None
    case Some((t, rest)) =>
      if t.cls == 0 && t.number == 4 && !t.ndef && !t.constructed then Cram(Advance(rest, t.length), acc + rest[..t.length])
      else if t.cls == 0 && t.number == 0 && !t.constructed then Some((acc, rest))
      else None
  }

  function Iterations(octets: bytes, iter: nat): nat {
    if octets == [] then iter else Iterations(octets[1..], (iter * 256) % 0x1_0000_0000 + octets[0])
  }

  /** Salt and iteration count. */
  function ReadPbeParams(s: bytes): Option<(bytes, nat, bytes)> {
    match Expect(s, 0, 16)
    case None => None
    case Some((_, s1)) =>
      match Expect(s1, 0, 4)
      case None => None
      case Some((t, s2)) =>
        if t.length < 8 || t.length > 20 then None
        else
          match Expect(Advance(s2, t.length), 0, 2)
          case None => None
          case Some((u, s3)) =>
            if u.length == 0 then None
            else Some((s2[..t.length], Iterations(s3[..u.length], 0), Advance(s3, u.length)))
  }

  /** bag_data_p for a key, bag_decrypted_data_p otherwise. */
  predicate Plausible(plain: bytes, key: bool) {
    match Expect(plain, 0, 16)
    case None => false
    case Some((_, rest)) => if key then ReadSmall(rest, 0, false).Some? else ParseTag(rest).Some?
  }

  /** decrypt_block: the password as it is and converted to the other character sets. */
  function Decode(lib: Lib, algo: Algo, salt: bytes, iter: nat, pw: bytes, data: bytes, key: bool, i: nat, last: bytes): bytes
    decreases 16 - i
  {
    if i >= 16 then last
    else
      match if i == 0 then Some(pw) else lib.convert(i, pw)
      case None => Decode(lib, algo, salt, iter, pw, data, key, i + 1, last)
      case Some(candidate) =>
        var plain := Decipher(lib, algo, salt, iter, candidate, data);
        if Plausible(plain, key) then plain else Decode(lib, algo, salt, iter, pw, data, key, i + 1, plain)
  }

  /** The loop over the key parameters; a first one that is 0 is ignored. */
  function ReadIntegers(lib: Lib, s: bytes, len: nat, acc: seq<nat>): (r: Option<(seq<nat>, bytes)>)
    ensures r.Some? ==> |r.value.1| <= |s|
    decreases |s|
  {
    if len == 0 then Some((acc, s))
    else if |acc| >= 9 then None
    else
      match Expect(s, 0, 2)
      case None => None
      case Some((t, rest)) =>
        if len < t.nhdr || len - t.nhdr < t.length then None
        else
          var ignored := acc == [] && t.length == 1 && rest[0] == 0;
          ReadIntegers(lib, Advance(rest, t.length), len - t.nhdr - t.length,
                       if ignored then acc else acc + [lib.scan(rest[..t.length])])
  }

  /** The algorithm of the key, which has to be RSA; what follows it. */
  function ReadKeyAlgorithm(s: bytes): (r: Option<bytes>)
    ensures r.Some? ==> |r.value| < |s|
  {
    match Expect(s, 0, 16)
    case None => None
    case Some((t, s1)) =>
      match Expect(s1, 0, 6)
      case None => None
      case Some((u, s2)) =>
        if t.length < u.nhdr || !IsOid(u, s2, OidRsa) || t.length - u.nhdr < u.length then None
        else
          var len := t.length - u.nhdr - u.length;
          if |s2| - u.length < len then None else Some(Advance(s2, u.length + len))
  }

  function ReadKey(lib: Lib, s: bytes): (r: Option<(seq<nat>, bytes)>)
    ensures r.Some? ==> |r.value.1| <= |s|
  {
    match Expect(s, 0, 16)
    case None => None
    case Some((_, s1)) =>
      match ReadSmall(s1, 0, false)
      case None => None
      case Some(s2) =>
        match ReadKeyAlgorithm(s2)
        case None => None
        case Some(s3) =>
          match Expect(s3, 0, 4)
          case None => None
          case Some((_, s4)) =>
            match Expect(s4, 0, 16)
            case None => None
            case Some((t, s5)) => ReadIntegers(lib, s5, t.length, [])
  }

  // The bag with encrypted data.

  /** An item of the bag and what follows it. */
  datatype Item = Item(cert: Option<bytes>, key: Option<seq<nat>>, rest: bytes)

  function ReadCert(s: bytes): (r: Option<Item>)
    ensures r.Some? ==> |r.value.rest| <= |s|
  {
    match Expect(s, 0, 16)
    case None => None
    case Some((_, s1)) =>
      match ReadOid(s1, OidX509, false)
      case None => None
      case Some(s2) =>
        match Expect(s2, 2, 0)
        case None => None
        case Some((_, s3)) =>
          match Expect(s3, 0, 4)
          case None => None
          case Some((t, s4)) => if t.ndef then None else Some(Item(Some(s4[..t.length]), None, Advance(s4, t.length)))
  }

  /** One pass of the loop over the bag up to the attributes.  A certificate revocation list is
      passed over, and so is a key where one has been found already. */
  function ReadItem(lib: Lib, s: bytes, keyWanted: bool): (r: Option<Item>)
    ensures r.Some? ==> |r.value.rest| < |s|
  {
    match Expect(s, 0, 6)
    case None => None
    case Some((t, s1)) =>
      var cert, crl, key := IsOid(t, s1, OidCertBag), IsOid(t, s1, OidCrlBag), IsOid(t, s1, OidKeyBag);
      if !cert && !crl && !key then None
      else
        match Expect(Advance(s1, t.length), 2, 0)
        case None => None
        case Some((u, s2)) =>
          if crl || (key && !keyWanted) then Some(Item(None, None, Advance(s2, u.length)))
          else if cert then ReadCert(s2)
          else
            match ReadKey(lib, s2)
            case None => None
            case Some((params, rest)) => Some(Item(None, Some(params), rest))
  }

  /** Eight or fewer octets are taken for padding. */
  function DropPadding(s: bytes): (r: bytes)
    ensures |r| <= |s|
  {
    if |s| <= 8 then [] else s
  }

  /** The tag of the next item, behind the optional attributes; nothing left is the end. */
  function NextItem(s: bytes, t: Tag): (r: Option<(Tag, bytes)>)
    ensures r.Some? ==> |r.value.1| <= |s|
  {
    if DropPadding(s) == [] then Some((t, []))
    else
      match ParseTag(s)
      case None => None
      case Some((u, s1)) =>
        if u.cls == 0 && u.number == 16 then Some((u, s1))
        else if u.cls == 0 && u.number == 17 && !u.ndef then
          var s2 := DropPadding(Advance(s1, u.length));
          if s2 == [] then Some((u, [])) else ParseTag(s2)
        else None
  }

  /** What is known so far: the certificates handed back and the key. */
  datatype Parsed = Parsed(key: Option<seq<nat>>, certs: seq<bytes>)

  function With(found: Parsed, item: Item): Parsed {
    Parsed(if item.key.Some? then item.key else found.key,
           if item.cert.Some? then found.certs + [item.cert.value] else found.certs)
  }

  /** The loop over the bag; `true` when it comes to its end. */
  function ReadItems(lib: Lib, s: bytes, t: Tag, keyWanted: bool, found: Parsed): (bool, Parsed)
    decreases |s|
  {
    if s == [] then (true, found)
    else if t.cls != 0 || t.number != 16 then (false, found)
    else
      match ReadItem(lib, s, keyWanted && found.key.None?)
      case None => (false, found)
      case Some(item) =>
        match NextItem(item.rest, t)
        case None => (false, With(found, item))
        case Some((u, rest)) => ReadItems(lib, rest, u, keyWanted, With(found, item))
  }

  /** The start of the bag up to the algorithm. */
  function ReadEncryptedHead(s: bytes): (r: Option<bytes>)
    ensures r.Some? ==> |r.value| <= |s|
  {
    match Expect(s, 2, 0)
    case None => None
    case Some((_, s1)) =>
      match Named(s1, 16)
      case None => None
      case Some((_, s2)) =>
        match ReadSmall(s2, 0, true)
        case None => None
        case Some(s3) =>
          match Named(s3, 16)
          case None => None
          case Some((_, s4)) => ReadOid(s4, OidData, true)
  }

  function ReadAlgorithm(s: bytes): Option<(Algo, bytes, nat, bytes)> {
    match Expect(s, 0, 16)
    case None => None
    case Some((_, s1)) =>
      var rc2, des := ReadOid(s1, OidRc2, false), ReadOid(s1, OidTripleDes, false);
      if rc2.None? && des.None? then None
      else
        match ReadPbeParams(if rc2.Some? then rc2.value else des.value)
        case None => None
        case Some((salt, iter, rest)) => Some((if rc2.Some? then Rc2 else TripleDes, salt, iter, rest))
  }

  /** The encrypted octets, in one piece or in chunks, and what is left behind the header or
      behind the chunks. */
  function ReadCipher(s: bytes): Option<(bytes, bytes)> {
    match Expect(s, 2, 0)
    case None => None
    case Some((t, s1)) =>
      if t.constructed && t.ndef then Cram(s1, [])
      else if t.length == 0 then None
      else Some((s1[..t.length], s1))
  }

  /** The decrypted contents of the bag. */
  function ReadContents(lib: Lib, plain: bytes, keyWanted: bool, certs: seq<bytes>): (bool, Parsed) {
    match Expect(plain, 0, 16)
    case None => (false, Parsed(None, certs))
    case Some((_, s1)) =>
      match ParseTag(s1)
      case None => (false, Parsed(None, certs))
      case Some((t, s2)) => ReadItems(lib, s2, t, keyWanted, Parsed(None, certs))
  }

  /** The octets from s up to the later position `rest`. */
  function Consumed(s: bytes, rest: bytes): nat { if |rest| <= |s| then |s| - |rest| else 0 }

  /** Success, what was found, and the number of octets consumed. */
  datatype Bag = Bag(ok: bool, found: Parsed, consumed: nat)

  /** parse_bag_encrypted_data. */
  function ReadEncryptedData(lib: Lib, s: bytes, pw: bytes, keyWanted: bool, certs: seq<bytes>): Bag {
    var none := Bag(false, Parsed(None, certs), 0);
    match ReadEncryptedHead(s)
    case None => none
    case Some(s1) =>
      match ReadAlgorithm(s1)
      case None => none
      case Some((algo, salt, iter, s2)) =>
        match ReadCipher(s2)
        case None => none
        case Some((data, rest)) =>
          var (ok, found) := ReadContents(lib, Decode(lib, algo, salt, iter, pw, data, false, 0, []), keyWanted, certs);
          Bag(ok, found, Consumed(s, rest))
  }

  // The bag with a shrouded key.

  function ReadShroudedHead(s: bytes): Option<bytes> {
    match Expect(s, 0, 16)
    case None => None
    case Some((_, s1)) =>
      match Expect(s1, 0, 16)
      case None => None
      case Some((_, s2)) =>
        match ReadOid(s2, OidShroudedKeyBag, false)
        case None => None
        case Some(s3) =>
          match Expect(s3, 2, 0)
          case None => None
          case Some((_, s4)) =>
            match Expect(s4, 0, 16)
            case None => None
            case Some((_, s5)) => Some(s5)
  }

  /** Salt, iteration count, the encrypted key, and the position of that. */
  function ReadShrouded(s: bytes): Option<(bytes, nat, bytes, bytes)> {
    match Expect(s, 0, 16)
    case None => None
    case Some((_, s1)) =>
      match ReadOid(s1, OidTripleDes, false)
      case None => None
      case Some(s2) =>
        match ReadPbeParams(s2)
        case None => None
        case Some((salt, iter, s3)) =>
          match Expect(s3, 0, 4)
          case None => None
          case Some((t, s4)) => if t.length == 0 then None else Some((salt, iter, s4[..t.length], s4))
  }

  function ReadShroudedBag(s: bytes): Option<(bytes, nat, bytes, bytes)> {
    match ReadShroudedHead(s)
    case None => None
    case Some(s1) => ReadShrouded(s1)
  }

  /** The octet string around the bag: its contents, and, where they came in chunks, what is left
      behind them. */
  function ReadWrapped(s: bytes): Option<(bytes, Option<bytes>)> {
    match Expect(s, 2, 0)
    case None => None
    case Some((_, s1)) =>
      match Expect(s1, 0, 4)
      case None => None
      case Some((t, s2)) =>
        if t.constructed && t.ndef then
          match Cram(s2, [])
          case None => None
          case Some((data, rest)) => Some((data, Some(rest)))
        else Some((s2, None))
  }

  /** The decrypted key. */
  function OpenKey(lib: Lib, pw: bytes, salt: bytes, iter: nat, data: bytes): Option<(seq<nat>, bytes)> {
    ReadKey(lib, Decode(lib, TripleDes, salt, iter, pw, data, true, 0, []))
  }

  /** The key of a bag with the number of octets consumed. */
  function Counted(key: Option<(seq<nat>, bytes)>, consumed: nat): Option<(seq<nat>, nat)> {
    match key
    case None => None
    case Some((params, _)) => Some((params, consumed))
  }

  function BagKey(lib: Lib, pw: bytes, bag: Option<(bytes, nat, bytes, bytes)>): Option<(seq<nat>, bytes)> {
    if bag.None? then None else OpenKey(lib, pw, bag.value.0, bag.value.1, bag.value.2)
  }

  function BagConsumed(s: bytes, s1: bytes, crammed: Option<bytes>, bag: Option<(bytes, nat, bytes, bytes)>): nat {
    if bag.None? then 0
    else if crammed.Some? then Consumed(s, crammed.value)
    else Consumed(s, s1) + Consumed(s, bag.value.3) + |bag.value.2|
  }

  /** parse_bag_data. */
  function ReadData(lib: Lib, s: bytes, pw: bytes): Option<(seq<nat>, nat)> {
    match ReadWrapped(s)
    case None => None
    case Some((s1, crammed)) =>
      var bag := ReadShroudedBag(s1);
      Counted(BagKey(lib, pw, bag), BagConsumed(s, s1, crammed, bag))
  }

  // The file.

  /** What comes of one bag: it is passed over, or its contents have been read, with the number
      of octets consumed. */
  datatype Contents = Skipped | Read(ok: bool, found: Parsed, consumed: nat)

  /** A key that was there already stays. */
  function FromBag(bag: Bag, found: Parsed): Contents {
    Read(bag.ok, Parsed(if found.key.Some? then found.key else bag.found.key, bag.found.certs), bag.consumed)
  }

  function FromKey(key: Option<(seq<nat>, nat)>, found: Parsed): Contents {
    match key
    case None => Read(false, found, 0)
    case Some((params, consumed)) => Read(true, Parsed(Some(params), found.certs), consumed)
  }

  /** A bag whose object identifier has been read into t; s is the position of its octets. */
  function ReadBag(lib: Lib, pw: bytes, t: Tag, s: bytes, found: Parsed): Contents {
    if IsOid(t, s, OidEncryptedData) then
      FromBag(ReadEncryptedData(lib, Advance(s, |OidEncryptedData|), pw, found.key.None?, found.certs), found)
    else if IsOid(t, s, OidData) && found.key.None? then
      FromKey(ReadData(lib, Advance(s, |OidData|), pw), found)
    else Skipped
  }

  function Reader(lib: Lib, pw: bytes): (Tag, bytes, Parsed) -> Contents {
    (t: Tag, s: bytes, found: Parsed) => ReadBag(lib, pw, t, s, found)
  }

  /** Over the rest of a bag, and over the null tag that ends one of indefinite length. */
  function SkipBag(s: bytes, len: int, ndef: bool): (r: Option<bytes>)
    ensures r.Some? ==> |r.value| <= |s|
  {
    if len < 0 || len > |s| then None
    else if !ndef then Some(Advance(s, len))
    else
      match ParseTag(Advance(s, len))
      case None => None
      case Some((t, rest)) => if t.cls == 0 && t.number == 0 && !t.constructed then Some(rest) else None
  }

  /** On failure there is no key, but the certificates have been handed back. */
  function Failed(found: Parsed): Parsed { Parsed(None, found.certs) }

  /** The start of a bag: the tag of its sequence, the tag of its object identifier, and the
      position behind that; or the end of the bags, or an error. */
  datatype Start = End | Bad | Start(t: Tag, u: Tag, s: bytes)

  function BagStart(s: bytes, left: nat, ndef: bool): (r: Start)
    ensures r.Start? ==> |r.s| < |s| && r.u.length <= |r.s| && (!ndef ==> r.t.nhdr + r.t.length <= left)
  {
    match ParseTag(s)
    case None => Bad
    case Some((t, s1)) =>
      if ndef && t.cls == 0 && t.number == 0 && !t.constructed then End
      else if t.cls != 0 || t.number != 16 || (!ndef && (left < t.nhdr || left - t.nhdr < t.length)) then Bad
      else
        match ParseTag(s1)
        case None => Bad
        case Some((u, s2)) => Start(t, u, s2)
  }

  /** The position behind a bag.  Where it was passed over, the position has moved by its object
      identifier while the length stays. */
  function BagEnd(b: Start, r: Contents): (rest: Option<bytes>)
    requires b.Start? && b.u.length <= |b.s|
    ensures rest.Some? ==> |rest.value| <= |b.s|
  {
    var len := if b.t.ndef then b.u.nhdr else b.t.length - b.u.nhdr;
    SkipBag(Advance(b.s, b.u.length),
            if r.Skipped? then len else if b.t.ndef then len + r.consumed else len - b.u.length,
            b.t.ndef)
  }

  /** The loop over the bags, with a reader for the contents of one. */
  function ReadBags(read: (Tag, bytes, Parsed) -> Contents, s: bytes, left: nat, ndef: bool, found: Parsed): Parsed
    decreases |s|
  {
    if left == 0 && !ndef then found
    else
      match BagStart(s, left, ndef)
      case End => found
      case Bad => Failed(found)
      case Start(t, u, s2) =>
        var r := read(u, s2, found);
        var found' := if r.Read? then r.found else found;
        if r.Read? && !r.ok then Failed(found')
        else
          match BagEnd(Start(t, u, s2), r)
          case None => Failed(found')
          case Some(rest) => ReadBags(read, rest, if ndef then 0 else left - t.nhdr - t.length, ndef, found')
  }

  /** The start of the file up to the contents of the octet string. */
  function ReadHead(s: bytes): Option<bytes> {
    match Named(s, 16)
    case None => None
    case Some((_, s1)) =>
      match ReadSmall(s1, 3, true)
      case None => None
      case Some(s2) =>
        match Named(s2, 16)
        case None => None
        case Some((_, s3)) => ReadOid(s3, OidData, true)
  }

  /** The sequence of bags: where its contents start, its length, and whether that is
      indefinite. */
  function ReadFile(s: bytes): Option<(bytes, nat, bool)> {
    match ReadHead(s)
    case None => None
    case Some(s1) =>
      match ReadWrapped(s1)
      case None => None
      case Some((s2, _)) =>
        match Expect(s2, 0, 16)
        case None => None
        case Some((t, s3)) => Some((s3, t.length, t.ndef))
  }

  /** The file, with a reader for the contents of one bag. */
  function ParseWith(read: (Tag, bytes, Parsed) -> Contents, s: bytes): Parsed {
    match ReadFile(s)
    case None => Parsed(None, [])
    case Some((bags, left, ndef)) => ReadBags(read, bags, left, ndef, Parsed(None, []))
  }

  /** p12_parse. */
  function Parse(lib: Lib, s: bytes, pw: bytes): Parsed { ParseWith(Reader(lib, pw), s) }
}
