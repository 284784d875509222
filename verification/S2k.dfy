/** hash_passphrase of cns/gnupg-2.0.22/agent/protect.c: a passphrase is made into a key. */
module S2k {
  import opened Wrappers
  import opened Octets
  import opened Powers

  /** The first n bytes of the endless repetition of `unit`. */
  function Repeated(unit: string, n: nat): (r: string)
    ensures unit != "" ==> |r| == n
  {
    if unit == "" then "" else seq(n, i requires 0 <= i < n => unit[i % |unit|])
  }

  function Max(a: nat, b: nat): nat { if a < b then b else a }

  /** What is hashed in pass number `pass`: section 3.7.1 of RFC 4880. */
  function Stream(mode: int, salt: string, count: nat, passphrase: string, pass: nat): string {
    Nuls(pass) +
    (if mode == 3 then Repeated(salt + passphrase, Max(count, 8 + |passphrase|))
     else if mode == 1 then salt + passphrase
     else passphrase)
  }

  /** Byte j of the key is a byte of the digest of pass j / dlen. */
  function KeyByte(hash: string -> string, dlen: nat, mode: int, salt: string, count: nat, passphrase: string, j: nat): char
    requires dlen > 0
  {
    var digest := hash(Stream(mode, salt, count, passphrase, j / dlen));
    if j % dlen < |digest| then digest[j % dlen] else '\0'
  }

  function Key(hash: string -> string, dlen: nat, mode: int, salt: string, count: nat, passphrase: string, keylen: nat): (key: string)
    requires dlen > 0
    ensures |key| == keylen
  {
    seq(keylen, j requires 0 <= j < keylen => KeyByte(hash, dlen, mode, salt, count, passphrase, j))
  }

  // ---------------------------------------------------------------------------------
  // The key as a whole: section 3.7.1 of RFC 4880.

  /** The digests of as many passes, each with one more zero in front of what is hashed. */
  function Digests(hash: string -> string, text: string, passes: nat): string {
    if passes == 0 then "" else Digests(hash, text, passes - 1) + hash(Nuls(passes - 1) + text)
  }

  lemma OneMore(passes: nat, dlen: nat)
    ensures (passes + 1) * dlen == passes * dlen + dlen
  {
  }

  lemma {:induction false} DigestsLength(hash: string -> string, dlen: nat, text: string, passes: nat)
    requires forall x :: |hash(x)| == dlen
    ensures |Digests(hash, text, passes)| == passes * dlen
  {
    if passes > 0 {
      DigestsLength(hash, dlen, text, passes - 1);
      OneMore(passes - 1, dlen);
    }
  }

  lemma {:induction false} DigestAt(hash: string -> string, dlen: nat, text: string, passes: nat, q: nat, r: nat, j: nat)
    requires (forall x :: |hash(x)| == dlen) && q < passes && r < dlen && j == q * dlen + r
    ensures j < |Digests(hash, text, passes)| && Digests(hash, text, passes)[j] == hash(Nuls(q) + text)[r]
  {
    DigestsLength(hash, dlen, text, passes - 1);
    if q < passes - 1 {
      DigestAt(hash, dlen, text, passes - 1, q, r, j);
    }
  }

  /** What is hashed: the passphrase alone, with the salt in front, or both over and over. */
  lemma Texts(mode: int, salt: string, count: nat, passphrase: string, pass: nat)
    requires |salt| == 8
    ensures Stream(mode, salt, count, passphrase, pass) == Nuls(pass) + Stream(mode, salt, count, passphrase, 0)
    ensures Stream(0, salt, count, passphrase, 0) == passphrase
    ensures Stream(1, salt, count, passphrase, 0) == salt + passphrase
    ensures count <= 8 + |passphrase| ==> Stream(3, salt, count, passphrase, 0) == salt + passphrase
  {
    RepeatedMore(salt + passphrase, 0, 8 + |passphrase|);
    assert Repeated(salt + passphrase, 8 + |passphrase|) == salt + passphrase;
    assert forall s: string :: Nuls(0) + s == s;
  }

  lemma Quotient(j: nat, dlen: nat, passes: nat) returns (q: nat, r: nat)
    requires dlen > 0 && j < passes * dlen
    ensures q == j / dlen < passes && r == j % dlen && j == q * dlen + r
  {
    q, r := j / dlen, j % dlen;
    if q >= passes {
      MulMonotone(passes, q, dlen);
    }
  }

  lemma KeyByteIs(hash: string -> string, dlen: nat, mode: int, salt: string, count: nat, passphrase: string, j: nat, q: nat, r: nat)
    requires (forall x :: |hash(x)| == dlen) && |salt| == 8 && dlen > 0 && q == j / dlen && r == j % dlen
    ensures r < dlen && KeyByte(hash, dlen, mode, salt, count, passphrase, j) == hash(Nuls(q) + Stream(mode, salt, count, passphrase, 0))[r]
  {
    Texts(mode, salt, count, passphrase, q);
  }

  /** A key is the start of the digests of enough passes. */
  lemma KeyIsDigests(hash: string -> string, dlen: nat, mode: int, salt: string, count: nat, passphrase: string, passes: nat, keylen: nat)
    requires dlen > 0 && (forall x :: |hash(x)| == dlen) && |salt| == 8 && keylen <= passes * dlen
    ensures var all := Digests(hash, Stream(mode, salt, count, passphrase, 0), passes);
            keylen <= |all| && Key(hash, dlen, mode, salt, count, passphrase, keylen) == all[..keylen]
  {
    var text := Stream(mode, salt, count, passphrase, 0);
    var all, key := Digests(hash, text, passes), Key(hash, dlen, mode, salt, count, passphrase, keylen);
    DigestsLength(hash, dlen, text, passes);
    forall j | 0 <= j < keylen ensures key[j] == all[j] {
      var q, r := Quotient(j, dlen, passes);
      DigestAt(hash, dlen, text, passes, q, r, j);
      KeyByteIs(hash, dlen, mode, salt, count, passphrase, j, q, r);
    }
  }

  /** Going on from a multiple of u. */
  lemma FromMultiple(n: nat, u: nat, i: nat)
    requires i < u && n % u == 0
    ensures (n + i) % u == i && (n + i) / u == n / u
  {
    DivModUnique(n + i, u, n / u, i);
  }

  lemma NextMultiple(n: nat, u: nat)
    requires u > 0 && n % u == 0
    ensures (n + u) % u == 0 && (n + u) / u == n / u + 1
  {
    DivModUnique(n + u, u, n / u + 1, 0);
  }

  /** Another k bytes behind whole units. */
  lemma RepeatedMore(unit: string, n: nat, k: nat)
    requires unit != "" && k <= |unit| && n % |unit| == 0
    ensures Repeated(unit, n + k) == Repeated(unit, n) + unit[..k]
  {
    var all := Repeated(unit, n + k);
    forall i | n <= i < n + k ensures all[i] == unit[i - n] {
      FromMultiple(n, |unit|, i - n);
    }
  }

  /** The same for what has been written: first the salt, then the passphrase. */
  lemma OneMoreUnit(start: string, salt: string, passphrase: string, n: nat, k: nat)
    requires |salt| == 8 && k <= 8 + |passphrase| && n % (8 + |passphrase|) == 0
    ensures var unit := salt + passphrase;
            start + Repeated(unit, n + k) ==
              if k < 8 then (start + Repeated(unit, n)) + salt[..k]
              else ((start + Repeated(unit, n)) + salt) + passphrase[..k - 8]
    ensures passphrase[..|passphrase|] == passphrase
  {
    var unit := salt + passphrase;
    RepeatedMore(unit, n, k);
    if k >= 8 {
      assert unit[..k] == salt + passphrase[..k - 8];
    } else {
      assert unit[..k] == salt[..k];
    }
  }

  /** The salt and the passphrase over and over, `total` bytes of them. */
  method WriteSalted(start: string, salt: string, passphrase: string, total: nat) returns (md: string)
    requires |salt| == 8 && total > 0
    ensures md == start + Repeated(salt + passphrase, total)
  {
    md := start;
    var len2, count := |passphrase| + 8, total;
    ghost var unit, done := salt + passphrase, 0;
    while count > len2
      invariant 0 < count && done >= 0 && total == done + count && done % len2 == 0
      invariant md == start + Repeated(unit, done)
    {
      md := md + salt;
      md := md + passphrase;
      count := count - len2;
      OneMoreUnit(start, salt, passphrase, done, len2);
      NextMultiple(done, len2);
      done := done + len2;
    }
    OneMoreUnit(start, salt, passphrase, done, count);
    if count < 8 {
      md := md + salt[..count];
    } else {
      md := md + salt;
      md := md + passphrase[..count - 8];
    }
  }

  /** Everything that is written to the hash context in one pass. */
  method WritePass(mode: int, salt: string, s2kcount: nat, passphrase: string, pass: nat) returns (md: string)
    requires |salt| == 8 && (mode == 0 || mode == 1 || mode == 3)
    ensures md == Stream(mode, salt, s2kcount, passphrase, pass)
  {
    md := "";
    var i := 0;
    while i < pass
      invariant 0 <= i <= pass && md == Nuls(i)
    {
      md := md + ['\0'];
      i := i + 1;
    }
    if mode == 1 || mode == 3 {
      var len2 := |passphrase| + 8;
      var count := len2;
      if mode == 3 {
        count := s2kcount;
        if count < len2 {
          count := len2;
        }
      }
      RepeatedMore(salt + passphrase, 0, len2);
      assert Repeated(salt + passphrase, len2) == salt + passphrase;
      md := WriteSalted(md, salt, passphrase, count);
    } else {
      md := md + passphrase;
    }
  }

  /** The key buffer is filled pass by pass; `false` stands for GPG_ERR_INV_VALUE. */
  method HashPassphrase(passphrase: string, hash: string -> string, dlen: nat, mode: int, salt: Option<string>,
                        s2kcount: nat, key: array<char>) returns (ok: bool)
    requires dlen > 0 && forall x :: |hash(x)| == dlen
    requires salt.Some? ==> |salt.value| == 8
    modifies key
    ensures ok <==> (mode == 0 || mode == 1 || mode == 3) && key.Length > 0 && (mode == 0 || salt.Some?)
    ensures !ok ==> key[..] == old(key[..])
    ensures ok ==> key[..] == Key(hash, dlen, mode, if salt.Some? then salt.value else Nuls(8), s2kcount, passphrase, key.Length)
  {
    if (mode != 0 && mode != 1 && mode != 3) || key.Length == 0 || (mode != 0 && salt.None?) {
      return false;
    }
    var pepper := if salt.Some? then salt.value else Nuls(8);
    var used, pass := 0, 0;
    while used < key.Length
      invariant 0 <= used <= key.Length && pass >= 0
      invariant used < key.Length ==> used % dlen == 0 && used / dlen == pass
      invariant forall j | 0 <= j < used :: key[j] == KeyByte(hash, dlen, mode, pepper, s2kcount, passphrase, j)
    {
      var md := WritePass(mode, pepper, s2kcount, passphrase, pass);
      var i := dlen;
      if i > key.Length - used {
        i := key.Length - used;
      }
      var digest := hash(md);
      FillKey(key, used, digest[..i]);
      forall j | used <= j < used + i
        ensures key[j] == KeyByte(hash, dlen, mode, pepper, s2kcount, passphrase, j)
      {
        FromMultiple(used, dlen, j - used);
      }
      NextMultiple(used, dlen);
      used := used + i;
      pass := pass + 1;
    }
    ok := true;
  }

  /** memcpy into the key. */
  method FillKey(key: array<char>, used: nat, data: string)
    requires used + |data| <= key.Length
    modifies key
    ensures forall j | 0 <= j < used :: key[j] == old(key[j])
    ensures forall j | used <= j < used + |data| :: key[j] == data[j - used]
  {
    var i := 0;
    while i < |data|
      invariant 0 <= i <= |data|
      invariant forall j | 0 <= j < used :: key[j] == old(key[j])
      invariant forall j | used <= j < used + i :: key[j] == data[j - used]
    {
      key[used + i] := data[i];
      i := i + 1;
    }
  }
}
