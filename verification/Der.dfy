/** Tags and lengths of DER in cns/gnupg-2.0.22/agent/minip12.c; section 8.1 of X.690. */
module Der {
  import opened Wrappers
  import opened Octets

  /** class, constructed, number, length of the contents, size of the header, and whether the
      length is indefinite. */
  datatype Tag = Tag(cls: nat, constructed: bool, number: nat, length: nat, nhdr: nat, ndef: bool)

  const Word: nat := 0x1_0000_0000_0000_0000   // unsigned long

  const Integer: byte := 0x02
  const OctetString: byte := 0x04
  const ObjectId: byte := 0x06
  const Sequence: byte := 0x30
  const SetOf: byte := 0x31
  const Context: byte := 0xa0
  const Implicit: byte := 0x80

  // ---------------------------------------------------------------------------------
  // Reading.  A pointer with its remaining count is what is left of the buffer.

  /** The octets of a tag number above 30. */
  function LongTag(s: bytes, tag: nat): (r: Option<(nat, bytes)>)
    ensures r.Some? ==> |r.value.1| < |s|
    decreases |s|
  {
    if s == [] then None
    else
      var next := (tag * 128) % Word + s[0] % 128;
      if s[0] < 128 then Some((next, s[1..])) else LongTag(s[1..], next)
  }

  function LengthOctets(s: bytes, count: nat, len: nat): (r: Option<(nat, bytes)>)
    ensures r.Some? ==> |r.value.1| <= |s|
  {
    if count == 0 then Some((len, s))
    else if s == [] then None
    else LengthOctets(s[1..], count - 1, (len * 256) % Word + s[0])
  }

  /** The length part; `true` stands for an indefinite length. */
  function ParseLength(s: bytes): (r: Option<(nat, bool, bytes)>)
    ensures r.Some? ==> |r.value.2| < |s|
  {
    if s == [] then None
    else if s[0] < 128 then Some((s[0], false, s[1..]))
    else if s[0] == 0x80 then Some((0, true, s[1..]))
    else if s[0] == 0xff then None
    else
      match LengthOctets(s[1..], s[0] - 128, 0)
      case None => None
      case Some((len, rest)) => Some((len, false, rest))
  }

  /** parse_tag: the tag and what follows its header, which holds the whole contents. */
  function ParseTag(s: bytes): (r: Option<(Tag, bytes)>)
    ensures r.Some? ==> |r.value.1| + 1 < |s| && r.value.0.length <= |r.value.1|
    ensures r.Some? ==> r.value.0.nhdr == |s| - |r.value.1|
  {
    if s == [] then None
    else
      match if s[0] % 32 == 31 then LongTag(s[1..], 0) else Some((s[0] % 32, s[1..]))
      case None => None
      case Some((number, s1)) =>
        match ParseLength(s1)
        case None => None
        case Some((len, ndef, rest)) =>
          var cls := s[0] / 64;
          var length := if cls == 0 && number == 0 then 0 else len;
          if length > |rest| then None
          else Some((Tag(cls, s[0] / 32 % 2 == 1, number, length, |s| - |rest|, ndef), rest))
  }

  // ---------------------------------------------------------------------------------
  // Writing.

  /** compute_tag_length; 0 where the object is too large. */
  function ComputeTagLength(n: nat): (r: nat) {
    if n < 128 then 2 else if n < 256 then 3 else if n < 65536 then 4 else 0
  }

  /** The octets of store_tag_length. */
  function Header(tag: byte, n: nat): bytes {
    if n < 128 then [tag, n]
    else if n < 256 then [tag, 0x81, n]
    else if n < 65536 then [tag, 0x82, n / 256, n % 256]
    else [tag]
  }

  /** A tag, the length and the contents. */
  function Tlv(tag: byte, contents: bytes): bytes { Header(tag, |contents|) + contents }

  // ---------------------------------------------------------------------------------
  // What is written is read back.

  lemma Join(a: bytes, b: bytes, c: bytes)
    ensures (a + b) + c == a + (b + c)
  {
  }

  lemma NothingBehind(s: bytes)
    ensures s + [] == s
  {
  }

  lemma NothingInFront(s: bytes)
    ensures [] + s == s
  {
  }

  /** The size that is computed is the size that is written, exactly for lengths below 65536. */
  lemma HeaderLength(tag: byte, n: nat)
    ensures |Header(tag, n)| == ComputeTagLength(n) <==> n < 65536
    ensures ComputeTagLength(n) == 0 <==> n >= 65536
  {
  }

  lemma LengthReads(tag: byte, n: nat, rest: bytes)
    requires n < 65536
    ensures ParseLength((Header(tag, n) + rest)[1..]) == Some((n, false, rest))
  {
    var s := Header(tag, n) + rest;
    if n < 128 {
      assert s[1..][1..] == rest;
    } else if n < 256 {
      assert s[1..][1..] == [n as byte] + rest;
      OctetsRead1(n, rest);
    } else {
      assert s[1..][1..] == [(n / 256) as byte, (n % 256) as byte] + rest;
      OctetsRead2(n / 256, n % 256, rest);
    }
  }

  lemma OctetsRead1(a: byte, rest: bytes)
    ensures LengthOctets([a] + rest, 1, 0) == Some((a, rest))
  {
    assert ([a] + rest)[1..] == rest;
  }

  lemma OctetsRead2(a: byte, b: byte, rest: bytes)
    ensures LengthOctets([a, b] + rest, 2, 0) == Some((a * 256 + b, rest))
  {
    assert ([a, b] + rest)[1..] == [b] + rest;
    assert ([b] + rest)[1..] == rest;
    assert LengthOctets([b] + rest, 1, a) == Some((a * 256 + b, rest));
  }

  /** The tag that a header with this first octet gives. */
  function TagOf(tag: byte, n: nat): Tag {
    Tag(tag / 64, tag / 32 % 2 == 1, tag % 32, n, ComputeTagLength(n), false)
  }

  predicate Short(tag: byte) { tag % 32 != 31 && (tag / 64 != 0 || tag % 32 != 0) }

  /** parse_tag reads back what store_tag_length writes, for all lengths below 65536. */
  lemma HeaderReads(tag: byte, n: nat, rest: bytes)
    requires Short(tag) && n < 65536 && n <= |rest|
    ensures ParseTag(Header(tag, n) + rest) == Some((TagOf(tag, n), rest))
  {
    LengthReads(tag, n, rest);
    HeaderLength(tag, n);
  }

  /** The same for a whole object, with something behind it. */
  lemma TlvReads(tag: byte, contents: bytes, tail: bytes)
    requires Short(tag) && |contents| < 65536
    ensures ParseTag(Tlv(tag, contents) + tail) == Some((TagOf(tag, |contents|), contents + tail))
  {
    Join(Header(tag, |contents|), contents, tail);
    HeaderReads(tag, |contents|, contents + tail);
  }

  /** The length of a header and its contents. */
  function Wrapped(n: nat): nat { n + ComputeTagLength(n) }

  lemma TlvLength(tag: byte, contents: bytes)
    ensures |contents| < |Tlv(tag, contents)| <= |contents| + 4
    ensures |contents| < 65536 ==> |Tlv(tag, contents)| == Wrapped(|contents|)
  {
  }
}

/** parse_tag on any header: sections 8.1.2 and 8.1.3 of X.690. */
module DerReading {
  import opened Wrappers
  import opened Octets
  import opened Powers
  import opened Der

  /** A digit shifted into a word of base * top values. */
  lemma ShiftedIn(n: nat, x: nat, base: nat, top: nat)
    requires x < base && top > 0
    ensures base * top > 0 && (n % (base * top) * base) % (base * top) + x == (n * base + x) % (base * top)
  {
    var m := base * top;
    MulMonotone(1, top, base);
    var q, r := n / m, n % m;
    var r1, r2 := r / top, r % top;
    assert r == top * r1 + r2;
    assert r * base == r1 * m + r2 * base by {
      Distributes(top * r1, r2, base);
      Swapped(top, r1, base);
    }
    SmallRest(r2, top, base, x);
    DivModUnique(r * base, m, r1, r2 * base);
    assert n * base + x == (q * base + r1) * m + (r2 * base + x) by {
      Distributes(q * m, r, base);
      Distributes(q * base, r1, m);
      Swapped(q, m, base);
    }
    DivModUnique(n * base + x, m, q * base + r1, r2 * base + x);
  }

  lemma Distributes(a: int, b: int, c: int)
    ensures (a + b) * c == a * c + b * c
  {
  }

  lemma Swapped(a: int, b: int, c: int)
    ensures (a * b) * c == b * (c * a) && (a * b) * c == (a * c) * b
  {
  }

  lemma SmallRest(r: nat, top: nat, base: nat, x: nat)
    requires r < top && x < base
    ensures r * base < base * top && r * base + x < base * top
  {
    MulMonotone(r + 1, top, base);
    Distributes(r, 1, base);
  }

  // ---------------------------------------------------------------------------------
  // The length.

  lemma {:induction false} OctetsSnoc(octets: bytes, x: byte, rest: bytes, len: nat, n: nat)
    requires LengthOctets(octets + ([x] + rest), |octets|, len) == Some((n, [x] + rest))
    ensures LengthOctets((octets + [x]) + rest, |octets| + 1, len) == Some(((n * 256) % Word + x, rest))
  {
    assert (octets + [x]) + rest == octets + ([x] + rest);
    if octets == [] {
      assert octets + ([x] + rest) == [x] + rest;
      assert ([x] + rest)[1..] == rest;
    } else {
      var s := octets + ([x] + rest);
      assert s[0] == octets[0] && s[1..] == octets[1..] + ([x] + rest);
      assert (octets[1..] + [x]) + rest == octets[1..] + ([x] + rest);
      OctetsSnoc(octets[1..], x, rest, (len * 256) % Word + octets[0], n);
    }
  }

  /** Any length octets are read as a number modulo 2^64. */
  lemma {:induction false} OctetsRead(octets: bytes, rest: bytes)
    ensures LengthOctets(octets + rest, |octets|, 0) == Some((Number(octets) % Word, rest))
  {
    if octets == [] {
      assert octets + rest == rest;
    } else {
      var pre, x := octets[..|octets| - 1], octets[|octets| - 1];
      OctetsRead(pre, [x] + rest);
      OctetsSnoc(pre, x, rest, 0, Number(pre) % Word);
      assert pre + [x] == octets;
      ShiftedIn(Number(pre), x, 256, 0x100_0000_0000_0000);
    }
  }

  lemma LongLength(octets: bytes, rest: bytes)
    requires 1 <= |octets| <= 126
    ensures ParseLength([128 + |octets|] + (octets + rest)) == Some((Number(octets) % Word, false, rest))
  {
    var s := [128 + |octets|] + (octets + rest);
    assert s[0] == 128 + |octets| && s[1..] == octets + rest;
    OctetsRead(octets, rest);
  }

  lemma {:induction false} Truncated(s: bytes, count: nat, len: nat)
    requires |s| < count
    ensures LengthOctets(s, count, len) == None
  {
    if s != [] {
      Truncated(s[1..], count - 1, (len * 256) % Word + s[0]);
    }
  }

  /** The length part, by its first octet: short, indefinite, reserved, or that many octets. */
  lemma LengthJudged(first: byte, s: bytes)
    ensures ParseLength([]) == None
    ensures ParseLength([first] + s) ==
              if first < 128 then Some((first, false, s))
              else if first == 128 then Some((0, true, s))
              else if first == 255 || |s| < first - 128 then None
              else Some((Number(s[..first - 128]) % Word, false, s[first - 128..]))
  {
    var all := [first] + s;
    assert all[0] == first && all[1..] == s;
    if 128 < first < 255 {
      if |s| < first - 128 {
        Truncated(s, first - 128, 0);
      } else {
        var octets := s[..first - 128];
        assert s == octets + s[first - 128..];
        LongLength(octets, s[first - 128..]);
      }
    }
  }

  // ---------------------------------------------------------------------------------
  // The identifier.

  /** The septets of a tag number above 30; all octets but the last have the top bit set. */
  function TagOctets(septets: seq<nat>): bytes
    requires forall i | 0 <= i < |septets| :: septets[i] < 128
  {
    if septets == [] then []
    else if |septets| == 1 then [septets[0]]
    else [128 + septets[0]] + TagOctets(septets[1..])
  }

  function Septets(septets: seq<nat>): nat {
    if septets == [] then 0 else Septets(septets[..|septets| - 1]) * 128 + septets[|septets| - 1]
  }

  /** The value from a start on. */
  function Folded(septets: seq<nat>, start: nat): nat {
    if septets == [] then start else Folded(septets[1..], (start * 128) % Word + septets[0])
  }

  lemma {:induction false} FoldedSnoc(septets: seq<nat>, x: nat, start: nat)
    ensures Folded(septets + [x], start) == (Folded(septets, start) * 128) % Word + x
  {
    if septets == [] {
      assert septets + [x] == [x] && [x][1..] == [];
    } else {
      assert (septets + [x])[0] == septets[0] && (septets + [x])[1..] == septets[1..] + [x];
      FoldedSnoc(septets[1..], x, (start * 128) % Word + septets[0]);
    }
  }

  lemma {:induction false} FoldedIs(septets: seq<nat>)
    requires forall i | 0 <= i < |septets| :: septets[i] < 128
    ensures Folded(septets, 0) == Septets(septets) % Word
  {
    if septets != [] {
      var pre, x := septets[..|septets| - 1], septets[|septets| - 1];
      FoldedIs(pre);
      FoldedSnoc(pre, x, 0);
      assert pre + [x] == septets;
      ShiftedIn(Septets(pre), x, 128, 0x200_0000_0000_0000);
    }
  }

  lemma TagLast(x: nat, rest: bytes, start: nat)
    requires x < 128
    ensures LongTag([x] + rest, start) == Some(((start * 128) % Word + x, rest))
  {
    assert ([x] + rest)[0] == x && ([x] + rest)[1..] == rest;
  }

  lemma TagMore(x: nat, rest: bytes, start: nat)
    requires x < 128
    ensures LongTag([128 + x] + rest, start) == LongTag(rest, (start * 128) % Word + x)
  {
    assert ([128 + x] + rest)[0] == 128 + x && ([128 + x] + rest)[1..] == rest;
  }

  lemma {:induction false} LongTagRead(septets: seq<nat>, rest: bytes, start: nat)
    requires septets != [] && forall i | 0 <= i < |septets| :: septets[i] < 128
    ensures LongTag(TagOctets(septets) + rest, start) == Some((Folded(septets, start), rest))
    decreases |septets|
  {
    var x := septets[0];
    if |septets| == 1 {
      TagLast(x, rest, start);
      assert septets[1..] == [];
    } else {
      assert ([128 + x] + TagOctets(septets[1..])) + rest == [128 + x] + (TagOctets(septets[1..]) + rest);
      TagMore(x, TagOctets(septets[1..]) + rest, start);
      LongTagRead(septets[1..], rest, (start * 128) % Word + x);
    }
  }

  /** parse_tag behind the identifier: the length part decides, and the contents have to be there,
      except that a null tag has none. */
  function Judged(first: byte, number: nat, idlen: nat, length: Option<(nat, bool, bytes)>, lenlen: nat): Option<(Tag, bytes)> {
    match length
    case None => None
    case Some((len, ndef, rest)) =>
      var n := if first < 64 && number == 0 then 0 else len;
      if n > |rest| then None else Some((Tag(first / 64, first / 32 % 2 == 1, number, n, idlen + lenlen, ndef), rest))
  }

  /** An identifier of one octet, with any length part behind it. */
  lemma ShortTagJudged(first: byte, s: bytes, length: Option<(nat, bool, bytes)>)
    requires first % 32 != 31 && ParseLength(s) == length
    ensures ParseTag([first] + s) == Judged(first, first % 32, 1, length, if length.Some? then |s| - |length.value.2| else 0)
  {
    var all := [first] + s;
    assert all[0] == first && all[1..] == s;
  }

  /** An identifier with a tag number above 30. */
  lemma LongTagJudged(first: byte, septets: seq<nat>, s: bytes, length: Option<(nat, bool, bytes)>)
    requires first % 32 == 31 && septets != [] && (forall i | 0 <= i < |septets| :: septets[i] < 128) && ParseLength(s) == length
    ensures ParseTag([first] + (TagOctets(septets) + s)) ==
              Judged(first, Septets(septets) % Word, 1 + |TagOctets(septets)|, length, if length.Some? then |s| - |length.value.2| else 0)
  {
    var all := [first] + (TagOctets(septets) + s);
    assert all[0] == first && all[1..] == TagOctets(septets) + s;
    LongTagRead(septets, s, 0);
    FoldedIs(septets);
    LongTagIs(all, Septets(septets) % Word, s, length);
  }

  lemma LongTagIs(all: bytes, number: nat, s: bytes, length: Option<(nat, bool, bytes)>)
    requires all != [] && all[0] % 32 == 31 && LongTag(all[1..], 0) == Some((number, s)) && ParseLength(s) == length
    ensures |s| < |all|
    ensures ParseTag(all) == Judged(all[0], number, |all| - |s|, length, if length.Some? then |s| - |length.value.2| else 0)
  {
  }
}
