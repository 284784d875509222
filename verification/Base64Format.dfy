/** CRC-24 as section 6.1 of RFC 4880 defines it, bit by bit. */
module Crc24Reference {
  import opened Octets
  import Crc24

  /** One bit: shift, and take the polynomial off where bit 24 has come up. */
  function Bit(crc: bv32): bv32 {
    if (crc << 1) & 0x1000000 != 0 then (crc << 1) ^ 0x1864CFB else crc << 1
  }

  function Bits(crc: bv32, n: nat): bv32
    decreases n
  {
    if n == 0 then crc else Bits(Bit(crc), n - 1)
  }

  function Feed(crc: bv32, b: byte): bv32 { Bits(crc ^ (AsWord(b) << 16), 8) }

  /** The checksum of some octets. */
  function Checksum(data: bytes): bv32 {
    if data == [] then 0xB704CE else Feed(Checksum(data[..|data| - 1]), data[|data| - 1])
  }

  // ---------------------------------------------------------------------------------
  // The table does eight bits at once.

  predicate Fits24(x: bv32) { x & 0xFF000000 == 0 }

  /** The bits that are left behind the top one. */
  function Rest(s: bv32): bv32 { (s << 1) & 0xFFFFFF }

  lemma BitUp(x: bv32)
    requires x & 0x800000 != 0
    ensures Bit(x) == (x << 1) ^ 0x1864CFB
  {
  }

  lemma BitDown(x: bv32)
    requires x & 0x800000 == 0
    ensures Bit(x) == x << 1
  {
  }

  lemma UpEven(k: bv32, t: bv32)
    requires k != 0 && t == Crc24.Table(k >> 1) && t & 0x800000 != 0 && k & 1 == 0
    ensures Crc24.Table(k) == (t << 1) ^ 0x864CFB
  {
    EntryUp(t);
    TableIs(k, t, false);
  }

  lemma UpOdd(k: bv32, t: bv32)
    requires k != 0 && t == Crc24.Table(k >> 1) && t & 0x800000 != 0 && k & 1 != 0
    ensures Crc24.Table(k) == t << 1
  {
    EntryUp(t);
    TableIs(k, t, true);
  }

  lemma DownEven(k: bv32, t: bv32)
    requires k != 0 && t == Crc24.Table(k >> 1) && t & 0x800000 == 0 && k & 1 == 0
    ensures Crc24.Table(k) == t << 1
  {
    EntryDown(t);
    TableIs(k, t, false);
  }

  lemma DownOdd(k: bv32, t: bv32)
    requires k != 0 && t == Crc24.Table(k >> 1) && t & 0x800000 == 0 && k & 1 != 0
    ensures Crc24.Table(k) == (t << 1) ^ 0x864CFB
  {
    EntryDown(t);
    TableIs(k, t, true);
  }

  lemma EntryUp(t: bv32)
    requires t & 0x800000 != 0
    ensures Crc24.Entry(t, true) == t << 1 && Crc24.Entry(t, false) == (t << 1) ^ 0x864CFB
  {
  }

  lemma EntryDown(t: bv32)
    requires t & 0x800000 == 0
    ensures Crc24.Entry(t, true) == (t << 1) ^ 0x864CFB && Crc24.Entry(t, false) == t << 1
  {
  }

  lemma TableIs(k: bv32, t: bv32, odd: bool)
    requires k != 0 && t == Crc24.Table(k >> 1) && odd == (k & 1 != 0)
    ensures Crc24.Table(k) == Crc24.Entry(t, odd)
  {
  }

  // In each of the four cases: the bit of the register that is shifted out, and its new value.

  lemma FromUpEven(t: bv32, s: bv32, entry: bv32)
    requires t & 0x800000 != 0 && Fits24(s) && s & 0x800000 == 0 && entry == (t << 1) ^ 0x864CFB
    ensures (Crc24.Low(t) ^ s) & 0x800000 != 0 && ((Crc24.Low(t) ^ s) << 1) ^ 0x1864CFB == Crc24.Low(entry) ^ Rest(s)
  {
  }

  lemma FromUpOdd(t: bv32, s: bv32, entry: bv32)
    requires t & 0x800000 != 0 && Fits24(s) && s & 0x800000 != 0 && entry == t << 1
    ensures (Crc24.Low(t) ^ s) & 0x800000 == 0 && (Crc24.Low(t) ^ s) << 1 == Crc24.Low(entry) ^ Rest(s)
  {
  }

  lemma FromDownEven(t: bv32, s: bv32, entry: bv32)
    requires t & 0x800000 == 0 && Fits24(s) && s & 0x800000 == 0 && entry == t << 1
    ensures (Crc24.Low(t) ^ s) & 0x800000 == 0 && (Crc24.Low(t) ^ s) << 1 == Crc24.Low(entry) ^ Rest(s)
  {
  }

  lemma FromDownOdd(t: bv32, s: bv32, entry: bv32)
    requires t & 0x800000 == 0 && Fits24(s) && s & 0x800000 != 0 && entry == (t << 1) ^ 0x864CFB
    ensures (Crc24.Low(t) ^ s) & 0x800000 != 0 && ((Crc24.Low(t) ^ s) << 1) ^ 0x1864CFB == Crc24.Low(entry) ^ Rest(s)
  {
  }

  lemma AfterUpEven(t: bv32, s: bv32, entry: bv32)
    requires t & 0x800000 != 0 && Fits24(s) && s & 0x800000 == 0 && entry == (t << 1) ^ 0x864CFB
    ensures Bit(Crc24.Low(t) ^ s) == Crc24.Low(entry) ^ Rest(s)
  {
    FromUpEven(t, s, entry);
    BitUp(Crc24.Low(t) ^ s);
  }

  lemma AfterUpOdd(t: bv32, s: bv32, entry: bv32)
    requires t & 0x800000 != 0 && Fits24(s) && s & 0x800000 != 0 && entry == t << 1
    ensures Bit(Crc24.Low(t) ^ s) == Crc24.Low(entry) ^ Rest(s)
  {
    FromUpOdd(t, s, entry);
    BitDown(Crc24.Low(t) ^ s);
  }

  lemma AfterDownEven(t: bv32, s: bv32, entry: bv32)
    requires t & 0x800000 == 0 && Fits24(s) && s & 0x800000 == 0 && entry == t << 1
    ensures Bit(Crc24.Low(t) ^ s) == Crc24.Low(entry) ^ Rest(s)
  {
    FromDownEven(t, s, entry);
    BitDown(Crc24.Low(t) ^ s);
  }

  lemma AfterDownOdd(t: bv32, s: bv32, entry: bv32)
    requires t & 0x800000 == 0 && Fits24(s) && s & 0x800000 != 0 && entry == (t << 1) ^ 0x864CFB
    ensures Bit(Crc24.Low(t) ^ s) == Crc24.Low(entry) ^ Rest(s)
  {
    FromDownOdd(t, s, entry);
    BitUp(Crc24.Low(t) ^ s);
  }

  lemma EvenBit(k: bv32, s: bv32, t: bv32, entry: bv32)
    requires k != 0 && t == Crc24.Table(k >> 1) && entry == Crc24.Table(k) && Fits24(s) && k & 1 == 0 && s & 0x800000 == 0
    ensures Bit(Crc24.Low(t) ^ s) == Crc24.Low(entry) ^ Rest(s)
  {
    if t & 0x800000 != 0 {
      UpEven(k, t);
      AfterUpEven(t, s, entry);
    } else {
      DownEven(k, t);
      AfterDownEven(t, s, entry);
    }
  }

  lemma OddBit(k: bv32, s: bv32, t: bv32, entry: bv32)
    requires k != 0 && t == Crc24.Table(k >> 1) && entry == Crc24.Table(k) && Fits24(s) && k & 1 != 0 && s & 0x800000 != 0
    ensures Bit(Crc24.Low(t) ^ s) == Crc24.Low(entry) ^ Rest(s)
  {
    if t & 0x800000 != 0 {
      UpOdd(k, t);
      AfterUpOdd(t, s, entry);
    } else {
      DownOdd(k, t);
      AfterDownOdd(t, s, entry);
    }
  }

  /** The index with the next bit of s taken in. */
  function Seen(i: bv32, s: bv32): bv32 { (i << 1) | (s >> 23) }

  lemma SeenHalf(i: bv32, s: bv32)
    requires i < 0x100 && Fits24(s)
    ensures Seen(i, s) >> 1 == i
  {
  }

  lemma SeenEven(i: bv32, s: bv32)
    requires Fits24(s) && s & 0x800000 == 0
    ensures Seen(i, s) & 1 == 0
  {
  }

  lemma SeenOdd(i: bv32, s: bv32)
    requires Fits24(s) && s & 0x800000 != 0
    ensures Seen(i, s) & 1 != 0 && Seen(i, s) != 0
  {
  }

  lemma SameEntry(a: bv32, b: bv32)
    requires a == b
    ensures Crc24.Table(a) == Crc24.Table(b)
  {
  }

  lemma ZeroBit(s: bv32, t: bv32, entry: bv32)
    requires Fits24(s) && s & 0x800000 == 0 && t == 0 && entry == 0
    ensures Bit(Crc24.Low(t) ^ s) == Crc24.Low(entry) ^ Rest(s)
  {
    BitDown(Crc24.Low(t) ^ s);
  }

  lemma EvenSeen(k: bv32, s: bv32, t: bv32, entry: bv32)
    requires t == Crc24.Table(k >> 1) && entry == Crc24.Table(k) && Fits24(s) && k & 1 == 0 && s & 0x800000 == 0
    ensures Bit(Crc24.Low(t) ^ s) == Crc24.Low(entry) ^ Rest(s)
  {
    if k == 0 {
      SameEntry(k >> 1, 0);
      ZeroBit(s, t, entry);
    } else {
      EvenBit(k, s, t, entry);
    }
  }

  lemma OneBit(i: bv32, s: bv32, k: bv32, t: bv32, entry: bv32)
    requires i < 0x100 && Fits24(s) && k == Seen(i, s) && t == Crc24.Table(i) && entry == Crc24.Table(k)
    ensures Bit(Crc24.Low(t) ^ s) == Crc24.Low(entry) ^ Rest(s)
  {
    SeenHalf(i, s);
    SameEntry(k >> 1, i);
    if s & 0x800000 == 0 {
      SeenEven(i, s);
      EvenSeen(k, s, t, entry);
    } else {
      SeenOdd(i, s);
      OddBit(k, s, t, entry);
    }
  }

  lemma BitsStep(x: bv32, y: bv32, n: nat)
    requires n > 0 && Bit(x) == y
    ensures Bits(x, n) == Bits(y, n - 1)
  {
  }

  lemma XorSame(e: bv32, a: bv32, b: bv32)
    requires a == b
    ensures e ^ a == e ^ b
  {
  }

  lemma RestNamed(s: bv32, s': bv32, t: bv32, entry: bv32)
    requires s' == Rest(s) && Bit(Crc24.Low(t) ^ s) == Crc24.Low(entry) ^ Rest(s)
    ensures Bit(Crc24.Low(t) ^ s) == Crc24.Low(entry) ^ s'
  {
    XorSame(Crc24.Low(entry), Rest(s), s');
  }

  lemma NextBit(i: bv32, s: bv32, k: bv32, s': bv32, t: bv32, entry: bv32)
    requires i < 0x100 && Fits24(s) && k == Seen(i, s) && s' == Rest(s) && t == Crc24.Table(i) && entry == Crc24.Table(k)
    ensures Bit(Crc24.Low(t) ^ s) == Crc24.Low(entry) ^ s'
  {
    OneBit(i, s, k, t, entry);
    RestNamed(s, s', t, entry);
  }

  lemma NextBits(i: bv32, s: bv32, k: bv32, s': bv32, t: bv32, entry: bv32, n: nat)
    requires i < 0x100 && Fits24(s) && k == Seen(i, s) && s' == Rest(s) && t == Crc24.Table(i) && entry == Crc24.Table(k) && n > 0
    ensures Bits(Crc24.Low(t) ^ s, n) == Bits(Crc24.Low(entry) ^ s', n - 1)
  {
    NextBit(i, s, k, s', t, entry);
    BitsStep(Crc24.Low(t) ^ s, Crc24.Low(entry) ^ s', n);
  }

  /** The bits of a register that are left after j bits. */
  function Left(r: bv32, j: nat): bv32
    decreases j
  {
    if j == 0 then r else Rest(Left(r, j - 1))
  }

  /** The index they make. */
  function Out(r: bv32, j: nat): bv32
    decreases j
  {
    if j == 0 then 0 else Seen(Out(r, j - 1), Left(r, j - 1))
  }

  lemma Shift0(r: bv32, i: bv32, s: bv32)
    requires Fits24(r) && i == r >> 24 && s == r
    ensures i < 0x100 && Fits24(s) && Seen(i, s) == r >> 23 && Rest(s) == (r << 1) & 0xFFFFFF
  {
  }

  lemma Shift1(r: bv32, i: bv32, s: bv32)
    requires Fits24(r) && i == r >> 23 && s == (r << 1) & 0xFFFFFF
    ensures i < 0x100 && Fits24(s) && Seen(i, s) == r >> 22 && Rest(s) == (r << 2) & 0xFFFFFF
  {
  }

  lemma Shift2(r: bv32, i: bv32, s: bv32)
    requires Fits24(r) && i == r >> 22 && s == (r << 2) & 0xFFFFFF
    ensures i < 0x100 && Fits24(s) && Seen(i, s) == r >> 21 && Rest(s) == (r << 3) & 0xFFFFFF
  {
  }

  lemma Shift3(r: bv32, i: bv32, s: bv32)
    requires Fits24(r) && i == r >> 21 && s == (r << 3) & 0xFFFFFF
    ensures i < 0x100 && Fits24(s) && Seen(i, s) == r >> 20 && Rest(s) == (r << 4) & 0xFFFFFF
  {
  }

  lemma Shift4(r: bv32, i: bv32, s: bv32)
    requires Fits24(r) && i == r >> 20 && s == (r << 4) & 0xFFFFFF
    ensures i < 0x100 && Fits24(s) && Seen(i, s) == r >> 19 && Rest(s) == (r << 5) & 0xFFFFFF
  {
  }

  lemma Shift5(r: bv32, i: bv32, s: bv32)
    requires Fits24(r) && i == r >> 19 && s == (r << 5) & 0xFFFFFF
    ensures i < 0x100 && Fits24(s) && Seen(i, s) == r >> 18 && Rest(s) == (r << 6) & 0xFFFFFF
  {
  }

  lemma Shift6(r: bv32, i: bv32, s: bv32)
    requires Fits24(r) && i == r >> 18 && s == (r << 6) & 0xFFFFFF
    ensures i < 0x100 && Fits24(s) && Seen(i, s) == r >> 17 && Rest(s) == (r << 7) & 0xFFFFFF
  {
  }

  lemma Shift7(r: bv32, i: bv32, s: bv32)
    requires Fits24(r) && i == r >> 17 && s == (r << 7) & 0xFFFFFF
    ensures i < 0x100 && Fits24(s) && Seen(i, s) == r >> 16 && Rest(s) == (r << 8) & 0xFFFFFF
  {
  }

  predicate Shifted(r: bv32, j: nat, k: bv32, s: bv32) {
    && (j == 0 ==> k == r >> 24 && s == r)
    && (j == 1 ==> k == r >> 23 && s == (r << 1) & 0xFFFFFF)
    && (j == 2 ==> k == r >> 22 && s == (r << 2) & 0xFFFFFF)
    && (j == 3 ==> k == r >> 21 && s == (r << 3) & 0xFFFFFF)
    && (j == 4 ==> k == r >> 20 && s == (r << 4) & 0xFFFFFF)
    && (j == 5 ==> k == r >> 19 && s == (r << 5) & 0xFFFFFF)
    && (j == 6 ==> k == r >> 18 && s == (r << 6) & 0xFFFFFF)
    && (j == 7 ==> k == r >> 17 && s == (r << 7) & 0xFFFFFF)
    && (j == 8 ==> k == r >> 16 && s == (r << 8) & 0xFFFFFF)
  }

  lemma ShiftOn(r: bv32, j: nat, i: bv32, s: bv32)
    requires Fits24(r) && j < 8 && Shifted(r, j, i, s)
    ensures i < 0x100 && Fits24(s) && Shifted(r, j + 1, Seen(i, s), Rest(s))
  {
    if j == 0 {
      Shift0(r, i, s);
    } else if j == 1 {
      Shift1(r, i, s);
    } else if j == 2 {
      Shift2(r, i, s);
    } else if j == 3 {
      Shift3(r, i, s);
    } else if j == 4 {
      Shift4(r, i, s);
    } else if j == 5 {
      Shift5(r, i, s);
    } else if j == 6 {
      Shift6(r, i, s);
    } else if j == 7 {
      Shift7(r, i, s);
    }
  }

  lemma {:induction false} Shifts(r: bv32, j: nat)
    requires Fits24(r) && j <= 8
    ensures Shifted(r, j, Out(r, j), Left(r, j))
    decreases j
  {
    if j == 0 {
      Start(r);
    } else {
      Shifts(r, j - 1);
      ShiftOn(r, j - 1, Out(r, j - 1), Left(r, j - 1));
    }
  }

  lemma OutBound(r: bv32, j: nat)
    requires Fits24(r) && j < 8
    ensures Out(r, j) < 0x100 && Fits24(Left(r, j))
  {
    Shifts(r, j);
    ShiftOn(r, j, Out(r, j), Left(r, j));
  }

  lemma OutAll(r: bv32)
    requires Fits24(r)
    ensures Out(r, 8) == r >> 16 && Left(r, 8) == (r << 8) & 0xFFFFFF
  {
    Shifts(r, 8);
  }

  lemma Start(r: bv32)
    requires Fits24(r)
    ensures r >> 24 == 0
  {
  }

  lemma ZeroEntry(r: bv32, t: bv32)
    requires t == 0
    ensures Crc24.Low(t) ^ r == r
  {
  }

  lemma BitsOn(x: bv32, i: bv32, s0: bv32, t0: bv32, k: bv32, s: bv32, t: bv32, n: nat)
    requires x == Bits(Crc24.Low(t0) ^ s0, n) && n > 0
    requires i < 0x100 && Fits24(s0) && k == Seen(i, s0) && s == Rest(s0) && t0 == Crc24.Table(i) && t == Crc24.Table(k)
    ensures x == Bits(Crc24.Low(t) ^ s, n - 1)
  {
    NextBits(i, s0, k, s, t0, t, n);
  }

  lemma BitsFrom(r: bv32, t: bv32, s: bv32, x: bv32)
    requires x == Bits(r, 8) && t == 0 && s == r
    ensures x == Bits(Crc24.Low(t) ^ s, 8)
  {
    ZeroEntry(s, t);
  }

  lemma {:induction false} ManyBits(r: bv32, j: nat, k: bv32, s: bv32, t: bv32, x: bv32)
    requires Fits24(r) && j <= 8 && k == Out(r, j) && s == Left(r, j) && t == Crc24.Table(k) && x == Bits(r, 8)
    ensures x == Bits(Crc24.Low(t) ^ s, 8 - j)
    decreases j
  {
    if j == 0 {
      BitsFrom(r, t, s, x);
    } else {
      OutBound(r, j - 1);
      var i, s0 := Out(r, j - 1), Left(r, j - 1);
      var t0 := Crc24.Table(i);
      ManyBits(r, j - 1, i, s0, t0, x);
      BitsOn(x, i, s0, t0, k, s, t, 9 - j);
    }
  }

  lemma BitsDone(x: bv32, y: bv32)
    requires x == Bits(y, 0)
    ensures x == y
  {
  }

  /** What the table does with a register is what eight single bits do. */
  lemma EightBits(r: bv32, k: bv32, s: bv32, t: bv32, x: bv32)
    requires Fits24(r) && k == Out(r, 8) && s == Left(r, 8) && t == Crc24.Table(k) && x == Bits(r, 8)
    ensures x == Crc24.Low(t) ^ s
  {
    ManyBits(r, 8, k, s, t, x);
    BitsDone(x, Crc24.Low(t) ^ s);
  }

  lemma UpdateParts(crc: bv32, b: bv32, r: bv32, k: bv32, s: bv32, entry: bv32)
    requires b < 0x100 && r == Crc24.Low(crc) ^ (b << 16) && k == r >> 16 && s == (r << 8) & 0xFFFFFF
    ensures k == Crc24.Index(crc, b) && Crc24.Low(Crc24.Mix(crc, entry)) == Crc24.Low(entry) ^ s
  {
  }

  lemma RegisterFits(crc: bv32, b: bv32)
    requires b < 0x100
    ensures Fits24(Crc24.Low(crc) ^ (b << 16))
  {
  }

  lemma UpdateIsBits(crc: bv32, b: bv32, r: bv32, k: bv32, s: bv32, t: bv32, x: bv32)
    requires b < 0x100 && r == Crc24.Low(crc) ^ (b << 16) && Fits24(r) && x == Bits(r, 8)
    requires k == Out(r, 8) && s == Left(r, 8) && t == Crc24.Table(k)
    ensures Crc24.Low(Crc24.Update(crc, b)) == x
  {
    EightBits(r, k, s, t, x);
    OutAll(r);
    UpdateIs(crc, b, r, k, s, t);
  }

  lemma UpdateIs(crc: bv32, b: bv32, r: bv32, k: bv32, s: bv32, t: bv32)
    requires b < 0x100 && r == Crc24.Low(crc) ^ (b << 16) && k == r >> 16 && s == (r << 8) & 0xFFFFFF && t == Crc24.Table(k)
    ensures Crc24.Low(Crc24.Update(crc, b)) == Crc24.Low(t) ^ s
  {
    UpdateParts(crc, b, r, k, s, t);
  }

  lemma OctetStep(crc: bv32, b: bv32, c: bv32, x: bv32)
    requires b < 0x100 && c == Crc24.Low(crc) && x == Bits(c ^ (b << 16), 8)
    ensures Crc24.Low(Crc24.Update(crc, b)) == x
  {
    RegisterFits(crc, b);
    var r := c ^ (b << 16);
    UpdateIsBits(crc, b, r, Out(r, 8), Left(r, 8), Crc24.Table(Out(r, 8)), x);
  }

  lemma OctetFits(b: byte)
    ensures AsWord(b) < 0x100
  {
  }

  lemma ChecksumStep(data: bytes, pre: bytes, b: byte, c: bv32)
    requires data != [] && pre == data[..|data| - 1] && b == data[|data| - 1] && c == Checksum(pre)
    ensures Checksum(data) == Feed(c, b)
  {
  }

  lemma FeedIs(c: bv32, b: byte, x: bv32)
    requires x == Feed(c, b)
    ensures x == Bits(c ^ (AsWord(b) << 16), 8)
  {
  }

  lemma SumStep(data: bytes, pre: bytes, b: byte, crc: bv32)
    requires data != [] && pre == data[..|data| - 1] && b == data[|data| - 1] && crc == Crc24.Run(Crc24.INIT, pre)
    ensures Crc24.Sum(Crc24.INIT, data) == Crc24.Low(Crc24.Update(crc, AsWord(b)))
  {
  }

  lemma NoOctets()
    ensures Crc24.Sum(Crc24.INIT, []) == Checksum([])
  {
  }

  /** The checksum that is kept over any writes is the one of the standard. */
  lemma {:induction false} SumIsChecksum(data: bytes)
    ensures Crc24.Sum(Crc24.INIT, data) == Checksum(data)
  {
    if data == [] {
      NoOctets();
    } else {
      var pre, b := data[..|data| - 1], data[|data| - 1];
      SumIsChecksum(pre);
      OctetFits(b);
      ChecksumStep(data, pre, b, Checksum(pre));
      FeedIs(Checksum(pre), b, Checksum(data));
      SumStep(data, pre, b, Crc24.Run(Crc24.INIT, pre));
      OctetStep(Crc24.Run(Crc24.INIT, pre), AsWord(b), Checksum(pre), Checksum(data));
    }
  }
}

/** What the encoder writes and the decoder reads, in the terms of section 4 of RFC 4648 and
    section 6.2 of RFC 4880. */
module Base64Format {
  import opened Wrappers
  import opened Octets
  import Crc24
  import Crc24Reference
  import opened Base64
  import opened Powers

  const Upper: string := "ABCDEFGHIJKLMNOPQRSTUVWXYZ"
  const Lower: string := "abcdefghijklmnopqrstuvwxyz"
  const Others: string := "0123456789+/"

  /** The alphabet. */
  const Letters: string := Upper + Lower + Others

  function Chars(text: Text): string { seq(|text|, i requires 0 <= i < |text| => text[i] as char) }

  function At(data: bytes, i: nat): byte { if i < |data| then data[i] else 0 }

  /** Three octets as one number. */
  function Group(data: bytes, g: nat): nat {
    At(data, 3 * g) * 65536 + At(data, 3 * g + 1) * 256 + At(data, 3 * g + 2)
  }

  /** Character k of the encoding. */
  function RadixChar(data: bytes, k: nat): char {
    var g, n := k / 4, Group(data, k / 4);
    if k % 4 == 0 then Letters[n / 262144 % 64]
    else if k % 4 == 1 then Letters[n / 4096 % 64]
    else if k % 4 == 2 then if 3 * g + 1 >= |data| then '=' else Letters[n / 64 % 64]
    else if 3 * g + 2 >= |data| then '=' else Letters[n % 64]
  }

  /** The first n characters. */
  function RadixPart(data: bytes, n: nat): string { seq(n, k requires 0 <= k < n => RadixChar(data, k)) }

  function Radix(data: bytes): string { RadixPart(data, 4 * ((|data| + 2) / 3)) }

  /** A line feed behind every 64 characters. */
  function Lines(s: string): string {
    seq(|s| + |s| / 64, i requires 0 <= i < |s| + |s| / 64 => if i % 65 == 64 then '\n' else s[i - i / 65])
  }

  /** And behind the last ones. */
  function Folded(s: string): string { Lines(s) + (if |s| % 64 != 0 then "\n" else "") }

  /** The three octets of a checksum. */
  function ChecksumOctets(data: bytes): bytes {
    var c := Crc24Reference.Checksum(data);
    [(((c >> 16) & 0xff) as bv8) as byte, (((c >> 8) & 0xff) as bv8) as byte, ((c & 0xff) as bv8) as byte]
  }

  /** The whole text, for data that is not empty. */
  function Armor(title: Option<string>, data: bytes): string {
    match title
    case None => Folded(Radix(data))
    case Some(t) =>
      if t == "" then Radix(data)
      else
        "-----BEGIN " + t + "-----\n" + (if "PGP " <= t then "\n" else "")
        + Folded(Radix(data))
        + (if "PGP " <= t then "=" + Radix(ChecksumOctets(data)) + "\n" else "")
        + "-----END " + t + "-----\n"
  }

  // ---------------------------------------------------------------------------------
  // The alphabet.

  lemma UpperIs(v: nat)
    requires v < 26
    ensures |Upper| == 26 && Upper[v] == Asc(v) as char
  {
  }

  lemma LowerIs(v: nat)
    requires v < 26
    ensures |Lower| == 26 && Lower[v] == Asc(v + 26) as char
  {
  }

  lemma OthersAre(v: nat)
    requires v < 12
    ensures |Others| == 12 && Others[v] == Asc(v + 52) as char
  {
  }

  /** bintoasc is the alphabet. */
  lemma LetterIs(v: nat)
    requires v < 64
    ensures |Letters| == 64 && Letters[v] == Asc(v) as char
  {
    if v < 26 {
      UpperIs(v);
    } else if v < 52 {
      LowerIs(v - 26);
    } else {
      OthersAre(v - 52);
    }
    assert |Upper| == 26 && |Lower| == 26 && |Others| == 12;
  }

  // ---------------------------------------------------------------------------------
  // Groups.

  lemma Divided(n: nat, u: nat, q: nat, r: nat)
    requires r < u && n == u * q + r
    ensures n / u == q && n % u == r
  {
    DivModUnique(n, u, q, r);
  }

  lemma Bits0(a: byte, b: byte, c: byte)
    ensures (a * 65536 + b * 256 + c) / 262144 % 64 == a / 4
  {
    Divided(a * 65536 + b * 256 + c, 262144, a / 4, a % 4 * 65536 + b * 256 + c);
  }

  lemma Bits1(a: byte, b: byte, c: byte)
    ensures (a * 65536 + b * 256 + c) / 4096 % 64 == a % 4 * 16 + b / 16
  {
    Divided(a * 65536 + b * 256 + c, 4096, a * 16 + b / 16, b % 16 * 256 + c);
    Divided(a * 16 + b / 16, 64, a / 4, a % 4 * 16 + b / 16);
  }

  lemma Bits2(a: byte, b: byte, c: byte)
    ensures (a * 65536 + b * 256 + c) / 64 % 64 == b % 16 * 4 + c / 64
  {
    Divided(a * 65536 + b * 256 + c, 64, a * 1024 + b * 4 + c / 64, c % 64);
    Divided(a * 1024 + b * 4 + c / 64, 64, a * 16 + b / 16, b % 16 * 4 + c / 64);
  }

  lemma Bits3(a: byte, b: byte, c: byte)
    ensures (a * 65536 + b * 256 + c) % 64 == c % 64
  {
    Divided(a * 65536 + b * 256 + c, 64, a * 1024 + b * 4 + c / 64, c % 64);
  }

  lemma Bits24(a: byte, b: byte, c: byte, n: nat)
    requires n == a * 65536 + b * 256 + c
    ensures n / 262144 % 64 == Sextet0(a) && n / 4096 % 64 == Sextet1(a, b)
    ensures n / 64 % 64 == Sextet2(b, c) && n % 64 == Sextet3(c)
  {
    Bits0(a, b, c);
    Bits1(a, b, c);
    Bits2(a, b, c);
    Bits3(a, b, c);
  }

  lemma GroupChars(data: bytes, g: nat, n: nat)
    requires n == Group(data, g) && 3 * g < |data|
    ensures RadixChar(data, 4 * g) == Letters[n / 262144 % 64] && RadixChar(data, 4 * g + 1) == Letters[n / 4096 % 64]
    ensures RadixChar(data, 4 * g + 2) == if 3 * g + 1 >= |data| then '=' else Letters[n / 64 % 64]
    ensures RadixChar(data, 4 * g + 3) == if 3 * g + 2 >= |data| then '=' else Letters[n % 64]
  {
    assert (4 * g) / 4 == g && (4 * g + 1) / 4 == g && (4 * g + 2) / 4 == g && (4 * g + 3) / 4 == g;
  }

  lemma FullGroup(data: bytes, g: nat, a: byte, b: byte, c: byte)
    requires 3 * g + 2 < |data| && a == data[3 * g] && b == data[3 * g + 1] && c == data[3 * g + 2]
    ensures var q := Quad(a, b, c);
            && RadixChar(data, 4 * g) == q[0] as char && RadixChar(data, 4 * g + 1) == q[1] as char
            && RadixChar(data, 4 * g + 2) == q[2] as char && RadixChar(data, 4 * g + 3) == q[3] as char
  {
    GroupChars(data, g, Group(data, g));
    Bits24(a, b, c, Group(data, g));
    LetterIs(Sextet0(a));
    LetterIs(Sextet1(a, b));
    LetterIs(Sextet2(b, c));
    LetterIs(Sextet3(c));
  }

  lemma LastGroup(data: bytes, g: nat)
    requires |data| == 3 * g + 1 || |data| == 3 * g + 2
    ensures var q := Padded(data[3 * g..]);
            && RadixChar(data, 4 * g) == q[0] as char && RadixChar(data, 4 * g + 1) == q[1] as char
            && RadixChar(data, 4 * g + 2) == q[2] as char && RadixChar(data, 4 * g + 3) == q[3] as char
  {
    var a, b := data[3 * g], At(data, 3 * g + 1);
    GroupChars(data, g, Group(data, g));
    Bits24(a, b, 0, Group(data, g));
    LetterIs(Sextet0(a));
    LetterIs(Sextet1(a, b));
    LetterIs(Sextet2(b, 0));
  }

  lemma CharKept(data: bytes, more: bytes, k: nat)
    requires 3 * (k / 4) + 2 < |data|
    ensures RadixChar(data + more, k) == RadixChar(data, k)
  {
    var g := k / 4;
    assert At(data + more, 3 * g) == At(data, 3 * g) && At(data + more, 3 * g + 1) == At(data, 3 * g + 1);
    assert At(data + more, 3 * g + 2) == At(data, 3 * g + 2);
  }

  /** Characters of full groups do not depend on what follows. */
  lemma PartKept(data: bytes, more: bytes, g: nat)
    requires 3 * g <= |data|
    ensures RadixPart(data + more, 4 * g) == RadixPart(data, 4 * g)
  {
    forall k | 0 <= k < 4 * g ensures RadixChar(data + more, k) == RadixChar(data, k) {
      assert k / 4 < g;
      CharKept(data, more, k);
    }
  }

  lemma PartNext(data: bytes, g: nat, q: string)
    requires |q| == 4 && RadixChar(data, 4 * g) == q[0] && RadixChar(data, 4 * g + 1) == q[1]
    requires RadixChar(data, 4 * g + 2) == q[2] && RadixChar(data, 4 * g + 3) == q[3]
    ensures RadixPart(data, 4 * (g + 1)) == RadixPart(data, 4 * g) + q
  {
    forall k | 4 * g <= k < 4 * (g + 1) ensures RadixChar(data, k) == q[k - 4 * g] {
      assert k == 4 * g || k == 4 * g + 1 || k == 4 * g + 2 || k == 4 * g + 3;
    }
  }

  /** Four more characters. */
  lemma LinesNext(s: string, q: string, a: nat, r: nat)
    requires |q| == 4 && |s| == 64 * a + 4 * r && r < 16
    ensures Lines(s + q) == Lines(s) + q + (if r == 15 then "\n" else "")
  {
    var t := s + q;
    var n := 65 * a + 4 * r;
    assert |s| / 64 == a && |Lines(s)| == n;
    assert |t| / 64 == if r == 15 then a + 1 else a;
    var rhs := Lines(s) + q + (if r == 15 then "\n" else "");
    assert |Lines(t)| == |rhs|;
    forall i | 0 <= i < |rhs| ensures Lines(t)[i] == rhs[i] {
      LinesNextAt(s, q, a, r, i);
    }
  }

  lemma LinesNextAt(s: string, q: string, a: nat, r: nat, i: nat)
    requires |q| == 4 && |s| == 64 * a + 4 * r && r < 16 && |Lines(s)| == 65 * a + 4 * r
    requires i < |Lines(s + q)| == |Lines(s) + q + (if r == 15 then "\n" else "")|
    ensures Lines(s + q)[i] == (Lines(s) + q + (if r == 15 then "\n" else ""))[i]
  {
    if i < 65 * a + 4 * r {
      assert i % 65 != 64 ==> i - i / 65 < |s|;
    } else {
      assert i / 65 == a;
    }
  }

  // ---------------------------------------------------------------------------------
  // The encoder.

  lemma CharsJoin(a: Text, b: Text)
    ensures Chars(a + b) == Chars(a) + Chars(b)
  {
  }

  function Shown(e: Encoder, s: string): string { if e.noLinefeeds then s else Lines(s) }

  lemma QuadText(e: Encoder, q: Text)
    ensures Chars(PutQuad(e, q).out) == Chars(e.out) + Chars(q) + (if e.quads + 1 >= 16 && !e.noLinefeeds then "\n" else "")
  {
    CharsJoin(e.out, q);
    CharsJoin(e.out + q, [LF]);
    assert Chars([LF]) == "\n";
    NothingAdded(e.out + q);
  }

  lemma QuadShown(e: Encoder, s: string, q: Text, m: nat)
    requires |q| == 4 && |s| == 4 * m && e.quads == m % 16 && Chars(e.out) == Shown(e, s)
    ensures var f := PutQuad(e, q); Chars(f.out) == Shown(e, s + Chars(q)) && f.quads == (m + 1) % 16
  {
    QuadText(e, q);
    assert (m + 1) % 16 == if m % 16 == 15 then 0 else m % 16 + 1;
    if e.noLinefeeds {
      NothingMore(s + Chars(q));
    } else {
      LinesNext(s, Chars(q), m / 16, m % 16);
    }
  }

  lemma NothingMore(s: string)
    ensures s + "" == s
  {
  }

  lemma NothingAdded(a: Text)
    ensures a + [] == a
  {
  }

  /** The full groups have been written, and the rest is held back. */
  predicate Encodes(e: Encoder, data: bytes) {
    var m := |data| / 3;
    e.rad == data[3 * m..] && e.quads == m % 16 && Chars(e.out) == Shown(e, RadixPart(data, 4 * m))
  }

  lemma FullQuad(data: bytes, m: nat, a: byte, b: byte, c: byte)
    requires 3 * m + 2 < |data| && a == data[3 * m] && b == data[3 * m + 1] && c == data[3 * m + 2]
    ensures RadixPart(data, 4 * (m + 1)) == RadixPart(data, 4 * m) + Chars(Quad(a, b, c))
  {
    FullGroup(data, m, a, b, c);
    PartNext(data, m, Chars(Quad(a, b, c)));
  }

  lemma LastQuad(data: bytes, m: nat, rad: bytes)
    requires (|data| == 3 * m + 1 || |data| == 3 * m + 2) && rad == data[3 * m..]
    ensures RadixPart(data, 4 * (m + 1)) == RadixPart(data, 4 * m) + Chars(Padded(rad))
  {
    LastGroup(data, m);
    PartNext(data, m, Chars(Padded(rad)));
  }

  lemma PushFull(e: Encoder, data: bytes, b: byte, m: nat)
    requires Encodes(e, data) && |data| == 3 * m + 2
    ensures Encodes(Push(e, b), data + [b])
  {
    var all, x, y := data + [b], data[3 * m], data[3 * m + 1];
    assert |data| / 3 == m && |all| / 3 == m + 1;
    assert e.rad == [x, y] && all[3 * (m + 1)..] == [];
    PartKept(data, [b], m);
    FullQuad(all, m, x, y, b);
    QuadShown(e, RadixPart(data, 4 * m), Quad(x, y, b), m);
  }

  lemma PushEncodes(e: Encoder, data: bytes, b: byte)
    requires Encodes(e, data)
    ensures Encodes(Push(e, b), data + [b])
  {
    var m, all := |data| / 3, data + [b];
    if |data| % 3 == 2 {
      PushFull(e, data, b, m);
    } else {
      PartKept(data, [b], m);
      assert |all| / 3 == m && all[3 * m..] == data[3 * m..] + [b];
    }
  }

  lemma NothingEncoded(e: Encoder, data: bytes)
    requires e.rad == [] && e.quads == 0 && e.out == [] && data == []
    ensures Encodes(e, data)
  {
    assert Chars(e.out) == "" && RadixPart(data, 0) == "" && Lines("") == "";
  }

  lemma {:induction false} PushAllEncodes(e: Encoder, data: bytes)
    requires e.rad == [] && e.quads == 0 && e.out == []
    ensures Encodes(PushAll(e, data), data)
  {
    if data == [] {
      NothingEncoded(e, data);
    } else {
      var pre, b := data[..|data| - 1], data[|data| - 1];
      PushAllEncodes(e, pre);
      PushEncodes(PushAll(e, pre), pre, b);
      assert pre + [b] == data;
    }
  }

  lemma FlushEncodes(e: Encoder, data: bytes)
    requires Encodes(e, data)
    ensures var f := Flushed(e); Chars(f.out) == Shown(e, Radix(data)) && f.quads == (|data| + 2) / 3 % 16
  {
    var m := |data| / 3;
    if |data| % 3 != 0 {
      LastQuad(data, m, e.rad);
      QuadShown(e, RadixPart(data, 4 * m), Padded(e.rad), m);
      assert (|data| + 2) / 3 == m + 1;
    } else {
      assert (|data| + 2) / 3 == m;
    }
  }

  lemma LastLineFed(e: Encoder, text: Text, s: string, quads: nat)
    requires Chars(text) == Shown(e, s) && quads == |s| / 4 % 16 && |s| % 4 == 0
    ensures Chars(text + (if quads > 0 then Linefeed(e) else [])) == if e.noLinefeeds then s else Folded(s)
  {
    var lf := if quads > 0 then Linefeed(e) else [];
    CharsJoin(text, lf);
    assert Chars(lf) == if quads > 0 && !e.noLinefeeds then "\n" else "";
    assert |s| % 64 != 0 <==> quads > 0;
    assert Lines(s) + "" == Lines(s) && s + "" == s;
  }

  lemma QuadRadix(a: byte, b: byte, c: byte)
    ensures Chars(Quad(a, b, c)) == Radix([a, b, c])
  {
    var o := [a, b, c];
    FullQuad(o, 0, a, b, c);
    assert RadixPart(o, 0) == "";
  }

  lemma CrcText(e: Encoder, data: bytes, o: bytes)
    requires !e.noLinefeeds && o == [Crc24.ByteOf(e.crc, 2), Crc24.ByteOf(e.crc, 1), Crc24.ByteOf(e.crc, 0)]
    ensures Chars(CrcLine(e)) == if e.useCrc then "=" + Radix(o) + "\n" else ""
  {
    if e.useCrc {
      var q := Quad(o[0], o[1], o[2]);
      QuadRadix(o[0], o[1], o[2]);
      CharsJoin([PAD], q);
      CharsJoin([PAD] + q, [LF]);
      assert Chars([PAD]) == "=" && Chars([LF]) == "\n";
    }
  }

  lemma CrcOctets(crc: bv32, data: bytes)
    requires crc == Crc24Reference.Checksum(data)
    ensures [Crc24.ByteOf(crc, 2), Crc24.ByteOf(crc, 1), Crc24.ByteOf(crc, 0)] == ChecksumOctets(data)
  {
  }

  lemma Markers()
    ensures Chars(BEGIN) == "-----BEGIN " && Chars(END) == "-----END " && Chars(DASHES + [LF]) == "-----\n"
    ensures Chars([LF]) == "\n" && Chars([]) == ""
  {
  }

  lemma ForPgp(title: Text)
    ensures PGP + [32] <= title <==> "PGP " <= Chars(title)
  {
    var c := Chars(title);
    if |title| >= 4 {
      assert title[..4] == [title[0], title[1], title[2], title[3]];
      assert c[..4] == [c[0], c[1], c[2], c[3]];
      assert PGP + [32] == [80, 71, 80, 32];
    }
  }

  lemma HeaderText(e: Encoder, t: Text)
    requires e.title == Some(t)
    ensures Chars(Header(e)) == "-----BEGIN " + Chars(t) + "-----\n" + (if e.useCrc then "\n" else "")
  {
    Markers();
    var extra: Text := if e.useCrc then [LF] else [];
    assert Header(e) == ((BEGIN + t) + (DASHES + [LF])) + extra;
    CharsJoin(BEGIN, t);
    CharsJoin(BEGIN + t, DASHES + [LF]);
    CharsJoin((BEGIN + t) + (DASHES + [LF]), extra);
  }

  lemma FooterText(e: Encoder, t: Text)
    requires e.title == Some(t)
    ensures Chars(Footer(e)) == "-----END " + Chars(t) + "-----\n"
  {
    Markers();
    assert Footer(e) == (END + t) + (DASHES + [LF]);
    CharsJoin(END, t);
    CharsJoin(END + t, DASHES + [LF]);
  }

  lemma BodyText(e: Encoder, data: bytes, o: bytes)
    requires Encodes(e, data) && o == [Crc24.ByteOf(e.crc, 2), Crc24.ByteOf(e.crc, 1), Crc24.ByteOf(e.crc, 0)]
    requires e.noLinefeeds ==> !e.useCrc
    ensures Chars(Body(e)) == if e.noLinefeeds then Radix(data) else Folded(Radix(data)) + (if e.useCrc then "=" + Radix(o) + "\n" else "")
  {
    var f := Flushed(e);
    FlushEncodes(e, data);
    assert |Radix(data)| == 4 * ((|data| + 2) / 3);
    LastLineFed(e, f.out, Radix(data), f.quads);
    var text := f.out + (if f.quads > 0 then Linefeed(e) else []);
    CharsJoin(text, CrcLine(e));
    if e.noLinefeeds {
      NothingAdded(text);
    } else {
      CrcText(e, data, o);
    }
  }

  /** The encoder at its start, with nothing written but the header accounted for. */
  function Started(title: Option<Text>, data: bytes): Encoder { Open(EncStart(title), data).(out := []) }

  lemma FinishedText(title: Option<Text>, data: bytes)
    requires data != []
    ensures var f := PushAll(Started(title, data), data);
            && EncFinish(EncWrite(EncStart(title), data)) == Header(EncStart(title)) + Body(f) + Footer(f)
            && Encodes(f, data) && f.title == EncStart(title).title && f.useCrc == EncStart(title).useCrc
            && f.noLinefeeds == EncStart(title).noLinefeeds && f.crc == Started(title, data).crc
  {
    var e, start := EncStart(title), Started(title, data);
    assert Open(e, data) == Behind(Header(e), start);
    PushBehind(Header(e), start, data);
    PushKeeps(start, data);
    FinishBehind(Header(e), PushAll(start, data));
    PushAllEncodes(start, data);
  }

  lemma StartedCrc(title: Option<Text>, data: bytes)
    ensures EncStart(title).useCrc ==> Started(title, data).crc == Crc24Reference.Checksum(data)
  {
    Crc24Reference.SumIsChecksum(data);
  }

  function TitleText(title: Option<Text>): Option<string> { if title.None? then None else Some(Chars(title.value)) }

  lemma Framed(h: Text, b: Text, f: Text)
    ensures Chars(h + b + f) == Chars(h) + Chars(b) + Chars(f)
  {
    CharsJoin(h, b);
    CharsJoin(h + b, f);
  }

  lemma NoTitleText(title: Option<Text>, data: bytes)
    requires data != [] && (title.None? || title.value == [])
    ensures Chars(EncFinish(EncWrite(EncStart(title), data))) == Armor(TitleText(title), data)
  {
    var f := PushAll(Started(title, data), data);
    FinishedText(title, data);
    BodyText(f, data, [Crc24.ByteOf(f.crc, 2), Crc24.ByteOf(f.crc, 1), Crc24.ByteOf(f.crc, 0)]);
    Framed([], Body(f), []);
    Markers();
    assert "" + Chars(Body(f)) + "" == Chars(Body(f));
    assert Folded(Radix(data)) + "" == Folded(Radix(data));
  }

  lemma TitleTextIs(t: Text, data: bytes)
    requires data != [] && t != []
    ensures Chars(EncFinish(EncWrite(EncStart(Some(t)), data))) == Armor(Some(Chars(t)), data)
  {
    var title := Some(t);
    var f := PushAll(Started(title, data), data);
    var o := [Crc24.ByteOf(f.crc, 2), Crc24.ByteOf(f.crc, 1), Crc24.ByteOf(f.crc, 0)];
    FinishedText(title, data);
    StartedCrc(title, data);
    BodyText(f, data, o);
    ForPgp(t);
    HeaderText(EncStart(title), t);
    FooterText(f, t);
    Framed(Header(EncStart(title)), Body(f), Footer(f));
    Assembled(f.useCrc, f.crc, o, Chars(t), data, Chars(Header(EncStart(title))), Chars(Body(f)), Chars(Footer(f)));
  }

  lemma Assembled(pgp: bool, crc: bv32, o: bytes, t: string, data: bytes, h: string, b: string, f: string)
    requires t != "" && (pgp <==> "PGP " <= t) && (pgp ==> crc == Crc24Reference.Checksum(data))
    requires o == [Crc24.ByteOf(crc, 2), Crc24.ByteOf(crc, 1), Crc24.ByteOf(crc, 0)]
    requires h == "-----BEGIN " + t + "-----\n" + (if pgp then "\n" else "") && f == "-----END " + t + "-----\n"
    requires b == Folded(Radix(data)) + (if pgp then "=" + Radix(o) + "\n" else "")
    ensures h + b + f == Armor(Some(t), data)
  {
    if pgp {
      CrcOctets(crc, data);
    }
    Regrouped(h, Folded(Radix(data)), if pgp then "=" + Radix(o) + "\n" else "", "-----END ", t, "-----\n");
  }

  lemma Regrouped(h: string, x: string, y: string, u: string, v: string, w: string)
    ensures h + (x + y) + (u + v + w) == h + x + y + u + v + w
  {
  }

  /** Whatever the writes, the text is the armor of all the data, and nothing if there is none. */
  lemma ArmorText(title: Option<Text>, chunks: seq<bytes>)
    ensures Chars(EncFinish(WriteChunks(EncStart(title), chunks))) ==
              if Concat(chunks) == [] then "" else Armor(TitleText(title), Concat(chunks))
  {
    var data := Concat(chunks);
    EncoderChunking(EncStart(title), chunks);
    if data == [] {
      Markers();
    } else if title.None? || title.value == [] {
      NoTitleText(title, data);
    } else {
      TitleTextIs(title.value, data);
    }
  }
}

/** What the decoder makes of any text. */
module Base64Reading {
  import opened Wrappers
  import opened Octets
  import opened Base64
  import opened Base64Format

  predicate IsLetter(c: byte) { c as char in Letters }

  predicate IsBlank(c: byte) { c as char in " \t\r\n" }

  /** The position of a letter in the alphabet. */
  ghost function Position(c: byte): (v: byte)
    requires IsLetter(c)
    ensures v < |Letters| && Letters[v] == c as char
  {
    assert |Letters| == 64;
    var v :| 0 <= v < |Letters| && Letters[v] == c as char;
    v
  }

  /** The positions of the letters of a text. */
  ghost function Sextets(text: Text): seq<byte> {
    if text == [] then []
    else
      var pre, c := Sextets(text[..|text| - 1]), text[|text| - 1];
      if IsLetter(c) then pre + [Position(c)] else pre
  }

  /** Octet j of the data: four sextets hold three octets. */
  function OctetAt(vs: seq<byte>, j: nat): byte
    requires (forall i | 0 <= i < |vs| :: vs[i] < 64) && j < |vs| * 3 / 4
  {
    var i := j / 3 * 4;
    if j % 3 == 0 then vs[i] * 4 + vs[i + 1] / 16
    else if j % 3 == 1 then vs[i + 1] % 16 * 16 + vs[i + 2] / 4
    else vs[i + 2] % 4 * 64 + vs[i + 3]
  }

  function OctetsOf(vs: seq<byte>): bytes
    requires forall i | 0 <= i < |vs| :: vs[i] < 64
  {
    seq(|vs| * 3 / 4, j requires 0 <= j < |vs| * 3 / 4 => OctetAt(vs, j))
  }

  /** Some character is neither a letter nor white space. */
  predicate Spoiled(text: Text) { exists i :: 0 <= i < |text| && !IsLetter(text[i]) && !IsBlank(text[i]) }

  // ---------------------------------------------------------------------------------
  // The alphabet.

  lemma AscOfBin(c: byte)
    requires Bin(c) != 255
    ensures Bin(c) < 64 && Asc(Bin(c)) == c && c < 128
  {
  }

  /** asctobin knows the alphabet, and nothing else. */
  lemma LetterRead(c: byte)
    ensures IsLetter(c) <==> c < 128 && Bin(c) != 255
    ensures IsLetter(c) ==> Bin(c) == Position(c) < 64
  {
    if IsLetter(c) {
      var v := Position(c);
      assert |Letters| == 64;
      LetterIs(v);
      BinAsc(v);
      assert c == Asc(v);
    }
    if Bin(c) != 255 {
      AscOfBin(c);
      LetterIs(Bin(c));
      assert Letters[Bin(c)] == c as char;
    }
  }

  lemma BlankIs(c: byte)
    ensures IsBlank(c) <==> White(c)
    ensures IsLetter(c) ==> !White(c) && c != PAD && c != DASH
  {
    if IsLetter(c) {
      LetterRead(c);
    }
  }

  lemma {:induction false} SextetsSmall(text: Text)
    ensures forall i | 0 <= i < |Sextets(text)| :: Sextets(text)[i] < 64
  {
    if text != [] {
      SextetsSmall(text[..|text| - 1]);
      var c := text[|text| - 1];
      if IsLetter(c) {
        LetterRead(c);
      }
    }
  }

  // ---------------------------------------------------------------------------------
  // The data.

  /** What is held with r letters of a group, the last one being u. */
  predicate HoldsLast(d: Decoder, u: byte, r: nat) {
    && (r == 0 ==> d.ds == B0)
    && (r == 1 ==> d.ds == B1 && d.val == u % 64 * 4)
    && (r == 2 ==> d.ds == B2 && d.val == u % 16 * 16)
    && (r == 3 ==> d.ds == B3 && d.val == u % 4 * 64)
  }

  predicate Holds(d: Decoder, vs: seq<byte>) { HoldsLast(d, if vs == [] then 0 else vs[|vs| - 1], |vs| % 4) }

  lemma Octet0(vs: seq<byte>, v: byte)
    requires (forall i | 0 <= i < |vs| :: vs[i] < 64) && v < 64 && |vs| % 4 == 0
    ensures OctetsOf(vs + [v]) == OctetsOf(vs)
  {
    assert |vs + [v]| * 3 / 4 == |vs| * 3 / 4;
    OctetsKept(vs, v);
  }

  lemma OctetsKept(vs: seq<byte>, v: byte)
    requires (forall i | 0 <= i < |vs| :: vs[i] < 64) && v < 64
    ensures |vs| * 3 / 4 <= |vs + [v]| * 3 / 4
    ensures forall j | 0 <= j < |vs| * 3 / 4 :: OctetAt(vs + [v], j) == OctetAt(vs, j)
  {
  }

  lemma OctetNext(vs: seq<byte>, v: byte, b: byte)
    requires (forall i | 0 <= i < |vs| :: vs[i] < 64) && v < 64 && |vs| % 4 != 0
    requires b == OctetAt(vs + [v], |vs| * 3 / 4)
    ensures OctetsOf(vs + [v]) == OctetsOf(vs) + [b]
  {
    assert |vs + [v]| * 3 / 4 == |vs| * 3 / 4 + 1;
    OctetsKept(vs, v);
  }

  /** The octet that a further sextet completes. */
  function Completed(u: byte, v: byte, r: nat): byte
    requires u < 64 && v < 64 && 1 <= r <= 3
  {
    if r == 1 then u * 4 + v / 16 else if r == 2 then u % 16 * 16 + v / 4 else u % 4 * 64 + v
  }

  lemma CompletedAt(vs: seq<byte>, v: byte)
    requires (forall i | 0 <= i < |vs| :: vs[i] < 64) && v < 64 && |vs| % 4 != 0
    ensures OctetAt(vs + [v], |vs| * 3 / 4) == Completed(vs[|vs| - 1], v, |vs| % 4)
  {
    var n, j := |vs|, |vs| * 3 / 4;
    var q := n / 4;
    assert n == 4 * q + n % 4 && j == 3 * q + (n % 4 - 1);
    assert j / 3 == q && j % 3 == n % 4 - 1;
  }

  lemma SextetTaken(d: Decoder, u: byte, v: byte, r: nat)
    requires u < 64 && v < 64 && r < 4 && HoldsLast(d, u, r)
    ensures var (d', o) := DecSextet(d, v);
            && HoldsLast(d', v, if r == 3 then 0 else r + 1) && d' == d.(ds := d'.ds, val := d'.val)
            && o == if r == 0 then [] else [Completed(u, v, r)]
  {
    Merged(u, v);
  }

  lemma OctetsTaken(vs: seq<byte>, v: byte, o: bytes)
    requires (forall i | 0 <= i < |vs| :: vs[i] < 64) && v < 64
    requires o == if |vs| % 4 == 0 then [] else [Completed(vs[|vs| - 1], v, |vs| % 4)]
    ensures OctetsOf(vs + [v]) == OctetsOf(vs) + o
  {
    if |vs| % 4 == 0 {
      Octet0(vs, v);
      assert OctetsOf(vs) + [] == OctetsOf(vs);
    } else {
      CompletedAt(vs, v);
      OctetNext(vs, v, Completed(vs[|vs| - 1], v, |vs| % 4));
    }
  }

  lemma HeldNext(d: Decoder, vs: seq<byte>, v: byte)
    requires HoldsLast(d, v, if |vs| % 4 == 3 then 0 else |vs| % 4 + 1)
    ensures Holds(d, vs + [v])
  {
    assert (vs + [v])[|vs|] == v;
    assert (|vs| + 1) % 4 == if |vs| % 4 == 3 then 0 else |vs| % 4 + 1;
  }

  lemma SextetStep(d: Decoder, vs: seq<byte>, v: byte)
    requires (forall i | 0 <= i < |vs| :: vs[i] < 64) && v < 64 && Holds(d, vs)
    ensures var (d', o) := DecSextet(d, v);
            && Holds(d', vs + [v]) && OctetsOf(vs + [v]) == OctetsOf(vs) + o
            && d' == d.(ds := d'.ds, val := d'.val)
  {
    SextetTaken(d, if vs == [] then 0 else vs[|vs| - 1], v, |vs| % 4);
    OctetsTaken(vs, v, DecSextet(d, v).1);
    HeldNext(DecSextet(d, v).0, vs, v);
  }

  lemma Merged(u: byte, v: byte)
    requires u < 64 && v < 64
    ensures WithLow(u % 64 * 4, v / 16, 4) == u * 4 + v / 16
    ensures WithLow(u % 16 * 16, v / 4, 16) == u % 16 * 16 + v / 4
    ensures WithLow(u % 4 * 64, v, 64) == u % 4 * 64 + v
  {
  }

  /** In the data: not at the end, and with a title a dash is not part of it. */
  predicate InData(d: Decoder, text: Text) {
    d.ds == B0 && !d.stop && PAD !in text && (d.title ==> DASH !in text)
  }

  lemma LetterStep(d: Decoder, c: byte, vs: seq<byte>)
    requires !d.stop && Holds(d, vs) && c != PAD && (d.title ==> c != DASH)
    ensures var (d', o) := DecStep(d, c);
            && (IsLetter(c) ==> (d', o) == DecSextet(d, Position(c)))
            && (!IsLetter(c) ==> o == [] && d' == d.(invalid := d.invalid || !IsBlank(c)))
  {
    LetterRead(c);
    BlankIs(c);
  }

  lemma SpoiledMore(text: Text, c: byte)
    ensures Spoiled(text + [c]) <==> Spoiled(text) || (!IsLetter(c) && !IsBlank(c))
  {
    var all := text + [c];
    if Spoiled(text) {
      var i :| 0 <= i < |text| && !IsLetter(text[i]) && !IsBlank(text[i]);
      assert all[i] == text[i];
    }
    assert all[|text|] == c;
  }

  /** Whatever the text, the octets are those that its letters stand for, and it is reported as
      invalid exactly if there is something else in it than letters and white space. */
  lemma {:induction false} DataDecoded(d: Decoder, text: Text)
    requires InData(d, text)
    ensures forall i | 0 <= i < |Sextets(text)| :: Sextets(text)[i] < 64
    ensures var (d', o) := Decode(d, text);
            && o == OctetsOf(Sextets(text)) && (d'.invalid <==> d.invalid || Spoiled(text))
            && Holds(d', Sextets(text)) && d'.title == d.title && d'.pos == d.pos && !d'.stop
  {
    SextetsSmall(text);
    if text != [] {
      var pre, c := text[..|text| - 1], text[|text| - 1];
      assert text == pre + [c];
      DataDecoded(d, pre);
      var (d1, o1) := Decode(d, pre);
      LetterStep(d1, c, Sextets(pre));
      SpoiledMore(pre, c);
      if IsLetter(c) {
        LetterRead(c);
        SextetStep(d1, Sextets(pre), Position(c));
      } else {
        assert o1 + [] == o1;
      }
    }
  }

  // ---------------------------------------------------------------------------------
  // The end of the data.

  /** Some line feed comes behind some dash. */
  predicate EndLine(text: Text) { exists i, k :: 0 <= i < k < |text| && text[i] == DASH && text[k] == LF }

  lemma {:induction false} StopsAtLineFeed(d: Decoder, text: Text)
    requires d.ds == WaitEnd && !d.stop
    ensures Decode(d, text) == (d.(stop := LF in text), [])
  {
    if text != [] {
      var pre, c := text[..|text| - 1], text[|text| - 1];
      StopsAtLineFeed(d, pre);
      assert text == pre + [c];
      var none: bytes := [];
      assert none + none == none;
    }
  }

  lemma {:induction false} StopsAtEndLine(d: Decoder, text: Text)
    requires d.ds == WaitEndTitle && !d.stop
    ensures Decode(d, text) == (d.(ds := if DASH in text then WaitEnd else WaitEndTitle, stop := EndLine(text)), [])
  {
    if text != [] {
      var pre, c := text[..|text| - 1], text[|text| - 1];
      StopsAtEndLine(d, pre);
      assert text == pre + [c];
      EndLineMore(pre, c);
      var none: bytes := [];
      assert none + none == none;
    }
  }

  lemma EndLineMore(pre: Text, c: byte)
    ensures EndLine(pre + [c]) <==> EndLine(pre) || (DASH in pre && c == LF)
  {
    var text := pre + [c];
    if EndLine(pre) {
      var i, k :| 0 <= i < k < |pre| && pre[i] == DASH && pre[k] == LF;
      assert text[i] == DASH && text[k] == LF;
    }
    if DASH in pre && c == LF {
      var i :| 0 <= i < |pre| && pre[i] == DASH;
      assert text[i] == DASH && text[|pre|] == LF;
    }
    if EndLine(text) {
      var i, k :| 0 <= i < k < |text| && text[i] == DASH && text[k] == LF;
      assert pre[i] == DASH;
      assert k < |pre| ==> pre[k] == LF;
    }
  }

  /** What a lone letter in front of a pad character gives. */
  ghost function Lone(body: Text): bytes {
    var vs := Sextets(body);
    if |vs| % 4 == 1 then [vs[|vs| - 1] % 64 * 4] else []
  }

  /** A character and what follows it, behind some data. */
  lemma ThenDecoded(d: Decoder, body: Text, c: byte, rest: Text, d1: Decoder, o1: bytes, d2: Decoder, o2: bytes, d3: Decoder)
    requires Decode(d, body) == (d1, o1) && DecStep(d1, c) == (d2, o2) && Decode(d2, rest) == (d3, [])
    ensures Decode(d, body + ([c] + rest)) == (d3, o1 + o2)
  {
    DecodeOne(d1, c);
    DecodeJoined(d1, [c], rest, d2, o2, d3, []);
    assert o2 + [] == o2;
    DecodeJoined(d, body, [c] + rest, d1, o1, d3, o2);
  }

  lemma PadStep(d: Decoder, vs: seq<byte>)
    requires Holds(d, vs) && !d.stop
    ensures DecStep(d, PAD) == (PadSeen(d), if |vs| % 4 == 1 then [vs[|vs| - 1] % 64 * 4] else [])
  {
  }

  /** The first pad character ends the data, and the rest is not even looked at; the decoder
      stops behind the end line, or, without a title, at the next line feed. */
  lemma PadEnds(d: Decoder, body: Text, rest: Text)
    requires InData(d, body)
    ensures forall i | 0 <= i < |Sextets(body)| :: Sextets(body)[i] < 64
    ensures var (d', o) := Decode(d, body + ([PAD] + rest));
            && o == OctetsOf(Sextets(body)) + Lone(body) && (d'.invalid <==> d.invalid || Spoiled(body))
            && (d'.stop <==> if d.title then EndLine(rest) else LF in rest)
  {
    DataDecoded(d, body);
    var (d1, o1) := Decode(d, body);
    var d2 := PadSeen(d1);
    PadStep(d1, Sextets(body));
    if d.title {
      StopsAtEndLine(d2, rest);
    } else {
      StopsAtLineFeed(d2, rest);
    }
    ThenDecoded(d, body, PAD, rest, d1, o1, d2, Lone(body), Decode(d2, rest).0);
  }

  lemma DashStep(d: Decoder, vs: seq<byte>)
    requires Holds(d, vs) && !d.stop && d.title
    ensures DecStep(d, DASH) == (d.(ds := WaitEnd), [])
  {
  }

  /** With a title, so does the first dash. */
  lemma DashEnds(d: Decoder, body: Text, rest: Text)
    requires InData(d, body) && d.title
    ensures forall i | 0 <= i < |Sextets(body)| :: Sextets(body)[i] < 64
    ensures var (d', o) := Decode(d, body + ([DASH] + rest));
            && o == OctetsOf(Sextets(body)) && (d'.invalid <==> d.invalid || Spoiled(body)) && (d'.stop <==> LF in rest)
  {
    DataDecoded(d, body);
    var (d1, o1) := Decode(d, body);
    var d2 := d1.(ds := WaitEnd);
    DashStep(d1, Sextets(body));
    StopsAtLineFeed(d2, rest);
    ThenDecoded(d, body, DASH, rest, d1, o1, d2, [], Decode(d2, rest).0);
    assert o1 + [] == o1;
  }

  // ---------------------------------------------------------------------------------
  // The lines in front of the data.

  /** At the start of a line in front of the data. */
  predicate AtLine(d: Decoder) { (d.ds == Init || d.ds == LfSeen) && d.pos == 0 && !d.stop }

  lemma {:induction false} Matched(d: Decoder, k: nat)
    requires AtLine(d) && 1 <= k <= 11
    ensures Decode(d, BEGIN[..k]) == (if k == 11 then d.(ds := Begin, pos := 10) else d.(ds := LfSeen, pos := k), [])
  {
    if k == 1 {
      assert BEGIN[..1] == [DASH];
      DecodeOne(d, DASH);
    } else {
      Matched(d, k - 1);
      assert BEGIN[..k] == BEGIN[..k - 1] + [BEGIN[k - 1]];
      DecodeLast(d, BEGIN[..k - 1], BEGIN[k - 1], d.(ds := LfSeen, pos := k - 1),
                 if k == 11 then d.(ds := Begin, pos := 10) else d.(ds := LfSeen, pos := k));
    }
  }

  lemma {:induction false} IdleSkips(d: Decoder, text: Text)
    requires d.ds == Idle && !d.stop && LF !in text
    ensures Decode(d, text) == (d, [])
  {
    if text != [] {
      IdleSkips(d, text[..|text| - 1]);
      var none: bytes := [];
      assert none + none == none;
    }
  }

  /** How much of a line agrees with the start of a begin line. */
  function Agreed(line: Text, k: nat): (n: nat)
    requires k <= 11 && k <= |line| && line[..k] == BEGIN[..k]
    ensures k <= n <= 11 && n <= |line| && line[..n] == BEGIN[..n]
    ensures n < 11 && n < |line| ==> line[n] != BEGIN[n]
    decreases 11 - k
  {
    if k < 11 && k < |line| && line[k] == BEGIN[k] then
      assert line[..k + 1] == line[..k] + [line[k]] && BEGIN[..k + 1] == BEGIN[..k] + [BEGIN[k]];
      Agreed(line, k + 1)
    else k
  }

  /** The state at a position where k characters have agreed. */
  function After(d: Decoder, k: nat): Decoder {
    if k == 0 then d else if k < 11 then d.(ds := LfSeen, pos := k) else d.(ds := Begin, pos := 10)
  }

  lemma MatchedOr(d: Decoder, k: nat)
    requires AtLine(d) && k <= 11
    ensures Decode(d, BEGIN[..k]) == (After(d, k), [])
  {
    if k > 0 {
      Matched(d, k);
    }
  }

  lemma Differs(d: Decoder, k: nat, c: byte)
    requires AtLine(d) && k < 11 && c != BEGIN[k]
    ensures DecStep(After(d, k), c) == (d.(ds := Idle, pos := k), [])
  {
  }

  lemma Silent(d: Decoder, a: Text, b: Text, d1: Decoder, d2: Decoder)
    requires Decode(d, a) == (d1, []) && Decode(d1, b) == (d2, [])
    ensures Decode(d, a + b) == (d2, [])
  {
    DecodeAppend(d, a, b);
    var none: bytes := [];
    assert none + none == none;
  }

  /** A begin line leads into the data. */
  lemma BeginLine(d: Decoder, line: Text)
    requires AtLine(d) && LF !in line && BEGIN <= line
    ensures Decode(d, line + [LF]) == (d.(ds := B0, pos := 10), [])
  {
    var d1 := d.(ds := Begin, pos := 10);
    assert BEGIN[..11] == BEGIN && line == BEGIN + line[11..];
    MatchedOr(d, 11);
    BeginSkips(d1, line[11..]);
    Silent(d, BEGIN, line[11..], d1, d1);
    DecodeOne(d1, LF);
    Silent(d, line, [LF], d1, d1.(ds := B0));
  }

  lemma NoLineFeed(k: nat)
    requires k < 11
    ensures BEGIN[k] != LF
  {
  }

  /** A line that ends before it differs from a begin line: its line feed is the difference, and
      the next line is passed over. */
  lemma ShortLine(d: Decoder, line: Text)
    requires AtLine(d) && line <= BEGIN && line != BEGIN
    ensures Decode(d, line + [LF]) == (d.(ds := Idle, pos := |line|), [])
  {
    var k := |line|;
    assert line == BEGIN[..k];
    NoLineFeed(k);
    MatchedOr(d, k);
    Differs(d, k, LF);
    DecodeOne(After(d, k), LF);
    Silent(d, line, [LF], After(d, k), d.(ds := Idle, pos := k));
  }

  /** Any other line is passed over. */
  lemma OtherLine(d: Decoder, line: Text)
    requires AtLine(d) && LF !in line && !(BEGIN <= line) && !(line <= BEGIN)
    ensures Decode(d, line + [LF]) == (d.(ds := LfSeen, pos := 0), [])
  {
    var k := Agreed(line, 0);
    assert BEGIN[..11] == BEGIN;
    assert k < 11 && k < |line|;
    var d1, front, back := d.(ds := Idle, pos := k), line[..k], line[k + 1..];
    assert line == (front + [line[k]]) + back;
    MatchedOr(d, k);
    Differs(d, k, line[k]);
    DecodeOne(After(d, k), line[k]);
    Silent(d, front, [line[k]], After(d, k), d1);
    IdleSkips(d1, back);
    Silent(d, front + [line[k]], back, d1, d1);
    DecodeOne(d1, LF);
    Silent(d, line, [LF], d1, d.(ds := LfSeen, pos := 0));
  }

  lemma IdleLine(d: Decoder, line: Text)
    requires d.ds == Idle && !d.stop && LF !in line
    ensures Decode(d, line + [LF]) == (d.(ds := LfSeen, pos := 0), [])
  {
    IdleSkips(d, line);
    DecodeOne(d, LF);
    Silent(d, line, [LF], d, d.(ds := LfSeen, pos := 0));
  }

  /** Behind a line that is no begin line, a begin line is recognised if and only if that line is
      not the start of one itself, for example a blank line. */
  lemma BeginSeenIff(d: Decoder, line: Text, begin: Text)
    requires AtLine(d) && LF !in line && !(BEGIN <= line) && LF !in begin && BEGIN <= begin
    ensures var (d', o) := Decode(d, (line + [LF]) + (begin + [LF]));
            o == [] && d'.ds == if line <= BEGIN then LfSeen else B0
  {
    if line <= BEGIN {
      var d1 := d.(ds := Idle, pos := |line|);
      ShortLine(d, line);
      IdleLine(d1, begin);
      Silent(d, line + [LF], begin + [LF], d1, d.(ds := LfSeen, pos := 0));
    } else {
      var d1 := d.(ds := LfSeen, pos := 0);
      OtherLine(d, line);
      BeginLine(d1, begin);
      Silent(d, line + [LF], begin + [LF], d1, d1.(ds := B0, pos := 10));
    }
  }

  function Joined(lines: seq<Text>): Text {
    if lines == [] then [] else Joined(lines[..|lines| - 1]) + (lines[|lines| - 1] + [LF])
  }

  /** A line that neither is a begin line nor could become one. */
  predicate Passed(line: Text) { LF !in line && !(BEGIN <= line) && !(line <= BEGIN) }

  lemma {:induction false} LinesPassed(d: Decoder, lines: seq<Text>)
    requires AtLine(d) && forall i | 0 <= i < |lines| :: Passed(lines[i])
    ensures Decode(d, Joined(lines)).1 == [] && AtLine(Decode(d, Joined(lines)).0)
    ensures Decode(d, Joined(lines)).0.title == d.title && Decode(d, Joined(lines)).0.invalid == d.invalid
  {
    if lines != [] {
      var pre, line := lines[..|lines| - 1], lines[|lines| - 1];
      LinesPassed(d, pre);
      var d1 := Decode(d, Joined(pre)).0;
      assert Passed(line);
      OtherLine(d1, line);
      Silent(d, Joined(pre), line + [LF], d1, d1.(ds := LfSeen, pos := 0));
    }
  }

  /** A decoder with a title passes over the lines in front of the begin line, gives the octets
      that the letters behind it stand for, and stops behind the line that starts with a dash. */
  lemma ArmorRead(title: Text, d: Decoder, lines: seq<Text>, begin: Text, body: Text, rest: Text)
    requires DecStart(Some(title)) == Some(d) && forall i | 0 <= i < |lines| :: Passed(lines[i])
    requires LF !in begin && BEGIN <= begin && PAD !in body && DASH !in body
    ensures forall i | 0 <= i < |Sextets(body)| :: Sextets(body)[i] < 64
    ensures var (d', o) := Decode(d, (Joined(lines) + (begin + [LF])) + (body + ([DASH] + rest)));
            && o == OctetsOf(Sextets(body)) && (d'.invalid <==> Spoiled(body)) && (d'.stop <==> LF in rest)
  {
    LinesPassed(d, lines);
    var d1 := Decode(d, Joined(lines)).0;
    BeginLine(d1, begin);
    var d2 := d1.(ds := B0, pos := 10);
    Silent(d, Joined(lines), begin + [LF], d1, d2);
    DashEnds(d2, body, rest);
    var (d3, o) := Decode(d2, body + ([DASH] + rest));
    DecodeJoined(d, Joined(lines) + (begin + [LF]), body + ([DASH] + rest), d2, [], d3, o);
    assert [] + o == o;
  }

  /** A decoder without one takes everything for data. */
  lemma PlainRead(d: Decoder, text: Text)
    requires DecStart(None) == Some(d) && PAD !in text
    ensures forall i | 0 <= i < |Sextets(text)| :: Sextets(text)[i] < 64
    ensures Decode(d, text).1 == OctetsOf(Sextets(text)) && (Decode(d, text).0.invalid <==> Spoiled(text))
  {
    DataDecoded(d, text);
  }

  /** The refusal of titles for OpenPGP armor. */
  lemma StartRefused(title: Option<Text>)
    ensures DecStart(title).None? <==>
              title.Some? && (Chars(title.value) == "PGP" || "PGP " <= Chars(title.value))
  {
    if title.Some? {
      var t, c := title.value, Chars(title.value);
      if |t| >= 3 {
        assert t[..3] == [t[0], t[1], t[2]] && c[..3] == [c[0], c[1], c[2]];
      }
      if |t| == 3 {
        assert c == c[..3];
      }
      if |t| >= 4 {
        assert c[..4] == c[..3] + [c[3]];
        assert "PGP " == "PGP" + " ";
      }
    }
  }
}
