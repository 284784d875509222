/** The checksum of the OpenPGP armor (section 6.1 of RFC 4880), as b64enc.c computes it. */
module Crc24 {
  import opened Octets

  const INIT: bv32 := 0xB704CE
  const POLY: bv32 := 0x864CFB

  /** One entry of the table from the one of half its index. */
  function Entry(t: bv32, odd: bool): bv32 {
    if t & 0x00800000 != 0 then if odd then t << 1 else (t << 1) ^ POLY
    else if odd then (t << 1) ^ POLY else t << 1
  }

  /** The table crc_table for an index below 256, computed by the recurrence that generated it. */
  function Table(i: bv32): bv32
    decreases i
  {
    if i == 0 then 0 else Entry(Table(i >> 1), i & 1 != 0)
  }

  function Index(crc: bv32, b: bv32): bv32 { ((crc >> 16) & 0xff) ^ b }

  function Mix(crc: bv32, entry: bv32): bv32 { (crc << 8) ^ entry }

  function Update(crc: bv32, b: bv32): bv32 {
    Mix(crc, Table(Index(crc, b)))
  }

  /** The running value after some bytes; within one write it is not cut to 24 bits. */
  function Run(crc: bv32, data: seq<byte>): bv32 {
    if data == [] then crc else Update(Run(crc, data[..|data| - 1]), AsWord(data[|data| - 1]))
  }

  function Low(crc: bv32): bv32 { crc & 0x00ffffff }

  /** The value as it is kept between writes. */
  function Sum(crc: bv32, data: seq<byte>): bv32 { Low(Run(crc, data)) }

  /** Byte k of the sum, from the lowest. */
  function ByteOf(crc: bv32, k: nat): byte
    requires k < 3
  {
    if k == 0 then ((crc & 0xff) as bv8) as byte
    else if k == 1 then (((crc >> 8) & 0xff) as bv8) as byte
    else (((crc >> 16) & 0xff) as bv8) as byte
  }

  lemma LowIndex(x: bv32, y: bv32, b: bv32)
    requires Low(x) == Low(y)
    ensures Index(x, b) == Index(y, b)
  {
  }

  lemma LowMix(x: bv32, y: bv32, entry: bv32)
    requires Low(x) == Low(y)
    ensures Low(Mix(x, entry)) == Low(Mix(y, entry))
  {
  }

  lemma LowTwice(x: bv32)
    ensures Low(Low(x)) == Low(x)
  {
  }

  /** Only the low 24 bits of the running value matter. */
  lemma UpdateLow(x: bv32, y: bv32, b: bv32)
    requires Low(x) == Low(y)
    ensures Low(Update(x, b)) == Low(Update(y, b))
  {
    LowIndex(x, y, b);
    LowMix(x, y, Table(Index(x, b)));
  }

  /** So it is harmless that the value is cut between writes and not within one. */
  lemma {:induction false} SumAppend(crc: bv32, a: seq<byte>, b: seq<byte>)
    ensures Sum(Sum(crc, a), b) == Sum(crc, a + b)
  {
    if b == [] {
      assert a + b == a;
      LowTwice(Run(crc, a));
    } else {
      var b' := b[..|b| - 1];
      assert (a + b)[..|a + b| - 1] == a + b';
      SumAppend(crc, a, b');
      UpdateLow(Run(Sum(crc, a), b'), Run(crc, a + b'), AsWord(b[|b| - 1]));
    }
  }
}

/** The streaming Base64 encoder and decoder of cns/gnupg-2.0.22/common (b64enc.c, b64dec.c). */
module Base64 {
  import opened Octets
  import opened Crc24

  type Text = seq<byte>

  import opened Wrappers

  const LF: byte := 10
  const DASH: byte := 45
  const PAD: byte := 61

  const DASHES: Text := [45, 45, 45, 45, 45]                        // "-----"
  const BEGIN: Text := [45, 45, 45, 45, 45, 66, 69, 71, 73, 78, 32]  // "-----BEGIN "
  const END: Text := [45, 45, 45, 45, 45, 69, 78, 68, 32]            // "-----END "
  const PGP: Text := [80, 71, 80]                                    // "PGP"

  /** The table bintoasc: A-Z, a-z, 0-9, + and /. */
  function Asc(v: byte): byte
    requires v < 64
  {
    if v < 26 then v + 65 else if v < 52 then v + 71 else if v < 62 then v - 4 else if v == 62 then 43 else 47
  }

  /** The table asctobin, with 255 for characters outside of the alphabet. */
  function Bin(c: byte): byte {
    if 65 <= c <= 90 then c - 65
    else if 97 <= c <= 122 then c - 71
    else if 48 <= c <= 57 then c + 4
    else if c == 43 then 62
    else if c == 47 then 63
    else 255
  }

  lemma BinAsc(v: byte)
    requires v < 64
    ensures Bin(Asc(v)) == v && Asc(v) < 128
    ensures Asc(v) != DASH && Asc(v) != PAD && !White(Asc(v))
  {
  }

  predicate White(c: byte) { c == LF || c == 32 || c == 13 || c == 9 }

  // The shifts and masks of the source, on numbers.
  function Sextet0(a: byte): (v: byte) ensures v < 64 { a / 4 }
  function Sextet1(a: byte, b: byte): (v: byte) ensures v < 64 { a % 4 * 16 + b / 16 }
  function Sextet2(b: byte, c: byte): (v: byte) ensures v < 64 { b % 16 * 4 + c / 64 }
  function Sextet3(c: byte): (v: byte) ensures v < 64 { c % 64 }

  function Quad(a: byte, b: byte, c: byte): Text {
    [Asc(Sextet0(a)), Asc(Sextet1(a, b)), Asc(Sextet2(b, c)), Asc(Sextet3(c))]
  }

  // ---------------------------------------------------------------------------------
  // The encoder: its state, and the text written so far.

  datatype Encoder = Encoder(title: Option<Text>, didHeader: bool, noLinefeeds: bool, useCrc: bool,
                             rad: seq<byte>, quads: nat, crc: bv32, out: Text)

  function EncStart(title: Option<Text>): Encoder {
    if title.Some? && title.value == [] then Encoder(None, false, true, false, [], 0, 0, [])
    else
      var pgp := title.Some? && PGP + [32] <= title.value;
      Encoder(title, false, false, pgp, [], 0, if pgp then Crc24.INIT else 0, [])
  }

  function Header(e: Encoder): Text {
    if e.title.None? then [] else BEGIN + e.title.value + DASHES + [LF] + if e.useCrc then [LF] else []
  }

  function Footer(e: Encoder): Text {
    if e.title.None? then [] else END + e.title.value + DASHES + [LF]
  }

  function Linefeed(e: Encoder): Text {
    if e.noLinefeeds then [] else [LF]
  }

  /** A finished group of four characters, and a new line after sixteen of them. */
  function PutQuad(e: Encoder, quad: Text): Encoder {
    if e.quads + 1 >= 16 then e.(rad := [], quads := 0, out := e.out + quad + Linefeed(e))
    else e.(rad := [], quads := e.quads + 1, out := e.out + quad)
  }

  function Push(e: Encoder, b: byte): Encoder {
    if |e.rad| == 2 then PutQuad(e, Quad(e.rad[0], e.rad[1], b)) else e.(rad := e.rad + [b])
  }

  function PushAll(e: Encoder, data: seq<byte>): Encoder {
    if data == [] then e else Push(PushAll(e, data[..|data| - 1]), data[|data| - 1])
  }

  /** What happens before the bytes of a write are encoded. */
  function Open(e: Encoder, data: seq<byte>): Encoder {
    e.(didHeader := true,
       out := if e.didHeader then e.out else e.out + Header(e),
       crc := if e.useCrc then Sum(e.crc, data) else e.crc)
  }

  function EncWrite(e: Encoder, data: seq<byte>): Encoder {
    if data == [] then e else PushAll(Open(e, data), data)
  }

  /** The last group, for one or two bytes left over. */
  function Padded(rad: seq<byte>): Text
    requires 1 <= |rad| <= 2
  {
    if |rad| == 1 then [Asc(Sextet0(rad[0])), Asc(Sextet1(rad[0], 0)), PAD, PAD]
    else [Asc(Sextet0(rad[0])), Asc(Sextet1(rad[0], rad[1])), Asc(Sextet2(rad[1], 0)), PAD]
  }

  function Flushed(e: Encoder): Encoder {
    if 1 <= |e.rad| <= 2 then PutQuad(e, Padded(e.rad)) else e
  }

  function CrcLine(e: Encoder): Text {
    if e.useCrc then
      [PAD] + Quad(ByteOf(e.crc, 2), ByteOf(e.crc, 1), ByteOf(e.crc, 0)) + Linefeed(e)
    else []
  }

  /** What is written behind the data when `quads` groups stand on the last line. */
  function Tail(e: Encoder, quads: nat): Text {
    (if quads > 0 then Linefeed(e) else []) + CrcLine(e) + Footer(e)
  }

  /** The whole text, when no more is written. */
  function EncFinish(e: Encoder): Text {
    if !e.didHeader then e.out else Flushed(e).out + Tail(e, Flushed(e).quads)
  }

  // ---------------------------------------------------------------------------------
  // The decoder.

  datatype DecoderState = Init | Idle | LfSeen | Begin | B0 | B1 | B2 | B3 | WaitEndTitle | WaitEnd

  datatype Decoder = Decoder(ds: DecoderState, val: byte, pos: nat, title: bool, stop: bool, invalid: bool)

  /** None when the title asks for OpenPGP armor, which is not implemented. */
  function DecStart(title: Option<Text>): Option<Decoder> {
    if title.None? then Some(Decoder(B0, 0, 0, false, false, false))
    else if PGP <= title.value && (|title.value| == 3 || title.value[3] == 32) then None
    else Some(Decoder(Init, 0, 0, true, false, false))
  }

  /** One character of Base64 data. */
  function DecData(d: Decoder, c: byte): (Decoder, seq<byte>) {
    if c == DASH && d.title then (d.(ds := WaitEnd), [])
    else if c == PAD then
      (d.(ds := if d.title then WaitEndTitle else WaitEnd), if d.ds == B1 then [d.val] else [])
    else if White(c) then (d, [])
    else if c >= 128 || Bin(c) == 255 then (d.(invalid := true), [])
    else DecSextet(d, Bin(c))
  }

  /** val |= x, where x is below m and the bits of val below m are clear. */
  function WithLow(val: byte, x: nat, m: nat): byte
    requires (m == 4 || m == 16 || m == 64) && x < m
  {
    val / m * m + x
  }

  function DecSextet(d: Decoder, v: byte): (Decoder, seq<byte>)
    requires v < 64
  {
    match d.ds
    case B0 => (d.(val := v * 4, ds := B1), [])
    case B1 => (d.(val := v % 16 * 16, ds := B2), [WithLow(d.val, v / 16, 4)])
    case B2 => (d.(val := v % 4 * 64, ds := B3), [WithLow(d.val, v / 4, 16)])
    case _ => (d.(val := WithLow(d.val, v, 64), ds := B0), [WithLow(d.val, v, 64)])
  }

  /** One character of input; after the end has been seen the rest is ignored. */
  function DecStep(d: Decoder, c: byte): (Decoder, seq<byte>) {
    if d.stop then (d, [])
    else
      match d.ds
      case Idle => (if c == LF then d.(ds := LfSeen, pos := 0) else d, [])
      case Begin => (if c == LF then d.(ds := B0) else d, [])
      case WaitEndTitle => (if c == DASH then d.(ds := WaitEnd) else d, [])
      case WaitEnd => (if c == LF then d.(stop := true) else d, [])
      case Init => DecBegin(d, c)
      case LfSeen => DecBegin(d, c)
      case _ => DecData(d, c)
  }

  /** Matching the begin line; Init falls through to here. */
  function DecBegin(d: Decoder, c: byte): (Decoder, seq<byte>) {
    if d.pos >= 11 || c != BEGIN[d.pos] then (d.(ds := Idle), [])
    else if d.pos == 10 then (d.(ds := Begin), [])
    else (d.(ds := LfSeen, pos := d.pos + 1), [])
  }

  function Decode(d: Decoder, text: Text): (Decoder, seq<byte>) {
    if text == [] then (d, [])
    else
      var (d1, o1) := Decode(d, text[..|text| - 1]);
      var (d2, o2) := DecStep(d1, text[|text| - 1]);
      (d2, o1 + o2)
  }

  lemma {:induction false} DecodeAppend(d: Decoder, a: Text, b: Text)
    ensures Decode(d, a + b) ==
              var (d1, o1) := Decode(d, a); var (d2, o2) := Decode(d1, b); (d2, o1 + o2)
  {
    if b == [] {
      assert a + b == a;
      var (d1, o1) := Decode(d, a);
      assert o1 + [] == o1;
    } else {
      var b' := b[..|b| - 1];
      assert (a + b)[..|a + b| - 1] == a + b';
      DecodeAppend(d, a, b');
      var (d1, o1) := Decode(d, a);
      var (d2, o2) := Decode(d1, b');
      var (d3, o3) := DecStep(d2, b[|b| - 1]);
      assert (o1 + o2) + o3 == o1 + (o2 + o3);
    }
  }

  lemma {:induction false} PushAppend(e: Encoder, a: seq<byte>, b: seq<byte>)
    ensures PushAll(e, a + b) == PushAll(PushAll(e, a), b)
  {
    if b == [] {
      assert a + b == a;
    } else {
      assert (a + b)[..|a + b| - 1] == a + b[..|b| - 1];
      PushAppend(e, a, b[..|b| - 1]);
    }
  }

  // ---------------------------------------------------------------------------------
  // Chunking does not matter.

  function Concat(chunks: seq<seq<byte>>): seq<byte> {
    if chunks == [] then [] else Concat(chunks[..|chunks| - 1]) + chunks[|chunks| - 1]
  }

  function WriteChunks(e: Encoder, chunks: seq<seq<byte>>): Encoder {
    if chunks == [] then e else EncWrite(WriteChunks(e, chunks[..|chunks| - 1]), chunks[|chunks| - 1])
  }

  /** The bytes out of a sequence of decoder calls.  A call after the end has been seen
      returns an error and no bytes. */
  function DecodeChunks(d: Decoder, chunks: seq<Text>): (Decoder, seq<byte>) {
    if chunks == [] then (d, [])
    else
      var (d1, o1) := DecodeChunks(d, chunks[..|chunks| - 1]);
      if d1.stop then (d1, o1)
      else
        var (d2, o2) := Decode(d1, chunks[|chunks| - 1]);
        (d2, o1 + o2)
  }

  lemma {:induction false} StoppedIgnores(d: Decoder, text: Text)
    requires d.stop
    ensures Decode(d, text) == (d, [])
  {
    if text != [] {
      StoppedIgnores(d, text[..|text| - 1]);
      var none: seq<byte> := [];
      assert none + none == none;
    }
  }

  lemma {:induction false} DecoderChunking(d: Decoder, chunks: seq<Text>)
    ensures DecodeChunks(d, chunks) == Decode(d, Concat(chunks))
  {
    if chunks != [] {
      var pre, last := chunks[..|chunks| - 1], chunks[|chunks| - 1];
      DecoderChunking(d, pre);
      DecodeAppend(d, Concat(pre), last);
      var (d1, o1) := Decode(d, Concat(pre));
      if d1.stop {
        StoppedIgnores(d1, last);
        assert o1 + [] == o1;
      }
    }
  }

  /** The encoding of the bytes does not look at the CRC or the header flag. */
  lemma {:induction false} PushFrame(e: Encoder, f: Encoder, data: seq<byte>)
    requires f == e.(crc := f.crc)
    ensures PushAll(f, data) == PushAll(e, data).(crc := f.crc)
  {
    if data != [] {
      PushFrame(e, f, data[..|data| - 1]);
    }
  }

  lemma {:induction false} PushKeeps(e: Encoder, data: seq<byte>)
    ensures var f := PushAll(e, data);
            && f.title == e.title && f.didHeader == e.didHeader && f.noLinefeeds == e.noLinefeeds
            && f.useCrc == e.useCrc && f.crc == e.crc
  {
    if data != [] {
      PushKeeps(e, data[..|data| - 1]);
    }
  }

  lemma WriteTwice(e: Encoder, a: seq<byte>, b: seq<byte>)
    ensures EncWrite(EncWrite(e, a), b) == EncWrite(e, a + b)
  {
    if a == [] {
      assert a + b == b;
    } else if b == [] {
      assert a + b == a;
    } else {
      var one, all := Open(e, a), Open(e, a + b);
      SumAppend(e.crc, a, b);
      PushKeeps(one, a);
      PushFrame(one, all, a);
      PushAppend(all, a, b);
      assert Open(PushAll(one, a), b) == PushAll(all, a);
    }
  }

  /** Any split into encoder writes gives the same text, CRC included. */
  lemma {:induction false} EncoderChunking(e: Encoder, chunks: seq<seq<byte>>)
    ensures WriteChunks(e, chunks) == EncWrite(e, Concat(chunks))
  {
    if chunks != [] {
      EncoderChunking(e, chunks[..|chunks| - 1]);
      WriteTwice(e, Concat(chunks[..|chunks| - 1]), chunks[|chunks| - 1]);
    }
  }

  // ---------------------------------------------------------------------------------
  // The round trip.

  /** Ready for the first character of a group. */
  predicate Ready(d: Decoder, title: bool) {
    d.ds == B0 && !d.stop && !d.invalid && d.title == title
  }

  lemma DecodeOne(d: Decoder, c: byte)
    ensures Decode(d, [c]) == DecStep(d, c)
  {
    var (d', o) := DecStep(d, c);
    assert [c][..0] == [] && [] + o == o;
  }

  lemma AscIsData(d: Decoder, v: byte)
    requires v < 64
    ensures DecData(d, Asc(v)) == DecSextet(d, v)
  {
    BinAsc(v);
  }

  /** Decoding in two parts. */
  lemma DecodeTwo(d: Decoder, x: byte, y: byte)
    ensures Decode(d, [x, y]) ==
              var (d1, o1) := DecStep(d, x); var (d2, o2) := DecStep(d1, y); (d2, o1 + o2)
  {
    assert [x, y] == [x] + [y];
    DecodeAppend(d, [x], [y]);
    DecodeOne(d, x);
    DecodeOne(DecStep(d, x).0, y);
  }

  /** Where the bits of three bytes go. */
  lemma SextetBits(a: byte, b: byte, c: byte)
    ensures WithLow(Sextet0(a) * 4, Sextet1(a, b) / 16, 4) == a && Sextet1(a, b) % 16 * 16 == b / 16 * 16
    ensures WithLow(b / 16 * 16, Sextet2(b, c) / 4, 16) == b && Sextet2(b, c) % 4 * 64 == c / 64 * 64
    ensures WithLow(c / 64 * 64, Sextet3(c), 64) == c
  {
  }

  lemma QuadFront(d: Decoder, a: byte, b: byte)
    requires Ready(d, d.title)
    ensures Decode(d, [Asc(Sextet0(a)), Asc(Sextet1(a, b))]) ==
              (d.(ds := B2, val := b / 16 * 16), [a])
  {
    var x, y := Sextet0(a), Sextet1(a, b);
    DecodeTwo(d, Asc(x), Asc(y));
    AscIsData(d, x);
    AscIsData(d.(val := x * 4, ds := B1), y);
    SextetBits(a, b, 0);
    assert [] + [a] == [a];
  }

  lemma QuadBack(d: Decoder, b: byte, c: byte)
    requires d.ds == B2 && !d.stop && d.val == b / 16 * 16
    ensures Decode(d, [Asc(Sextet2(b, c)), Asc(Sextet3(c))]) == (d.(ds := B0, val := c), [b, c])
  {
    var x, y := Sextet2(b, c), Sextet3(c);
    DecodeTwo(d, Asc(x), Asc(y));
    AscIsData(d, x);
    AscIsData(d.(ds := B3, val := x % 4 * 64), y);
    SextetBits(0, b, c);
    assert [b] + [c] == [b, c];
  }

  /** A group of four characters of the alphabet gives back the three bytes it stands for. */
  lemma QuadDecodes(d: Decoder, a: byte, b: byte, c: byte)
    requires Ready(d, d.title)
    ensures Decode(d, Quad(a, b, c)) == (d.(val := c), [a, b, c])
  {
    var front, back := [Asc(Sextet0(a)), Asc(Sextet1(a, b))], [Asc(Sextet2(b, c)), Asc(Sextet3(c))];
    assert Quad(a, b, c) == front + back;
    DecodeAppend(d, front, back);
    QuadFront(d, a, b);
    QuadBack(d.(ds := B2, val := b / 16 * 16), b, c);
    assert [a] + [b, c] == [a, b, c];
  }

  /** The decoder, fed with what has been written, has seen all bytes but those the encoder
      still holds back. */
  predicate Mirrors(d: Decoder, e: Encoder, data: seq<byte>) {
    var (d', o) := Decode(d, e.out);
    Ready(d', d.title) && |e.rad| < 3 && o + e.rad == data
  }

  lemma GroupDecodes(d: Decoder, a: byte, b: byte, c: byte, lf: Text)
    requires Ready(d, d.title) && (lf == [] || lf == [LF])
    ensures Decode(d, Quad(a, b, c) + lf) == (d.(val := c), [a, b, c])
  {
    var d' := d.(val := c);
    QuadDecodes(d, a, b, c);
    DecodeOne(d', LF);
    DecodeAppend(d, Quad(a, b, c), lf);
    assert [a, b, c] + [] == [a, b, c];
  }

  lemma PushMirrors(d: Decoder, e: Encoder, data: seq<byte>, b: byte)
    requires Mirrors(d, e, data)
    ensures Mirrors(d, Push(e, b), data + [b])
  {
    var o := Decode(d, e.out).1;
    if |e.rad| == 2 {
      GroupMirrors(d, e, data, b);
    } else {
      assert o + (e.rad + [b]) == (o + e.rad) + [b];
    }
  }

  /** The third byte completes a group. */
  lemma GroupMirrors(d: Decoder, e: Encoder, data: seq<byte>, b: byte)
    requires Mirrors(d, e, data) && |e.rad| == 2
    ensures Mirrors(d, Push(e, b), data + [b])
  {
    var (d', o) := Decode(d, e.out);
    var x, y := e.rad[0], e.rad[1];
    assert e.rad == [x, y];
    var lf := if e.quads + 1 >= 16 then Linefeed(e) else [];
    GroupDecodes(d', x, y, b, lf);
    DecodeAppend(d, e.out, Quad(x, y, b) + lf);
    PushedGroup(e, x, y, b, lf);
    GroupJoined(o, e.rad, x, y, b, data);
  }

  lemma PushedGroup(e: Encoder, x: byte, y: byte, b: byte, lf: Text)
    requires e.rad == [x, y] && lf == if e.quads + 1 >= 16 then Linefeed(e) else []
    ensures Push(e, b).out == e.out + (Quad(x, y, b) + lf) && Push(e, b).rad == []
  {
    var quad := Quad(x, y, b);
    assert (e.out + quad) + lf == e.out + (quad + lf);
  }

  lemma GroupJoined(o: seq<byte>, rad: seq<byte>, x: byte, y: byte, b: byte, data: seq<byte>)
    requires rad == [x, y] && o + rad == data
    ensures (o + [x, y, b]) + [] == data + [b]
  {
    assert [x, y] + [b] == [x, y, b];
  }

  lemma {:induction false} PushAllMirrors(d: Decoder, e: Encoder, data: seq<byte>, more: seq<byte>)
    requires Mirrors(d, e, data)
    ensures Mirrors(d, PushAll(e, more), data + more)
  {
    if more == [] {
      assert data + more == data;
    } else {
      var pre, last := more[..|more| - 1], more[|more| - 1];
      PushAllMirrors(d, e, data, pre);
      PushMirrors(d, PushAll(e, pre), data + pre, last);
      assert (data + pre) + [last] == data + more;
    }
  }

  /** Reading the begin line. */
  function BeginState(d: Decoder, k: nat): Decoder {
    d.(ds := if k == 0 then Init else if k < 11 then LfSeen else Begin, pos := if k < 11 then k else 10)
  }

  lemma BeginStep(d: Decoder, k: nat)
    requires !d.stop && k < 11
    ensures DecStep(BeginState(d, k), BEGIN[k]) == (BeginState(d, k + 1), [])
  {
  }

  lemma DecodeLast(d: Decoder, text: Text, c: byte, d1: Decoder, d2: Decoder)
    requires Decode(d, text) == (d1, []) && DecStep(d1, c) == (d2, [])
    ensures Decode(d, text + [c]) == (d2, [])
  {
    assert (text + [c])[..|text|] == text;
    var none: seq<byte> := [];
    assert none + none == none;
  }

  lemma {:induction false} BeginDecodes(d: Decoder, k: nat)
    requires d.ds == Init && d.pos == 0 && !d.stop && k <= 11
    ensures Decode(d, BEGIN[..k]) == (BeginState(d, k), [])
  {
    if k > 0 {
      BeginDecodes(d, k - 1);
      BeginStep(d, k - 1);
      DecodeLast(d, BEGIN[..k - 1], BEGIN[k - 1], BeginState(d, k - 1), BeginState(d, k));
      assert BEGIN[..k - 1] + [BEGIN[k - 1]] == BEGIN[..k];
    }
  }

  lemma {:induction false} BeginSkips(d: Decoder, text: Text)
    requires d.ds == Begin && !d.stop && LF !in text
    ensures Decode(d, text) == (d, [])
  {
    if text != [] {
      BeginSkips(d, text[..|text| - 1]);
      var none: seq<byte> := [];
      assert none + none == none;
    }
  }

  predicate Armored(title: Option<Text>) { title.Some? && title.value != [] }

  /** A decoder as b64dec_start makes it: for a text with a begin line it is given some title,
      which it does not compare, and for a text without one it is given none. */
  ghost predicate Fits(d: Decoder, title: Option<Text>) {
    exists t :: DecStart(t) == Some(d) && (t.Some? <==> Armored(title))
  }

  lemma HeaderDecodes(d: Decoder, title: Option<Text>)
    requires Fits(d, title) && (title.Some? ==> LF !in title.value)
    ensures Decode(d, Header(EncStart(title))).1 == [] && Ready(Decode(d, Header(EncStart(title))).0, d.title)
  {
    var e := EncStart(title);
    if Armored(title) {
      var rest, extra := title.value + DASHES, if e.useCrc then [LF] else [];
      assert Header(e) == ((BEGIN + rest) + [LF]) + extra;
      BeginLineDecodes(d, rest);
      var d2 := d.(ds := B0, pos := 10);
      DecodeOne(d2, LF);
      DecodeJoined(d, (BEGIN + rest) + [LF], extra, d2, [], d2, []);
      NothingDecoded([]);
    }
  }

  lemma NothingDecoded(none: seq<byte>)
    requires none == []
    ensures none + none == none
  {
  }

  lemma BeginLineDecodes(d: Decoder, rest: Text)
    requires d.ds == Init && d.pos == 0 && !d.stop && LF !in rest
    ensures Decode(d, (BEGIN + rest) + [LF]) == (d.(ds := B0, pos := 10), [])
  {
    var d1 := d.(ds := Begin, pos := 10);
    assert BEGIN[..11] == BEGIN;
    BeginDecodes(d, 11);
    BeginSkips(d1, rest);
    DecodeJoined(d, BEGIN, rest, d1, [], d1, []);
    DecodeOne(d1, LF);
    NothingDecoded([]);
    DecodeJoined(d, BEGIN + rest, [LF], d1, [], d1.(ds := B0), []);
  }

  predicate Waiting(d: Decoder) { d.ds == WaitEnd || d.ds == WaitEndTitle }

  /** Once a pad character or a dash has been seen, no text can produce bytes or errors. */
  lemma {:induction false} WaitingIsSilent(d: Decoder, text: Text)
    requires Waiting(d)
    ensures var (d', o) := Decode(d, text); o == [] && Waiting(d') && d'.invalid == d.invalid && d'.title == d.title
  {
    if text != [] {
      WaitingIsSilent(d, text[..|text| - 1]);
    }
  }

  /** From the end state, a line feed stops the decoder. */
  lemma WaitEndStops(d: Decoder, text: Text)
    requires d.ds == WaitEnd && text != [] && text[|text| - 1] == LF
    ensures Decode(d, text).0.stop
  {
    StaysAtEnd(d, text[..|text| - 1]);
  }

  lemma {:induction false} StaysAtEnd(d: Decoder, text: Text)
    requires d.ds == WaitEnd
    ensures Decode(d, text).0.ds == WaitEnd
  {
    if text != [] {
      StaysAtEnd(d, text[..|text| - 1]);
    }
  }

  /** The end line: no bytes, and the decoder has stopped behind it. */
  lemma FooterDecodes(d: Decoder, e: Encoder)
    requires e.title.Some? && d.title && (Ready(d, true) || Waiting(d))
    ensures var (d', o) := Decode(d, Footer(e)); o == [] && d'.stop && d'.invalid == d.invalid
  {
    var rest := Footer(e)[1..];
    assert Footer(e) == [DASH] + rest;
    assert rest[|rest| - 1] == LF;
    DecodeAppend(d, [DASH], rest);
    DecodeOne(d, DASH);
    var (d1, o1) := DecStep(d, DASH);
    if d.stop {
      StoppedIgnores(d, Footer(e));
    } else {
      WaitingIsSilent(d1, rest);
      WaitEndStops(d1, rest);
    }
  }

  /** The last group with its padding: the bytes held back come out, and the rest waits. */
  lemma PadOneDecodes(d: Decoder, a: byte)
    requires Ready(d, d.title)
    ensures var (d', o) := Decode(d, Padded([a]));
            o == [a] && Waiting(d') && !d'.invalid && d'.title == d.title
  {
    var front, back := [Asc(Sextet0(a)), Asc(Sextet1(a, 0))], [PAD, PAD];
    var d2 := d.(ds := B2, val := 0);
    assert Padded([a]) == front + back;
    QuadFront(d, a, 0);
    PadsDecode(d2);
    DecodeJoined(d, front, back, d2, [a], PadSeen(d2), []);
    assert [a] + [] == [a];
  }

  /** The decoder behind a pad character. */
  function PadSeen(d: Decoder): Decoder { d.(ds := if d.title then WaitEndTitle else WaitEnd) }

  lemma PadsDecode(d: Decoder)
    requires d.ds == B2 && !d.stop
    ensures Decode(d, [PAD, PAD]) == (PadSeen(d), [])
  {
    DecodeTwo(d, PAD, PAD);
    assert DecStep(d, PAD) == (PadSeen(d), []);
    assert DecStep(PadSeen(d), PAD) == (PadSeen(d), []);
    var none: seq<byte> := [];
    assert none + none == none;
  }

  lemma DecodeJoined(d: Decoder, a: Text, b: Text, d1: Decoder, o1: seq<byte>, d2: Decoder, o2: seq<byte>)
    requires Decode(d, a) == (d1, o1) && Decode(d1, b) == (d2, o2)
    ensures Decode(d, a + b) == (d2, o1 + o2)
  {
    DecodeAppend(d, a, b);
  }

  lemma PadTwoDecodes(d: Decoder, a: byte, b: byte)
    requires Ready(d, d.title)
    ensures var (d', o) := Decode(d, Padded([a, b]));
            o == [a, b] && Waiting(d') && !d'.invalid && d'.title == d.title
  {
    var x := Sextet2(b, 0);
    var front, back := [Asc(Sextet0(a)), Asc(Sextet1(a, b))], [Asc(x), PAD];
    assert Padded([a, b]) == front + back;
    QuadFront(d, a, b);
    var d2 := d.(ds := B2, val := b / 16 * 16);
    var d3 := LastByteDecodes(d2, b);
    DecodeJoined(d, front, back, d2, [a], PadSeen(d3), [b]);
    assert [a] + [b] == [a, b];
  }

  lemma LastByteDecodes(d: Decoder, b: byte) returns (d3: Decoder)
    requires d.ds == B2 && !d.stop && d.val == b / 16 * 16
    ensures Decode(d, [Asc(Sextet2(b, 0)), PAD]) == (PadSeen(d3), [b])
    ensures d3.invalid == d.invalid && d3.title == d.title
  {
    var x := Sextet2(b, 0);
    DecodeTwo(d, Asc(x), PAD);
    AscIsData(d, x);
    SextetBits(0, b, 0);
    d3 := DecStep(d, Asc(x)).0;
    assert DecStep(d3, PAD) == (PadSeen(d3), []);
    assert [b] + [] == [b];
  }

  lemma PaddedDecodes(d: Decoder, rad: seq<byte>)
    requires Ready(d, d.title) && 1 <= |rad| <= 2
    ensures var (d', o) := Decode(d, Padded(rad));
            o == rad && Waiting(d') && !d'.invalid && d'.title == d.title
  {
    if |rad| == 1 {
      assert rad == [rad[0]];
      PadOneDecodes(d, rad[0]);
    } else {
      assert rad == [rad[0], rad[1]];
      PadTwoDecodes(d, rad[0], rad[1]);
    }
  }

  /** After the flush everything has come out. */
  lemma FlushDecodes(d: Decoder, e: Encoder, data: seq<byte>)
    requires Mirrors(d, e, data)
    ensures var (d', o) := Decode(d, Flushed(e).out);
            o == data && !d'.invalid && d'.title == d.title && (Ready(d', d.title) || Waiting(d'))
  {
    var (d1, o1) := Decode(d, e.out);
    if e.rad != [] {
      var quad := Padded(e.rad);
      PaddedDecodes(d1, e.rad);
      DecodeAppend(d, e.out, quad);
      var (d2, o2) := Decode(d1, quad);
      WaitingIsSilent(d2, Linefeed(e));
      DecodeAppend(d, e.out + quad, Linefeed(e));
      assert data + [] == data;
    } else {
      assert o1 + [] == o1;
    }
  }

  /** What follows the data does not produce bytes or errors. */
  lemma TailDecodes(d: Decoder, e: Encoder, quads: nat)
    requires Calm(d, e)
    requires e.useCrc ==> e.title.Some?
    ensures var (d', o) := Decode(d, Tail(e, quads));
            o == [] && !d'.invalid && (e.title.Some? ==> d'.stop)
  {
    var lf := if quads > 0 then Linefeed(e) else [];
    LinefeedIsCalm(d, e, lf);
    CrcIsCalm(Decode(d, lf).0, e);
    DecodeAppend(d, lf, CrcLine(e));
    DecodeAppend(d, lf + CrcLine(e), Footer(e));
    if e.title.Some? {
      FooterDecodes(Decode(d, lf + CrcLine(e)).0, e);
    }
  }

  /** Between two groups, or waiting for the end. */
  predicate Calm(d: Decoder, e: Encoder) {
    !d.invalid && d.title == e.title.Some? && (Ready(d, d.title) || Waiting(d))
  }

  lemma LinefeedIsCalm(d: Decoder, e: Encoder, lf: Text)
    requires Calm(d, e) && (lf == [] || lf == [LF])
    ensures Decode(d, lf).1 == [] && Calm(Decode(d, lf).0, e)
  {
    DecodeOne(d, LF);
  }

  lemma CrcIsCalm(d: Decoder, e: Encoder)
    requires Calm(d, e) && (e.useCrc ==> e.title.Some?)
    ensures Decode(d, CrcLine(e)).1 == [] && Calm(Decode(d, CrcLine(e)).0, e)
  {
    if e.useCrc {
      var rest := CrcLine(e)[1..];
      assert CrcLine(e) == [PAD] + rest;
      DecodeAppend(d, [PAD], rest);
      DecodeOne(d, PAD);
      WaitingIsSilent(DecStep(d, PAD).0, rest);
    }
  }

  lemma WriteMirrors(d: Decoder, title: Option<Text>, data: seq<byte>)
    requires Fits(d, title) && (title.Some? ==> LF !in title.value) && data != []
    ensures Mirrors(d, EncWrite(EncStart(title), data), data)
  {
    var e := Open(EncStart(title), data);
    HeaderDecodes(d, title);
    assert e.out == Header(EncStart(title));
    assert Mirrors(d, e, []);
    PushAllMirrors(d, e, [], data);
    assert [] + data == data;
  }

  /** Decoding what the encoder wrote gives back the bytes, without an encoding error; behind
      an end line the decoder has stopped. */
  lemma RoundTrip(d: Decoder, title: Option<Text>, data: seq<byte>)
    requires Fits(d, title) && (title.Some? ==> LF !in title.value)
    ensures var (d', o) := Decode(d, EncFinish(EncWrite(EncStart(title), data)));
            o == data && !d'.invalid && (data != [] && Armored(title) ==> d'.stop)
  {
    if data != [] {
      var e := EncWrite(EncStart(title), data);
      PushKeeps(Open(EncStart(title), data), data);
      WriteMirrors(d, title, data);
      FlushDecodes(d, e, data);
      var f := Flushed(e);
      TailDecodes(Decode(d, f.out).0, e, f.quads);
      DecodeAppend(d, f.out, Tail(e, f.quads));
      assert data + [] == data;
    }
  }

  /** The round trip under any split into encoder writes and any split into decoder calls. */
  lemma ChunkedRoundTrip(d: Decoder, title: Option<Text>, writes: seq<seq<byte>>, calls: seq<Text>)
    requires Fits(d, title) && (title.Some? ==> LF !in title.value)
    requires Concat(calls) == EncFinish(WriteChunks(EncStart(title), writes))
    ensures DecodeChunks(d, calls).1 == Concat(writes) && !DecodeChunks(d, calls).0.invalid
  {
    EncoderChunking(EncStart(title), writes);
    RoundTrip(d, title, Concat(writes));
    DecoderChunking(d, calls);
  }

  // ---------------------------------------------------------------------------------
  // Line lengths.

  /** The number of characters since the last line feed. */
  function Column(text: Text): nat {
    if text == [] || text[|text| - 1] == LF then 0 else Column(text[..|text| - 1]) + 1
  }

  function Max(a: nat, b: nat): nat { if a < b then b else a }

  function LongestLine(text: Text): nat {
    if text == [] then 0 else Max(LongestLine(text[..|text| - 1]), Column(text))
  }

  lemma {:induction false} Appended(a: Text, b: Text)
    ensures Column(a + b) <= Column(a) + |b|
    ensures LongestLine(a + b) <= Max(LongestLine(a), Column(a) + |b|)
    ensures LF !in b ==> Column(a + b) == Column(a) + |b|
  {
    if b == [] {
      assert a + b == a;
    } else {
      assert (a + b)[..|a + b| - 1] == a + b[..|b| - 1];
      Appended(a, b[..|b| - 1]);
    }
  }

  /** A line feed costs nothing and starts again at column 0. */
  lemma Fed(a: Text)
    ensures Column(a + [LF]) == 0 && LongestLine(a + [LF]) == LongestLine(a)
  {
    assert (a + [LF])[..|a|] == a;
  }

  predicate Lined(e: Encoder) {
    !e.noLinefeeds && e.quads < 16 && Column(e.out) == 4 * e.quads && LongestLine(e.out) <= 64
  }

  lemma QuadLined(e: Encoder, quad: Text)
    requires Lined(e) && |quad| == 4 && LF !in quad
    ensures Lined(PutQuad(e, quad))
  {
    Appended(e.out, quad);
    Fed(e.out + quad);
  }

  lemma QuadIsPlain(a: byte, b: byte, c: byte)
    ensures |Quad(a, b, c)| == 4 && LF !in Quad(a, b, c)
  {
    BinAsc(Sextet0(a));
    BinAsc(Sextet1(a, b));
    BinAsc(Sextet2(b, c));
    BinAsc(Sextet3(c));
  }

  lemma {:induction false} PushLined(e: Encoder, data: seq<byte>)
    requires Lined(e)
    ensures Lined(PushAll(e, data)) && PushAll(e, data).title == e.title
  {
    if data != [] {
      PushLined(e, data[..|data| - 1]);
      var f := PushAll(e, data[..|data| - 1]);
      if |f.rad| == 2 {
        QuadIsPlain(f.rad[0], f.rad[1], data[|data| - 1]);
        QuadLined(f, Quad(f.rad[0], f.rad[1], data[|data| - 1]));
      }
    }
  }

  /** One more line of its own. */
  lemma LineAdded(text: Text, line: Text, limit: nat)
    requires Column(text) == 0 && LongestLine(text) <= limit && |line| <= limit
    ensures Column(text + line + [LF]) == 0 && LongestLine(text + line + [LF]) <= limit
  {
    Appended(text, line);
    Fed(text + line);
  }

  /** The begin line and the blank line, and the end line. */
  lemma FrameLines(e: Encoder)
    requires e.title.Some?
    ensures Column(Header(e)) == 0 && LongestLine(Header(e)) <= |e.title.value| + 16
    ensures Column(Footer(e)) == 0 && LongestLine(Footer(e)) <= |e.title.value| + 14
  {
    var first: Text, last: Text := BEGIN + e.title.value + DASHES, END + e.title.value + DASHES;
    LineAdded([], first, |e.title.value| + 16);
    assert [] + first + [LF] == first + [LF];
    Fed(first + [LF]);
    assert first + [LF] + [] == first + [LF];
    LineAdded([], last, |e.title.value| + 14);
    assert [] + last + [LF] == last + [LF];
  }

  lemma FlushLined(e: Encoder)
    requires Lined(e)
    ensures Lined(Flushed(e))
  {
    if 1 <= |e.rad| <= 2 {
      BinAsc(Sextet0(e.rad[0]));
      BinAsc(Sextet1(e.rad[0], 0));
      if |e.rad| == 2 {
        BinAsc(Sextet1(e.rad[0], e.rad[1]));
        BinAsc(Sextet2(e.rad[1], 0));
      }
      QuadLined(e, Padded(e.rad));
    }
  }

  lemma CrcLined(text: Text, e: Encoder, limit: nat)
    requires Column(text) == 0 && LongestLine(text) <= limit && limit >= 64 && !e.noLinefeeds
    ensures Column(text + CrcLine(e)) == 0 && LongestLine(text + CrcLine(e)) <= limit
  {
    if e.useCrc {
      var line := [PAD] + Quad(ByteOf(e.crc, 2), ByteOf(e.crc, 1), ByteOf(e.crc, 0));
      LineAdded(text, line, limit);
      assert text + CrcLine(e) == text + line + [LF];
    } else {
      assert text + CrcLine(e) == text;
    }
  }

  /** What stands between the header and the footer. */
  function Body(e: Encoder): Text {
    var f := Flushed(e);
    f.out + (if f.quads > 0 then Linefeed(e) else []) + CrcLine(e)
  }

  lemma BodyLined(e: Encoder)
    requires Lined(e)
    ensures Column(Body(e)) == 0 && LongestLine(Body(e)) <= 64
  {
    var f := Flushed(e);
    FlushLined(e);
    var lf := if f.quads > 0 then [LF] else [];
    LastLine(f.out, lf, f.quads);
    CrcLined(f.out + lf, e, 64);
  }

  lemma LastLine(text: Text, lf: Text, quads: nat)
    requires Column(text) == 4 * quads && lf == if quads > 0 then [LF] else []
    ensures Column(text + lf) == 0 && LongestLine(text + lf) == LongestLine(text)
  {
    Fed(text);
    assert quads == 0 ==> text + lf == text;
  }

  lemma Regroup(a: Text, b: Text, c: Text, d: Text)
    ensures a + b + c + d == a + (b + c + d)
  {
  }

  lemma FramedText(h: Text, a: Text, b: Text, c: Text, d: Text)
    ensures (h + a) + (b + c + d) == h + (a + b + c) + d
  {
  }

  /** The encoder with a text in front of everything it has written. */
  function Behind(h: Text, e: Encoder): Encoder { e.(out := h + e.out) }

  lemma QuadBehind(h: Text, e: Encoder, quad: Text)
    ensures PutQuad(Behind(h, e), quad) == Behind(h, PutQuad(e, quad))
  {
    assert (h + e.out) + quad == h + (e.out + quad);
    assert ((h + e.out) + quad) + Linefeed(e) == h + ((e.out + quad) + Linefeed(e));
  }

  /** What stands in front does not matter. */
  lemma {:induction false} PushBehind(h: Text, e: Encoder, data: seq<byte>)
    ensures PushAll(Behind(h, e), data) == Behind(h, PushAll(e, data))
  {
    if data != [] {
      PushBehind(h, e, data[..|data| - 1]);
      var f := PushAll(e, data[..|data| - 1]);
      if |f.rad| == 2 {
        QuadBehind(h, f, Quad(f.rad[0], f.rad[1], data[|data| - 1]));
      }
    }
  }

  lemma FinishBehind(h: Text, e: Encoder)
    requires e.didHeader
    ensures EncFinish(Behind(h, e)) == h + Body(e) + Footer(e)
  {
    var f := Flushed(e);
    if 1 <= |e.rad| <= 2 {
      QuadBehind(h, e, Padded(e.rad));
    }
    FramedText(h, f.out, if f.quads > 0 then Linefeed(e) else [], CrcLine(e), Footer(e));
  }

  /** The text that is encoded, without header and footer. */
  function Encoded(title: Option<Text>, data: seq<byte>): Text {
    Body(PushAll(Open(EncStart(title), data).(out := []), data))
  }

  /** The output is the header, the encoded lines and the footer.  Whatever the title, no encoded
      line and no checksum line is longer than 64 characters; the begin and end lines are as long
      as the title makes them.  An empty title asks for no line feeds at all. */
  lemma LinesAreShort(title: Option<Text>, data: seq<byte>)
    requires title != Some([])
    ensures data == [] ==> EncFinish(EncWrite(EncStart(title), data)) == []
    ensures var e := EncStart(title);
            && (data != [] ==> EncFinish(EncWrite(e, data)) == Header(e) + Encoded(title, data) + Footer(e))
            && LongestLine(Encoded(title, data)) <= 64 && Column(Encoded(title, data)) == 0
            && (title.Some? ==>
                  && LongestLine(Header(e)) <= |title.value| + 16 && Column(Header(e)) == 0
                  && LongestLine(Footer(e)) <= |title.value| + 14 && Column(Footer(e)) == 0)
            && (title.None? ==> Header(e) == Footer(e) == [])
  {
    var e := EncStart(title);
    var start := Open(e, data).(out := []);
    PushLined(start, data);
    PushKeeps(start, data);
    BodyLined(PushAll(start, data));
    assert Open(e, data) == Behind(Header(e), start);
    PushBehind(Header(e), start, data);
    FinishBehind(Header(e), PushAll(start, data));
    if title.Some? {
      FrameLines(e);
    }
  }
}

/** The two state structures and the functions that work on them. */
module Base64Streams {
  import opened Wrappers
  import opened Octets
  import opened Crc24
  import opened Base64

  class Base64Writer {
    var title: Option<Text>
    var didHeader: bool
    var noLinefeeds: bool
    var useCrc: bool
    var idx: nat
    var quadCount: nat
    var crc: bv32
    var out: Text            // everything written to the stream
    const radbuf: array<byte>

    ghost predicate Valid()
      reads this, radbuf
    {
      radbuf.Length == 4 && idx < 3
    }

    ghost function Abs(): Encoder
      reads this, radbuf
      requires Valid()
    {
      Encoder(title, didHeader, noLinefeeds, useCrc, radbuf[..idx], quadCount, crc, out)
    }

    /** b64enc_start. */
    constructor (title: Option<Text>)
      ensures Valid() && fresh(radbuf) && Abs() == EncStart(title)
    {
      radbuf := new byte[4](i => 0);
      this.title, didHeader, noLinefeeds, useCrc := None, false, false, false;
      idx, quadCount, crc, out := 0, 0, 0, [];
      if title.Some? && title.value == [] {
        noLinefeeds := true;
      } else if title.Some? {
        if PGP + [32] <= title.value {
          useCrc := true;
          crc := Crc24.INIT;
        }
        this.title := title;
      }
    }

    method Write(buffer: seq<byte>)
      requires Valid()
      modifies this, radbuf
      ensures Valid() && Abs() == EncWrite(old(Abs()), buffer)
    {
      if |buffer| == 0 {
        return;
      }
      if !didHeader {
        if title.Some? {
          out := out + (BEGIN + title.value + DASHES + [LF] + (if useCrc then [LF] else []));
        }
        didHeader := true;
      }
      assert out == Open(old(Abs()), buffer).out;
      UpdateCrc(buffer);
      assert Abs() == Open(old(Abs()), buffer);
      EncodeBytes(buffer);
    }

    method UpdateCrc(buffer: seq<byte>)
      requires Valid()
      modifies this`crc
      ensures crc == if useCrc then Sum(old(crc), buffer) else old(crc)
    {
      if useCrc {
        var c := crc;
        var n := 0;
        while n < |buffer|
          invariant 0 <= n <= |buffer| && c == Run(crc, buffer[..n])
        {
          assert buffer[..n + 1][..n] == buffer[..n];
          c := Update(c, AsWord(buffer[n]));
          n := n + 1;
        }
        assert buffer[..n] == buffer;
        crc := Low(c);
      }
    }

    /** The main loop of b64enc_write. */
    method EncodeBytes(buffer: seq<byte>)
      requires Valid()
      modifies this`idx, this`quadCount, this`out, radbuf
      ensures Valid() && Abs() == PushAll(old(Abs()), buffer)
    {
      var n := 0;
      while n < |buffer|
        invariant Valid() && 0 <= n <= |buffer|
        invariant Abs() == PushAll(old(Abs()), buffer[..n])
      {
        ghost var before := Abs();
        assert buffer[..n + 1][..n] == buffer[..n];
        radbuf[idx] := buffer[n];
        assert radbuf[..idx] == before.rad;
        if idx == 2 {
          out := out + Quad(radbuf[0], radbuf[1], radbuf[2]);
          idx := 0;
          quadCount := quadCount + 1;
          if quadCount >= 16 {
            quadCount := 0;
            out := out + (if noLinefeeds then [] else [LF]);
          }
        } else {
          idx := idx + 1;
          assert radbuf[..idx] == before.rad + [buffer[n]];
        }
        assert Abs() == Push(before, buffer[n]);
        n := n + 1;
      }
      assert buffer[..n] == buffer;
    }

    /** b64enc_finish, up to the release of the structure. */
    method Finish()
      requires Valid()
      modifies this, radbuf
      ensures out == EncFinish(old(Abs()))
    {
      if !didHeader {
        return;
      }
      FlushGroup();
      WriteTail();
    }

    method FlushGroup()
      requires Valid()
      modifies this`idx, this`quadCount, this`out
      ensures Valid() && Abs() == Flushed(old(Abs()))
    {
      if idx > 0 {
        ghost var e := Abs();
        var tmp := if idx == 1 then [Asc(Sextet0(radbuf[0])), Asc(Sextet1(radbuf[0], 0)), PAD, PAD]
                   else [Asc(Sextet0(radbuf[0])), Asc(Sextet1(radbuf[0], radbuf[1])), Asc(Sextet2(radbuf[1], 0)), PAD];
        assert tmp == Padded(e.rad);
        out := out + tmp;
        idx := 0;
        quadCount := quadCount + 1;
        if quadCount >= 16 {
          quadCount := 0;
          out := out + (if noLinefeeds then [] else [LF]);
        }
      }
    }

    method WriteTail()
      requires Valid()
      modifies this`out
      ensures out == old(out) + Tail(old(Abs()), quadCount)
    {
      ghost var e := Abs();
      var lf := if quadCount > 0 && !noLinefeeds then [LF] else [];
      out := out + lf;
      var line := if useCrc then [PAD] + Quad(ByteOf(crc, 2), ByteOf(crc, 1), ByteOf(crc, 0)) + (if noLinefeeds then [] else [LF])
                  else [];
      out := out + line;
      var end := if title.Some? then END + title.value + DASHES + [LF] else [];
      out := out + end;
      assert line == CrcLine(e) && end == Footer(e);
      Regroup(old(out), lf, line, end);
    }
  }

  lemma AtMostOne(d: Decoder, c: byte)
    ensures |DecStep(d, c).1| <= 1
  {
  }

  lemma DecodeNext(d: Decoder, text: Text, i: nat)
    requires i < |text|
    ensures Decode(d, text[..i + 1]) ==
              var (d1, o1) := Decode(d, text[..i]); var (d2, o2) := DecStep(d1, text[i]); (d2, o1 + o2)
  {
    assert text[..i + 1][..i] == text[..i];
  }

  /** Stopping early or at the end of the buffer comes to the same. */
  lemma RestIgnored(d: Decoder, text: Text, s: nat)
    requires s <= |text| && (s == |text| || Decode(d, text[..s]).0.stop)
    ensures Decode(d, text) == Decode(d, text[..s])
  {
    var (d1, o1) := Decode(d, text[..s]);
    assert text == text[..s] + text[s..];
    DecodeAppend(d, text[..s], text[s..]);
    if s < |text| {
      StoppedIgnores(d1, text[s..]);
    }
    assert o1 + [] == o1;
  }

  class Base64Reader {
    var ds: DecoderState
    var val: byte
    var pos: nat
    var title: bool
    var stop: bool
    var invalid: bool

    ghost function Abs(): Decoder
      reads this
    {
      Decoder(ds, val, pos, title, stop, invalid)
    }

    constructor (d: Decoder)
      ensures Abs() == d
    {
      ds, val, pos, title, stop, invalid := d.ds, d.val, d.pos, d.title, d.stop, d.invalid;
    }

    /** b64dec_start; None stands for the refusal of a title for OpenPGP armor. */
    static method Start(title: Option<Text>) returns (r: Option<Base64Reader>)
      ensures r.Some? <==> DecStart(title).Some?
      ensures r.Some? ==> fresh(r.value) && DecStart(title) == Some(r.value.Abs())
    {
      if title.Some? {
        if PGP <= title.value && (|title.value| == 3 || title.value[3] == 32) {
          return None;
        }
        var reader := new Base64Reader(Decoder(Init, 0, 0, true, false, false));
        return Some(reader);
      }
      var reader := new Base64Reader(Decoder(B0, 0, 0, false, false, false));
      r := Some(reader);
    }

    method Set(d: Decoder)
      modifies this
      ensures Abs() == d
    {
      ds, val, pos, title, stop, invalid := d.ds, d.val, d.pos, d.title, d.stop, d.invalid;
    }

    /** b64dec_proc decodes `length` characters in place.  The bytes are written over the
        characters already read: the write position never passes the read position. */
    method Proc(buffer: array<byte>, length: nat) returns (eof: bool, nbytes: nat)
      requires length <= buffer.Length
      modifies this, buffer
      ensures eof == old(stop) && nbytes <= length
      ensures eof ==> nbytes == 0 && Abs() == old(Abs()) && buffer[..] == old(buffer[..])
      ensures !eof ==> (Abs(), buffer[..nbytes]) == Decode(old(Abs()), old(buffer[..length]))
      ensures buffer[length..] == old(buffer[length..])
    {
      if stop {
        return true, 0;
      }
      eof := false;
      ghost var text := buffer[..length];
      ghost var start := Abs();
      var s, d := 0, 0;
      while s < length && !stop
        invariant 0 <= d <= s <= length
        invariant forall i | s <= i < buffer.Length :: buffer[i] == old(buffer[i])
        invariant (Abs(), buffer[..d]) == Decode(start, text[..s])
        decreases length - s
      {
        var (next, bytes) := DecStep(Decoder(ds, val, pos, title, stop, invalid), buffer[s]);
        AtMostOne(Abs(), buffer[s]);
        DecodeNext(start, text, s);
        d := Emit(buffer, d, bytes);
        Set(next);
        s := s + 1;
      }
      RestIgnored(start, text, s);
      nbytes := d;
    }

    static method Emit(buffer: array<byte>, d: nat, bytes: seq<byte>) returns (d': nat)
      requires d + |bytes| <= buffer.Length && |bytes| <= 1
      modifies buffer
      ensures d' == d + |bytes| && buffer[..d'] == old(buffer[..d]) + bytes
      ensures forall i | d' <= i < buffer.Length :: buffer[i] == old(buffer[i])
    {
      d' := d;
      if |bytes| == 1 {
        buffer[d] := bytes[0];
        d' := d + 1;
      }
    }

    /** b64dec_finish: true means that characters outside of the alphabet were seen. */
    method Finish() returns (bad: bool)
      ensures bad == Abs().invalid
    {
      bad := invalid;
    }
  }
}
