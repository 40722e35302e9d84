// BitStreamParser (bitstreamparser.h, bitstreamparser.cpp): reading and
// writing big-endian bit fields.  The stream is seen as a sequence of bits,
// most significant first; each operation is stated over that sequence and
// over one bit position.  OSCL_LEAVE is modelled by a result None or false:
// the object keeps the state it had reached.
module BitStream {
  import opened Counting
  import opened Powers

  type u8 = x: int | 0 <= x < 0x100
  type u16 = x: int | 0 <= x < 0x1_0000
  type u32 = x: int | 0 <= x < 0x1_0000_0000

  const UINT32 := 0x1_0000_0000

  // ------------------------------------------------------ shifts and masks

  // x >> k
  function Shr(x: nat, k: nat): nat
  {
    if k == 0 then x else Shr(x / 2, k - 1)
  }

  // x << k, without a width
  function Shl(x: nat, k: nat): nat
  {
    if k == 0 then x else 2 * Shl(x, k - 1)
  }

  // x & ((1 << c) - 1)
  function Low(x: nat, c: nat): nat
  {
    if c == 0 then 0 else 2 * Low(x / 2, c - 1) + x % 2
  }

  // x with bit k replaced: (x & ~(1 << k)) | (bit << k)
  function SetBit(x: nat, k: nat, bit: nat): nat
    requires bit < 2
  {
    if k == 0 then 2 * (x / 2) + bit else 2 * SetBit(x / 2, k - 1, bit) + x % 2
  }

  // Bit k of a byte, 0 being the least significant.
  function BitOf(b: nat, k: nat): nat
  {
    Shr(b, k) % 2
  }

  // Bit i of the stream, 0 being the first one read.
  function Bit(s: seq<u8>, i: nat): nat
    requires i < 8 * |s|
  {
    BitOf(s[i / 8], 7 - i % 8)
  }

  // The n bits from position p as a big-endian number.
  function BitsValue(s: seq<u8>, p: nat, n: nat): (v: nat)
    requires n == 0 || p + n <= 8 * |s|
    ensures v < Pow2(n)
  {
    if n == 0 then 0 else 2 * BitsValue(s, p, n - 1) + Bit(s, p + n - 1)
  }

  // A read of n bits from position p leaves when the stream is too short, and
  // also when it starts inside the last byte and ends flush with it.
  predicate ReadLeaves(p: nat, n: nat, total: nat)
  {
    n > 0 && (p + n > total || (p + n == total && p > total - 8))
  }

  function Max(a: nat, b: nat): nat
  {
    if a < b then b else a
  }

  lemma {:induction false} ShrHalf(x: nat, k: nat)
    ensures Shr(x, k + 1) == Shr(x, k) / 2
  {
    if k > 0 { ShrHalf(x / 2, k - 1); }
  }

  lemma {:induction false} LowAll(x: nat, c: nat)
    requires x < Pow2(c)
    ensures Low(x, c) == x
  {
    if c > 0 { LowAll(x / 2, c - 1); }
  }

  lemma {:induction false} Pow2Mono(a: nat, b: nat)
    requires a <= b
    ensures Pow2(a) <= Pow2(b)
  {
    if a < b { Pow2Mono(a, b - 1); }
  }

  lemma ShlByte(x: nat)
    ensures Shl(x, 8) == 256 * x
  {
    assert Shl(x, 1) == 2 * x;
    assert Shl(x, 2) == 4 * x;
    assert Shl(x, 3) == 8 * x;
    assert Shl(x, 4) == 16 * x;
    assert Shl(x, 5) == 32 * x;
    assert Shl(x, 6) == 64 * x;
    assert Shl(x, 7) == 128 * x;
  }

  // ------------------------------------------------------------ bit values

  // The c bits of byte p / 8 starting at stream position p are what the
  // reader's shift and mask extract.
  lemma {:induction false} ChunkValue(s: seq<u8>, p: nat, c: nat)
    requires p + c <= 8 * |s| && p % 8 + c <= 8
    ensures c > 0 ==> BitsValue(s, p, c) == Low(Shr(s[p / 8], 8 - p % 8 - c), c)
  {
    if c > 0 {
      var b, j := s[p / 8], 8 - p % 8 - c;
      assert Bit(s, p + c - 1) == Shr(b, j) % 2 by {
        assert (p + c - 1) / 8 == p / 8 && (p + c - 1) % 8 == p % 8 + c - 1;
      }
      ChunkValue(s, p, c - 1);
      ShrHalf(b, j);
    }
  }

  lemma ByteValue(s: seq<u8>, i: nat)
    requires i < |s|
    ensures BitsValue(s, 8 * i, 8) == s[i]
  {
    ChunkValue(s, 8 * i, 8);
    Pow2Values();
    LowAll(s[i], 8);
  }

  lemma {:induction false} BitsAppend(s: seq<u8>, p: nat, n: nat, m: nat)
    requires p + n + m <= 8 * |s|
    ensures BitsValue(s, p, n + m) == Shl(BitsValue(s, p, n), m) + BitsValue(s, p + n, m)
  {
    hide Bit;
    if m > 0 {
      BitsAppend(s, p, n, m - 1);
      assert n + m - 1 == n + (m - 1) && p + (n + m) - 1 == p + n + m - 1;
    }
  }

  // output <<= c; output |= bits: nothing is lost while at most 32 bits have
  // been accumulated.
  lemma ShiftIn(s: seq<u8>, p: nat, n: nat, c: nat)
    requires p + n + c <= 8 * |s| && n + c <= 32
    ensures BitsValue(s, p, n + c) == Shl(BitsValue(s, p, n), c) + BitsValue(s, p + n, c) < UINT32
  {
    BitsAppend(s, p, n, c);
    Pow2Mono(n + c, 32);
    Pow2Values();
  }

  // One round of the reader's loop: a whole aligned byte, or the next c bits of
  // the current one.
  lemma NoOverflow(x: nat)
    requires x < UINT32
    ensures x % UINT32 == x
  {}

  lemma WholeStep(s: seq<u8>, p: nat, done: nat, bytepos: nat)
    requires p + done == 8 * bytepos && bytepos < |s| && done + 8 <= 32
    ensures BitsValue(s, p, done + 8) == Shl(BitsValue(s, p, done), 8) % UINT32 + s[bytepos] < UINT32
  {
    hide BitsValue, Shl, Shr, Low, Pow2;
    ShiftIn(s, p, done, 8);
    ByteValue(s, bytepos);
    NoOverflow(Shl(BitsValue(s, p, done), 8));
  }

  lemma PartStep(s: seq<u8>, p: nat, done: nat, c: nat, bytepos: nat, bitpos: nat)
    requires p + done == 8 * bytepos + (7 - bitpos) && bytepos < |s| && bitpos <= 7
    requires 0 < c <= bitpos + 1 && done + c <= 32
    ensures BitsValue(s, p, done + c)
            == Shl(BitsValue(s, p, done), c) % UINT32 + Low(Shr(s[bytepos], bitpos - (c - 1)), c) < UINT32
  {
    hide BitsValue, Shl, Shr, Low, Pow2;
    ShiftIn(s, p, done, c);
    NoOverflow(Shl(BitsValue(s, p, done), c));
    assert (p + done) / 8 == bytepos && (p + done) % 8 == 7 - bitpos;
    ChunkValue(s, p + done, c);
  }

  lemma NoBits(s: seq<u8>, p: nat)
    ensures BitsValue(s, p, 0) == 0
  {
  }

  // Bytes in network order are the bits they hold, at any alignment.
  lemma TwoBytes(s: seq<u8>, p: nat)
    requires p + 16 <= 8 * |s|
    ensures BitsValue(s, p, 16) == 256 * BitsValue(s, p, 8) + BitsValue(s, p + 8, 8) < 0x1_0000
  {
    Pow2Values();
    BitsAppend(s, p, 8, 8);
    ShlByte(BitsValue(s, p, 8));
  }

  lemma FourBytes(s: seq<u8>, p: nat)
    requires p + 32 <= 8 * |s|
    ensures BitsValue(s, p, 32) == Join4(BitsValue(s, p, 8), BitsValue(s, p + 8, 8), BitsValue(s, p + 16, 8),
                                         BitsValue(s, p + 24, 8)) < UINT32
  {
    hide BitsValue, Bit, Shl, Pow2;
    Pow2Values();
    BitsAppend(s, p, 24, 8);
    ShlByte(BitsValue(s, p, 24));
    BitsAppend(s, p, 16, 8);
    ShlByte(BitsValue(s, p, 16));
    TwoBytes(s, p);
  }

  function Join4(b0: nat, b1: nat, b2: nat, b3: nat): nat
  {
    256 * (256 * (256 * b0 + b1) + b2) + b3
  }

  lemma SplitWord(v: u32)
    ensures Join4(v / 0x100_0000, v / 0x1_0000 % 0x100, v / 0x100 % 0x100, v % 0x100) == v
  {
    assert v / 0x1_0000 == v / 0x100 / 0x100 && v / 0x100_0000 == v / 0x1_0000 / 0x100;
  }

  lemma BytesValue(s: seq<u8>, i: nat)
    requires i + 4 <= |s|
    ensures BitsValue(s, 8 * i, 32) == Join4(s[i], s[i + 1], s[i + 2], s[i + 3])
  {
    hide BitsValue;
    FourBytes(s, 8 * i);
    ByteValue(s, i);
    ByteValue(s, i + 1);
    ByteValue(s, i + 2);
    ByteValue(s, i + 3);
  }

  // --------------------------------------------------------- writing a bit

  lemma {:induction false} SetBitBound(x: nat, k: nat, bit: nat, c: nat)
    requires k < c && bit < 2 && x < Pow2(c)
    ensures SetBit(x, k, bit) < Pow2(c)
  {
    if k > 0 { SetBitBound(x / 2, k - 1, bit, c - 1); }
  }

  // Writing bit k changes bit k and no other.
  lemma {:induction false} SetBitSets(x: nat, k: nat, bit: nat, j: nat)
    requires bit < 2
    ensures BitOf(SetBit(x, k, bit), j) == if j == k then bit else BitOf(x, j)
  {
    if k > 0 && j > 0 { SetBitSets(x / 2, k - 1, bit, j - 1); }
  }

  // The stream with the bit at position p replaced.
  function WriteBit(s: seq<u8>, p: nat, bit: nat): (t: seq<u8>)
    requires p < 8 * |s| && bit < 2
    ensures |t| == |s|
  {
    Pow2Values();
    SetBitBound(s[p / 8], 7 - p % 8, bit, 8);
    s[p / 8 := SetBit(s[p / 8], 7 - p % 8, bit)]
  }

  lemma WriteBitSets(s: seq<u8>, p: nat, bit: nat, i: nat)
    requires p < 8 * |s| && bit < 2 && i < 8 * |s|
    ensures Bit(WriteBit(s, p, bit), i) == if i == p then bit else Bit(s, i)
  {
    if i / 8 == p / 8 { SetBitSets(s[p / 8], 7 - p % 8, bit, 7 - i % 8); }
  }

  // The stream with `count` bits of src, from position q, written at p.
  function WriteAll(s: seq<u8>, p: nat, src: seq<u8>, q: nat, count: nat): (t: seq<u8>)
    requires p + count <= 8 * |s| && q + count <= 8 * |src|
    ensures |t| == |s|
  {
    if count == 0 then s
    else WriteBit(WriteAll(s, p, src, q, count - 1), p + count - 1, Bit(src, q + count - 1))
  }

  lemma {:induction false} WriteAllSets(s: seq<u8>, p: nat, src: seq<u8>, q: nat, count: nat, i: nat)
    requires p + count <= 8 * |s| && q + count <= 8 * |src| && i < 8 * |s|
    ensures Bit(WriteAll(s, p, src, q, count), i)
            == if p <= i < p + count then Bit(src, q + (i - p)) else Bit(s, i)
  {
    if count > 0 {
      WriteAllSets(s, p, src, q, count - 1, i);
      WriteBitSets(WriteAll(s, p, src, q, count - 1), p + count - 1, Bit(src, q + count - 1), i);
    }
  }

  lemma {:induction false} SameBitsSameValue(s: seq<u8>, p: nat, t: seq<u8>, q: nat, n: nat)
    requires p + n <= 8 * |s| && q + n <= 8 * |t|
    requires forall i :: p <= i < p + n ==> Bit(s, i) == Bit(t, i - p + q)
    ensures BitsValue(s, p, n) == BitsValue(t, q, n)
  {
    if n > 0 {
      SameBitsSameValue(s, p, t, q, n - 1);
      assert Bit(s, p + n - 1) == Bit(t, q + n - 1);
    }
  }

  // The field written reads back as the field it came from.
  lemma WriteAllReadsBack(s: seq<u8>, p: nat, src: seq<u8>, q: nat, count: nat)
    requires p + count <= 8 * |s| && q + count <= 8 * |src|
    ensures BitsValue(WriteAll(s, p, src, q, count), p, count) == BitsValue(src, q, count)
  {
    var t := WriteAll(s, p, src, q, count);
    forall i | p <= i < p + count ensures Bit(t, i) == Bit(src, i - p + q) {
      WriteAllSets(s, p, src, q, count, i);
    }
    SameBitsSameValue(t, p, src, q, count);
  }

  // ----------------------------------------------------------------- class

  class BitStreamParser {
    const data: array<u8>
    const size: nat
    var bytepos: nat
    var bitpos: nat

    ghost predicate Valid()
      reads this
    {
      bitpos <= 7 && size <= data.Length
    }

    // BitsRead
    ghost function Pos(): nat
      requires Valid()
      reads this
    {
      8 * bytepos + (7 - bitpos)
    }

    ghost function Total(): nat
    {
      8 * size
    }

    constructor (stream: array<u8>, length: nat)
      requires length <= stream.Length
      ensures Valid() && data == stream && size == length && Pos() == 0
    {
      data := stream;
      size := length;
      bytepos := 0;
      bitpos := 7;
    }

    // The 32-bit sum wraps for counts within a byte of 2^32, which then go
    // backward instead.
    method NextBits(numberOfBits: u32) returns (ok: bool)
      requires Valid()
      modifies this
      ensures Valid()
      ensures Pos() == old(Pos()) + numberOfBits - (if numberOfBits + (7 - old(bitpos)) < UINT32 then 0 else UINT32)
      ensures ok <==> Pos() < Total()
    {
      var newbitpos := (numberOfBits + (7 - bitpos)) % UINT32;
      bitpos := 7 - newbitpos % 8;
      bytepos := bytepos + newbitpos / 8;
      ok := bytepos < size;
    }

    // Leaves only from the last bit of a byte at or past the end: landing on
    // the end is no error here.
    method NextBit() returns (ok: bool)
      requires Valid()
      modifies this
      ensures Valid()
      ensures ok <==> Pos() == old(Pos()) + 1
      ensures !ok ==> Pos() == old(Pos())
      ensures old(Pos()) < Total() ==> ok
    {
      if bitpos != 0 {
        bitpos := bitpos - 1;
      } else {
        if bytepos >= size { return false; }
        bitpos := 7;
        bytepos := bytepos + 1;
      }
      return true;
    }

    // One round of the loop in ReadBits: `done` bits from position p are in
    // output, `remaining` are still wanted.
    method ReadRound(output: u32, remaining: nat, ghost p: nat, ghost done: nat)
      returns (output': u32, remaining': nat, ok: bool)
      requires Valid() && Pos() == p + done < Total() && 0 < remaining && done + remaining <= 32
      requires output == BitsValue(data[..], p, done)
      modifies this
      ensures Valid() && remaining' < remaining && Pos() == p + done + (remaining - remaining') <= Total()
      ensures output' == BitsValue(data[..], p, done + (remaining - remaining'))
      ensures remaining' > 0 ==> bitpos == 7
      ensures remaining - remaining' <= old(bitpos) + 1
      ensures ok <==> Pos() < Total() || (old(bitpos) == 7 && remaining >= 8)
    {
      hide BitsValue, Shl, Shr, Low, Bit, BitOf, Pow2;
      if remaining >= 8 && bitpos == 7 {
        WholeStep(data[..], p, done, bytepos);
        output' := Shl(output, 8) % UINT32 + data[bytepos];
        bytepos := bytepos + 1;
        return output', remaining - 8, true;
      } else {
        var c := if bitpos + 1 > remaining then remaining else bitpos + 1;
        PartStep(data[..], p, done, c, bytepos, bitpos);
        output' := Shl(output, c) % UINT32 + Low(Shr(data[bytepos], bitpos - (c - 1)), c);
        ok := NextBits(c);
        return output', remaining - c, ok;
      }
    }

    method ReadBits(numberOfBits: u8) returns (r: Option<u32>)
      requires Valid()
      modifies this
      ensures Valid()
      ensures var n := if numberOfBits > 32 then 32 else numberOfBits;
        && (r.None? <==> ReadLeaves(old(Pos()), n, Total()))
        && (r.Some? ==> r.value == BitsValue(data[..], old(Pos()), n) && Pos() == old(Pos()) + n)
        && (r.None? ==> Pos() == Max(old(Pos()), Total()))
    {
      hide BitsValue;
      var output: u32 := 0;
      var remaining: nat := if numberOfBits > 32 then 32 else numberOfBits;
      ghost var n, p := remaining, Pos();
      NoBits(data[..], p);
      while remaining > 0
        invariant Valid() && remaining <= n && Pos() == p + (n - remaining)
        invariant remaining < n ==> Pos() <= Total()
        invariant n > remaining > 0 ==> bitpos == 7
        invariant n > remaining == 0 ==> !ReadLeaves(p, n, Total())
        invariant output == BitsValue(data[..], p, n - remaining)
      {
        if bytepos >= size { return None; }
        var ok;
        output, remaining, ok := ReadRound(output, remaining, p, n - remaining);
        if !ok { return None; }
      }
      return Some(output);
    }

    method ReadUInt8() returns (r: Option<u8>)
      requires Valid()
      modifies this
      ensures Valid()
      ensures r.None? <==> old(Pos()) + 8 > Total()
      ensures r.Some? ==> r.value == BitsValue(data[..], old(Pos()), 8) && Pos() == old(Pos()) + 8
      ensures r.None? ==> Pos() == Max(old(Pos()), Total())
    {
      if bitpos != 7 {
        var bits := ReadBits(8);
        Pow2Values();
        return if bits.Some? then Some(bits.value) else None;
      }
      if bytepos >= size { return None; }
      ByteValue(data[..], bytepos);
      r := Some(data[bytepos]);
      bytepos := bytepos + 1;
    }

    method ReadUInt16() returns (r: Option<u16>)
      requires Valid()
      modifies this
      ensures Valid()
      ensures r.None? <==> old(Pos()) + 16 > Total()
      ensures r.Some? ==> r.value == BitsValue(data[..], old(Pos()), 16) && Pos() == old(Pos()) + 16
    {
      hide BitsValue;
      ghost var p := Pos();
      var b0 := ReadUInt8();
      if b0.None? { return None; }
      var b1 := ReadUInt8();
      if b1.None? { return None; }
      TwoBytes(data[..], p);
      var h0: nat, h1: nat := b0.value, b1.value;
      return Some(256 * h0 + h1);
    }

    // Equal to ReadBits(32), in value, position and in when it leaves.
    method ReadUInt32() returns (r: Option<u32>)
      requires Valid()
      modifies this
      ensures Valid()
      ensures r.None? <==> ReadLeaves(old(Pos()), 32, Total())
      ensures r.Some? ==> r.value == BitsValue(data[..], old(Pos()), 32) && Pos() == old(Pos()) + 32
    {
      hide BitsValue;
      ghost var p := Pos();
      var b0 := ReadUInt8();
      if b0.None? { return None; }
      var b1 := ReadUInt8();
      if b1.None? { return None; }
      var b2 := ReadUInt8();
      if b2.None? { return None; }
      var b3 := ReadUInt8();
      if b3.None? { return None; }
      FourBytes(data[..], p);
      return Some(Join4(b0.value, b1.value, b2.value, b3.value));
    }

    // One round of the loop in WriteBits: one bit from the source to the
    // stream.  ReadBits(1) leaves, writing nothing, on the source's last bit.
    method WriteRound(input: BitStreamParser) returns (ok: bool)
      requires Valid() && Pos() < Total() && input != this
      requires input.Valid() && input.Pos() < input.Total() && input.data != data
      modifies this, input, data
      ensures Valid() && input.Valid()
      ensures ok <==> old(input.Pos()) + 1 < input.Total()
      ensures ok ==> Pos() == old(Pos()) + 1 && input.Pos() == old(input.Pos()) + 1
      ensures ok ==> data[..] == WriteBit(old(data[..]), old(Pos()), Bit(input.data[..], old(input.Pos())))
      ensures !ok ==> Pos() == old(Pos()) && data[..] == old(data[..])
    {
      hide BitsValue, SetBit, Shr;
      assert Pos() / 8 == bytepos && Pos() % 8 == 7 - bitpos;
      var byte := data[bytepos];
      OneBit(input.data[..], input.Pos());
      var bit := input.ReadBits(1);
      if bit.None? { return false; }
      data[bytepos] := WrittenByte(byte, bitpos, bit.value);
      ok := NextBit();
    }

    // The loop of WriteBits, over the whole rest of the bit source: it always
    // leaves, with every bit but the last one written.
    method WriteLoop(input: BitStreamParser, count: nat) returns (ok: bool)
      requires Valid() && input.Valid() && input != this && input.data != data
      requires count > 0 && Pos() + count <= Total() && input.Pos() + count == input.Total()
      modifies this, input, data
      ensures Valid() && !ok && Pos() == old(Pos()) + count - 1
      ensures data[..] == WriteAll(old(data[..]), old(Pos()), old(input.data[..]), old(input.Pos()), count - 1)
    {
      hide WriteAll, WriteBit, Bit;
      ghost var s, p, from, q := data[..], Pos(), input.data[..], input.Pos();
      var remaining := count;
      WriteNone(s, p, from, q);
      while remaining > 0
        invariant Valid() && input.Valid() && input.data[..] == from
        invariant 0 < remaining <= count
        invariant Pos() == p + (count - remaining) && input.Pos() == q + (count - remaining)
        invariant data[..] == WriteAll(s, p, from, q, count - remaining)
      {
        WriteMore(s, p, from, q, count - remaining);
        ok := WriteRound(input);
        if !ok { return; }
        remaining := remaining - 1;
      }
    }

    // Never completes: the bit source is read with ReadBits(1), which leaves on
    // its last bit, so all but the last bit are written.  For no bits at all
    // the source is empty and skipping in it leaves at once.
    method WriteBits(numberOfBits: u8, src: array<u8>) returns (ok: bool)
      requires Valid() && src != data && src.Length >= BytesFor(numberOfBits)
      requires Pos() + numberOfBits <= Total()
      modifies this, data
      ensures Valid() && !ok
      ensures var n := if numberOfBits == 0 then 0 else numberOfBits - 1;
        && Pos() == old(Pos()) + n
        && data[..] == WriteAll(old(data[..]), old(Pos()), old(src[..]), SourceStart(numberOfBits), n)
    {
      SourceFacts(numberOfBits);
      hide BytesFor, SourceStart, WriteAll, FreshBitsLeft;
      WriteNone(data[..], Pos(), src[..], SourceStart(numberOfBits));
      var bytes := BytesFor(numberOfBits);
      var input := new BitStreamParser(src, bytes);
      ok := input.NextBits(FreshBitsLeft(bytes) - numberOfBits);
      if !ok { return; }
      ok := WriteLoop(input, numberOfBits);
    }

    method WriteUInt8(v: u8) returns (ok: bool)
      requires Valid() && (bitpos != 7 ==> Pos() + 8 <= Total())
      modifies this, data
      ensures Valid()
      ensures ok <==> old(bitpos) == 7 && old(bytepos) < size
      ensures ok ==> bitpos == 7 && bytepos == old(bytepos) + 1 && data[..] == old(data[..])[old(bytepos) := v]
    {
      if bitpos != 7 {
        var one := new u8[1](_ => v);
        ok := WriteBits(8, one);
        return;
      }
      if bytepos >= size { return false; }
      data[bytepos] := v;
      bytepos := bytepos + 1;
      return true;
    }

    // Succeeds exactly on a byte boundary with two bytes of room, and then the
    // 16 bits written read back as the value.
    method WriteUInt16(v: u16) returns (ok: bool)
      requires Valid() && (bitpos != 7 ==> Pos() + 8 <= Total())
      modifies this, data
      ensures Valid()
      ensures ok <==> old(bitpos) == 7 && old(bytepos) + 2 <= size
      ensures ok ==> Pos() == old(Pos()) + 16 && BitsValue(data[..], old(Pos()), 16) == v
      ensures ok ==> forall i :: 0 <= i < data.Length && !(old(bytepos) <= i < old(bytepos) + 2) ==>
        data[i] == old(data[i])
    {
      hide BitsValue;
      ok := WriteUInt8(v / 0x100);
      if !ok { return; }
      ok := WriteUInt8(v % 0x100);
      if !ok { return; }
      ghost var i := old(bytepos);
      TwoBytes(data[..], 8 * i);
      ByteValue(data[..], i);
      ByteValue(data[..], i + 1);
    }

    // Succeeds exactly on a byte boundary with four bytes of room, and then
    // the 32 bits written read back as the value.
    method WriteUInt32(v: u32) returns (ok: bool)
      requires Valid() && (bitpos != 7 ==> Pos() + 8 <= Total())
      modifies this, data
      ensures Valid()
      ensures ok <==> old(bitpos) == 7 && old(bytepos) + 4 <= size
      ensures ok ==> Pos() == old(Pos()) + 32 && BitsValue(data[..], old(Pos()), 32) == v
      ensures ok ==> forall i :: 0 <= i < data.Length && !(old(bytepos) <= i < old(bytepos) + 4) ==>
        data[i] == old(data[i])
    {
      hide BitsValue;
      ok := WriteUInt8(v / 0x100_0000);
      if !ok { return; }
      ok := WriteUInt8(v / 0x1_0000 % 0x100);
      if !ok { return; }
      ok := WriteUInt8(v / 0x100 % 0x100);
      if !ok { return; }
      ok := WriteUInt8(v % 0x100);
      if !ok { return; }
      BytesValue(data[..], old(bytepos));
      SplitWord(v);
    }
  }

  // BITS_TO_BYTES
  function BytesFor(n: nat): nat
  {
    (n + 7) / 8
  }

  // Where the low n bits start in the whole bytes that hold them.
  function SourceStart(n: nat): nat
  {
    8 * BytesFor(n) - n
  }

  // BitsLeft() of a parser at its start, in 32 bits
  function FreshBitsLeft(bytes: nat): u32
  {
    ((bytes - 1) * 8 + 8) % UINT32
  }

  lemma SourceFacts(n: u8)
    ensures SourceStart(n) + n == 8 * BytesFor(n) && SourceStart(n) < 8 && (BytesFor(n) == 0 <==> n == 0)
    ensures FreshBitsLeft(BytesFor(n)) == 8 * BytesFor(n)
  {
  }

  lemma WriteNone(s: seq<u8>, p: nat, src: seq<u8>, q: nat)
    requires p <= 8 * |s| && q <= 8 * |src|
    ensures WriteAll(s, p, src, q, 0) == s
  {
  }

  lemma WriteMore(s: seq<u8>, p: nat, src: seq<u8>, q: nat, k: nat)
    requires p + k < 8 * |s| && q + k < 8 * |src|
    ensures WriteAll(s, p, src, q, k + 1) == WriteBit(WriteAll(s, p, src, q, k), p + k, Bit(src, q + k))
  {
  }

  function WrittenByte(b: u8, k: nat, bit: nat): u8
    requires k <= 7 && bit < 2
  {
    Pow2Values();
    SetBitBound(b, k, bit, 8);
    SetBit(b, k, bit)
  }

  lemma OneBit(s: seq<u8>, p: nat)
    requires p < 8 * |s|
    ensures BitsValue(s, p, 1) == Bit(s, p) < 2
  {
    assert BitsValue(s, p, 0) == 0;
  }
}
