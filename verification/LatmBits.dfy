/**
 The bit reader and the bit copier of the LATM parser, and the StreamMuxConfig parse
 driven by them, proved against the bit-string specification.
 */
module LatmBits {
  import opened Bits
  import opened BitFields
  import opened LatmMux

  // ---- repacking misaligned bits -------------------------------------------

  /** Byte `j` of a packed bit string: eight of its bits, the last byte padded with zeros. */
  lemma {:induction false} PackAt(bits: seq<bit>, j: nat)
    requires j < |Pack(bits)|
    ensures 8 * j < |bits|
    ensures Pack(bits)[j]
            == if 8 * j + 8 <= |bits| then Value(bits[8 * j..8 * j + 8])
               else Value(bits[8 * j..] + Zeros(8 - (|bits| - 8 * j)))
    decreases j
  {
    hide Value;
    if j == 0 {
      assert bits[0..] == bits;
    } else {
      PackAt(bits[8..], j - 1);
      assert bits[8..][8 * (j - 1)..] == bits[8 * j..];
      if 8 * j + 8 <= |bits| {
        assert bits[8..][8 * (j - 1)..8 * (j - 1) + 8] == bits[8 * j..8 * j + 8];
      }
    }
  }

  lemma {:induction false} LowOfShifted(v: nat, s: nat, n: nat)
    ensures Low(Shl(v, s), n + s) == Shl(Low(v, n), s)
  {
    if s > 0 {
      LowOfShifted(v, s - 1, n);
    }
  }

  /** Eight bits straddling two bytes: the shifted halves the copier combines. */
  lemma Straddle(b0: byte, b1: byte, s: nat)
    requires 0 < s < 8
    ensures Value((ByteBits(b0) + ByteBits(b1))[s..s + 8]) == Low(Shl(b0, s), 8) + Shr(b1, 8 - s)
  {
    hide Value, ByteBits, Low, Shl, Shr;
    var x, y := ByteBits(b0), ByteBits(b1);
    assert (x + y)[s..s + 8] == x[s..] + y[..s];
    ValueConcat(x[s..], y[..s]);
    ByteValue(b0);
    FieldRead(x, s, 8 - s);
    assert x[s..s + (8 - s)] == x[s..];
    assert Shr(b0, 0) == b0 by { ShrNone(b0); }
    TopBits(b1, s);
    LowOfShifted(b0, s, 8 - s);
  }

  lemma ShrNone(v: int)
    ensures Shr(v, 0) == v
  {
  }

  /** The byte at bit offset `g`, with zeros beyond the end of the buffer. */
  ghost function Window(buf: seq<byte>, g: nat): (w: nat)
    requires g < 8 * |buf|
    ensures w < 256
  {
    Pow2Values();
    Value((BitsOf(buf) + Zeros(8))[g..g + 8])
  }

  lemma ZeroByte()
    ensures BitsOf([0]) == Zeros(8)
  {
    BitsOfOne(0);
    forall i | 0 <= i < 8 ensures ByteBits(0)[i] == 0 {
      ByteBitsAt(0, i);
      ShrZero(7 - i);
    }
  }

  lemma {:induction false} ShrZero(n: nat)
    ensures Shr(0, n) == 0
  {
    if n > 0 {
      ShrZero(n - 1);
    }
  }

  lemma TwoBytesAt(bs: seq<byte>, k: nat)
    requires k + 1 < |bs|
    ensures BitsOf(bs)[8 * k..8 * k + 16] == ByteBits(bs[k]) + ByteBits(bs[k + 1])
  {
    PairSlice(bs, k, 8 * k, 8 * k + 16);
    PairBits(bs[k..k + 2], bs[k], bs[k + 1]);
  }

  lemma PairSlice(bs: seq<byte>, k: nat, at: nat, end: nat)
    requires k + 1 < |bs| && at == 8 * k && end == at + 16
    ensures bs[k..k + 2] == [bs[k], bs[k + 1]] && end <= |BitsOf(bs)|
    ensures BitsOf(bs)[at..end] == BitsOf(bs[k..k + 2])
  {
    hide BitsOf;
    BitsOfSlice(bs, k, k + 2);
    assert 8 * (k + 2) == end;
  }

  lemma PairBits(pair: seq<byte>, x: byte, y: byte)
    requires pair == [x, y]
    ensures BitsOf(pair) == ByteBits(x) + ByteBits(y)
  {
    hide BitsOf, ByteBits;
    BitsOfPair(x, y);
  }

  lemma BitsOfPair(x: byte, y: byte)
    ensures BitsOf([x, y]) == ByteBits(x) + ByteBits(y)
  {
    hide BitsOf, ByteBits;
    assert [x, y] == [x] + [y];
    BitsOfConcat([x], [y]);
    BitsOfOne(x);
    BitsOfOne(y);
  }

  lemma SliceOfSlice(bits: seq<bit>, at: nat, len: nat, s: nat, n: nat)
    requires at + len <= |bits| && s + n <= len
    ensures bits[at..at + len][s..s + n] == bits[at + s..at + s + n]
  {
    var inner, direct := bits[at..at + len][s..s + n], bits[at + s..at + s + n];
    assert |inner| == |direct|;
    forall i | 0 <= i < n ensures inner[i] == direct[i] {
    }
  }

  lemma WindowAt(buf: seq<byte>, k: nat, s: nat)
    requires k < |buf| && s < 8
    ensures Window(buf, 8 * k + s)
            == if s == 0 then buf[k] as int
               else Low(Shl(buf[k], s), 8) + Shr(if k + 1 < |buf| then buf[k + 1] else 0, 8 - s)
  {
    hide BitsOf, Value, Low, Shl, Shr, ByteBits;
    var ext := buf + [0];
    ZeroByte();
    BitsOfConcat(buf, [0]);
    TwoBytesAt(ext, k);
    var x, y := ByteBits(ext[k]), ByteBits(ext[k + 1]);
    SliceOfSlice(BitsOf(ext), 8 * k, 16, s, 8);
    assert BitsOf(ext)[8 * k + s..8 * k + s + 8] == (x + y)[s..s + 8];
    if s == 0 {
      assert (x + y)[0..8] == x;
      ByteValue(ext[k]);
    } else {
      Straddle(ext[k], ext[k + 1], s);
    }
  }

  /** Byte `j` of the packed field is its window, with the bits past the field cleared. */
  lemma PackedByte(buf: seq<byte>, start: nat, n: nat, j: nat)
    requires start + n <= 8 * |buf| && 8 * j < n
    ensures var w := Window(buf, start + 8 * j);
            var field := Pack(BitsOf(buf)[start..start + n]);
            j < |field| && field[j] == if 8 * j + 8 <= n then w else w - Low(w, 8 - (n - 8 * j))
  {
    hide BitsOf, Value, Low, Shl, Pack;
    var bits := BitsOf(buf)[start..start + n];
    var win := (BitsOf(buf) + Zeros(8))[start + 8 * j..start + 8 * j + 8];
    PackAt(bits, j);
    if 8 * j + 8 <= n {
      assert bits[8 * j..8 * j + 8] == win;
    } else {
      var r := n - 8 * j;
      assert bits[8 * j..] == win[..r];
      assert win == win[..r] + win[r..];
      ValueConcat(win[..r], win[r..]);
      ValueConcat(win[..r], Zeros(8 - r));
      ZerosValue(8 - r);
      LowOfShl(Value(win[..r]), Value(win[r..]), 8 - r);
    }
  }

  lemma {:induction false} ZerosValue(n: nat)
    ensures Value(Zeros(n)) == 0
  {
    if n > 0 {
      assert Zeros(n)[..n - 1] == Zeros(n - 1);
      ZerosValue(n - 1);
    }
  }

  /** The source window of one destination byte, shifted into place. */
  method WindowByte(buf: seq<byte>, at: nat, shift: nat) returns (b: byte)
    requires at < |buf| && shift < 8
    ensures b == Window(buf, 8 * at + shift)
  {
    hide Window, Low, Shl, Shr;
    WindowAt(buf, at, shift);
    if shift == 0 {
      return buf[at];
    }
    var hi := Low(Shl(buf[at], shift), 8);
    var lo := 0;
    if at + 1 < |buf| {
      lo := Shr(buf[at + 1], 8 - shift);
    } else {
      ShrZero(8 - shift);
    }
    return hi + lo;
  }

  /** Every byte of a field but its last is whole. */
  lemma FieldBytes(n: nat, size: nat)
    requires size == (n + 7) / 8
    ensures forall k :: 0 <= k < size ==> 8 * k < n && (k < size - 1 ==> 8 * k + 8 <= n)
  {
  }

  /**
   Copies `n` bits of `buf` from bit `start` into the front of `dst`, left-justified, the last
   byte zero-padded; bytes of `dst` past the field keep their values.
   */
  method BlitBits(dst: array<byte>, buf: seq<byte>, start: nat, n: nat)
    requires start + n <= 8 * |buf| && (n + 7) / 8 <= dst.Length
    modifies dst
    ensures dst[..] == Pack(BitsOf(buf)[start..start + n]) + old(dst[(n + 7) / 8..])
  {
    hide Pack, BitsOf, Window, Low, Shl, Shr;
    ghost var field := Pack(BitsOf(buf)[start..start + n]);
    if n == 0 {
      assert field == [];
      return;
    }
    var sb, shift, size := start / 8, start % 8, (n + 7) / 8;
    for j := 0 to size
      invariant forall k :: 0 <= k < j ==> dst[k] == Window(buf, start + 8 * k)
      invariant forall k :: size <= k < dst.Length ==> dst[k] == old(dst[k])
    {
      assert 8 * (sb + j) + shift == start + 8 * j && sb + j < |buf|;
      dst[j] := WindowByte(buf, sb + j, shift);
    }
    FieldBytes(n, size);
    var rem := n % 8;
    if rem != 0 {
      PackedByte(buf, start, n, size - 1);
      dst[size - 1] := dst[size - 1] - Low(dst[size - 1], 8 - rem);
    }
    forall k | 0 <= k < size ensures dst[k] == field[k] {
      PackedByte(buf, start, n, k);
    }
    assert dst[..] == field + old(dst[size..]);
  }

  // ---- the bit reader ------------------------------------------------------

  class BitReader {
    const buf: seq<byte>
    var pos: nat

    ghost predicate Valid()
      reads this
    {
      pos <= 8 * |buf|
    }

    /** The bits still to read. */
    ghost function Rest(): seq<bit>
      requires Valid()
      reads this
    {
      BitsOf(buf)[pos..]
    }

    constructor (buf: seq<byte>)
      ensures Valid() && pos == 0 && this.buf == buf && Rest() == BitsOf(buf)
    {
      this.buf := buf;
      pos := 0;
    }

    /** Reads `n` bits; on truncation the position stays where it was. */
    method Read(n: nat) returns (v: nat, ok: bool)
      requires Valid() && n <= 32
      modifies this
      ensures Valid()
      ensures ok <==> Take(old(Rest()), n).Ok?
      ensures ok ==> Take(old(Rest()), n) == Ok(Taken(v, Rest())) && pos == old(pos) + n
      ensures !ok ==> pos == old(pos)
    {
      hide Value, BitsOf;
      ghost var bits := Rest();
      if n == 0 {
        assert bits[..0] == [] && bits[0..] == bits;
        assert Value([]) == 0 by { NoBits(); }
        return 0, true;
      }
      if pos + n > 8 * |buf| {
        return 0, false;
      }
      v := ReadField(buf, pos, n);
      assert bits[..n] == BitsOf(buf)[pos..pos + n];
      pos := pos + n;
      return v, true;
    }

    /** Advances to the next byte boundary. */
    method ByteAlign()
      requires Valid()
      modifies this
      ensures Valid() && pos % 8 == 0 && old(pos) <= pos < old(pos) + 8
      ensures Rest() == old(Rest())[|old(Rest())| % 8..]
    {
      hide BitsOf;
      ghost var bits := BitsOf(buf);
      var rem := pos % 8;
      assert |Rest()| % 8 == if rem == 0 then 0 else 8 - rem;
      if rem != 0 {
        pos := pos + (8 - rem);
      }
    }
  }

  lemma NoBits()
    ensures Value([]) == 0
  {
  }

  // ---- the parse -----------------------------------------------------------

  method ReadObjectType(r: BitReader) returns (res: Result<nat>)
    requires r.Valid()
    modifies r
    ensures r.Valid() && r.pos >= old(r.pos)
    ensures var t := TakeObjectType(old(r.Rest()));
            if t.Err? then res == Err(t.error) else res == Ok(t.value.v) && r.Rest() == t.value.rest
  {
    hide Take;
    OnlyTruncation(r.Rest(), 5);
    var aot, ok := r.Read(5);
    if !ok {
      return Err(Truncated);
    }
    if aot == 31 {
      OnlyTruncation(r.Rest(), 6);
      var esc, ok' := r.Read(6);
      if !ok' {
        return Err(Truncated);
      }
      aot := 32 + esc;
    }
    return Ok(aot);
  }

  method ReadSamplingFrequency(r: BitReader) returns (res: Result<nat>)
    requires r.Valid()
    modifies r
    ensures r.Valid() && r.pos >= old(r.pos)
    ensures var t := TakeSamplingFrequency(old(r.Rest()));
            if t.Err? then res == Err(t.error) else res == Ok(t.value.v) && r.Rest() == t.value.rest
  {
    hide Take;
    OnlyTruncation(r.Rest(), 4);
    var sfi, ok := r.Read(4);
    if !ok {
      return Err(Truncated);
    }
    if sfi == 15 {
      OnlyTruncation(r.Rest(), 24);
      sfi, ok := r.Read(24);
      if !ok {
        return Err(Truncated);
      }
    }
    return Ok(sfi);
  }

  method ReadGASpecific(r: BitReader) returns (res: Result<nat>)
    requires r.Valid()
    modifies r
    ensures r.Valid() && r.pos >= old(r.pos)
    ensures var t := TakeGASpecific(old(r.Rest()));
            if t.Err? then res == Err(t.error) else res == Ok(t.value.frameLength) && r.Rest() == t.value.rest
  {
    hide Take;
    OnlyTruncation(r.Rest(), 1);
    var flag, ok := r.Read(1);
    if !ok {
      return Err(Truncated);
    }
    OnlyTruncation(r.Rest(), 1);
    var dep, ok1 := r.Read(1);
    if !ok1 {
      return Err(Truncated);
    }
    if dep == 1 {
      OnlyTruncation(r.Rest(), 14);
      var delay, ok2 := r.Read(14);
      if !ok2 {
        return Err(Truncated);
      }
    }
    OnlyTruncation(r.Rest(), 1);
    var ext, ok3 := r.Read(1);
    if !ok3 {
      return Err(Truncated);
    }
    if ext == 1 {
      return Err(UnsupportedASC);
    }
    return Ok(if flag == 1 then 960 else 1024);
  }

  /** The AudioSpecificConfig: its per-unit sample count; its bits lie between the two positions. */
  method ReadASC(r: BitReader) returns (res: Result<nat>)
    requires r.Valid()
    modifies r
    ensures r.Valid() && r.pos >= old(r.pos)
    ensures var t := ParseASC(old(r.Rest()));
            if t.Err? then res == Err(t.error) else res == Ok(t.value.frameLength) && r.Rest() == t.value.rest
  {
    hide Take, TakeObjectType, TakeSamplingFrequency, TakeGASpecific;
    var aot := ReadObjectType(r);
    if aot.Err? {
      return Err(aot.error);
    }
    if !SupportedObjectType(aot.value) {
      return Err(UnsupportedASC);
    }
    var sf := ReadSamplingFrequency(r);
    if sf.Err? {
      return Err(sf.error);
    }
    OnlyTruncation(r.Rest(), 4);
    var ch, ok := r.Read(4);
    if !ok {
      return Err(Truncated);
    }
    if ch == 0 {
      return Err(UnsupportedASC);
    }
    res := ReadGASpecific(r);
  }

  method ReadPrefix(r: BitReader) returns (res: Result<nat>)
    requires r.Valid()
    modifies r
    ensures r.Valid() && r.pos >= old(r.pos)
    ensures var t := TakePrefix(old(r.Rest()));
            if t.Err? then res == Err(t.error) else res == Ok(t.value.v) && r.Rest() == t.value.rest
  {
    hide Take;
    OnlyTruncation(r.Rest(), 1);
    var version, ok := r.Read(1);
    if !ok {
      return Err(Truncated);
    }
    if version != 0 {
      return Err(UnsupportedMux);
    }
    OnlyTruncation(r.Rest(), 1);
    var same, ok1 := r.Read(1);
    if !ok1 {
      return Err(Truncated);
    }
    if same != 1 {
      return Err(UnsupportedMux);
    }
    OnlyTruncation(r.Rest(), 6);
    var sub, ok2 := r.Read(6);
    if !ok2 {
      return Err(Truncated);
    }
    if sub + 1 > MaxSubFrames {
      return Err(UnsupportedMux);
    }
    OnlyTruncation(r.Rest(), 4);
    var program, ok3 := r.Read(4);
    if !ok3 {
      return Err(Truncated);
    }
    if program != 0 {
      return Err(UnsupportedMux);
    }
    OnlyTruncation(r.Rest(), 3);
    var layer, ok4 := r.Read(3);
    if !ok4 {
      return Err(Truncated);
    }
    if layer != 0 {
      return Err(UnsupportedMux);
    }
    return Ok(sub);
  }

  method ReadOtherData(r: BitReader) returns (res: Result<bool>)
    requires r.Valid()
    modifies r
    ensures r.Valid() && r.pos >= old(r.pos)
    ensures var t := SkipOtherData(old(r.Rest()));
            if t.Err? then res == Err(t.error) else res.Ok? && r.Rest() == t.value
  {
    hide Take;
    while true
      invariant r.Valid() && r.pos >= old(r.pos)
      invariant SkipOtherData(old(r.Rest())) == SkipOtherData(r.Rest())
      decreases 8 * |r.buf| - r.pos
    {
      OnlyTruncation(r.Rest(), 1);
      var esc, ok := r.Read(1);
      if !ok {
        return Err(Truncated);
      }
      OnlyTruncation(r.Rest(), 8);
      var len, ok1 := r.Read(8);
      if !ok1 {
        return Err(Truncated);
      }
      if esc == 0 {
        return Ok(true);
      }
    }
  }

  method ReadSuffix(r: BitReader) returns (res: Result<bool>)
    requires r.Valid()
    modifies r
    ensures r.Valid() && r.pos >= old(r.pos)
    ensures var t := TakeSuffix(old(r.Rest()));
            if t.Err? then res == Err(t.error) else res.Ok? && r.Rest() == t.value
  {
    hide Take, SkipOtherData;
    OnlyTruncation(r.Rest(), 3);
    var lt, ok := r.Read(3);
    if !ok {
      return Err(Truncated);
    }
    if lt != 0 {
      return Err(UnsupportedMux);
    }
    OnlyTruncation(r.Rest(), 8);
    var full, ok1 := r.Read(8);
    if !ok1 {
      return Err(Truncated);
    }
    OnlyTruncation(r.Rest(), 1);
    var other, ok2 := r.Read(1);
    if !ok2 {
      return Err(Truncated);
    }
    if other == 1 {
      var skipped := ReadOtherData(r);
      if skipped.Err? {
        return skipped;
      }
    }
    OnlyTruncation(r.Rest(), 1);
    var crc, ok3 := r.Read(1);
    if !ok3 {
      return Err(Truncated);
    }
    if crc == 1 {
      OnlyTruncation(r.Rest(), 8);
      var sum, ok4 := r.Read(8);
      if !ok4 {
        return Err(Truncated);
      }
    }
    return Ok(true);
  }

  /** Packs `n` bits into `dst` when it has the capacity, else into a fresh array. */
  method ExtractBitsInto(dst: array?<byte>, buf: seq<byte>, start: nat, n: nat) returns (out: array<byte>, size: nat)
    requires start + n <= 8 * |buf|
    modifies if dst == null then {} else {dst}
    ensures size == (n + 7) / 8 <= out.Length
    ensures if dst != null && size <= dst.Length then out == dst else fresh(out)
    ensures fresh(out) && dst != null ==> dst[..] == old(dst[..])
    ensures out[..size] == Pack(BitsOf(buf)[start..start + n])
  {
    hide Pack, BitsOf;
    size := (n + 7) / 8;
    if dst == null || dst.Length < size {
      out := new byte[size];
    } else {
      out := dst;
    }
    BlitBits(out, buf, start, n);
  }

  datatype Found = Found(numSubFrames: nat, asc: array<byte>, ascLen: nat, frameLength: nat)

  /**
   Parses a StreamMuxConfig at the reader's position, packing the AudioSpecificConfig into the
   scratch array when it fits.  On an error nothing but the scratch array may have changed.
   */
  method ParseMuxBits(r: BitReader, scratch: array?<byte>) returns (res: Result<Found>)
    requires r.Valid()
    modifies r, if scratch == null then {} else {scratch}
    ensures r.Valid()
    ensures var t := ParseMux(old(r.Rest()));
            && (t.Err? ==> res == Err(t.error))
            && (t.Ok? ==>
                  && res.Ok? && r.Rest() == t.value.rest
                  && res.value.ascLen <= res.value.asc.Length
                  && t.value.mux
                     == Mux(res.value.numSubFrames, res.value.asc[..res.value.ascLen], res.value.frameLength))
    ensures res.Ok? ==> res.value.asc == scratch || fresh(res.value.asc)
  {
    hide TakePrefix, ParseASC, TakeSuffix, Pack, BitsOf;
    var sub := ReadPrefix(r);
    if sub.Err? {
      return Err(sub.error);
    }
    var start := r.pos;
    ghost var outer := r.Rest();
    var frameLength := ReadASC(r);
    if frameLength.Err? {
      return Err(frameLength.error);
    }
    assert Front(outer, r.Rest()) == BitsOf(r.buf)[start..r.pos];
    var asc, ascLen := ExtractBitsInto(scratch, r.buf, start, r.pos - start);
    var tail := ReadSuffix(r);
    if tail.Err? {
      return Err(tail.error);
    }
    return Ok(Found(sub.value, asc, ascLen, frameLength.value));
  }
}
