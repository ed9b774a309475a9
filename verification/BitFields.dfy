/**
 Reading a big-endian field out of a byte slice the way the parsers do it: load the
 whole bytes the field spans into an accumulator, shift, mask.
 */
module BitFields {
  import opened Bits

  /** The `n` bits at bit offset `pos`; a field of at most 32 bits spans at most five bytes. */
  method ReadField(buf: seq<byte>, pos: nat, n: nat) returns (v: nat)
    requires n <= 32 && pos + n <= 8 * |buf|
    ensures v == Value(BitsOf(buf)[pos..pos + n])
  {
    if n == 0 {
      assert BitsOf(buf)[pos..pos] == [];
      return 0;
    }
    var firstByte, lastByte := pos / 8, (pos + n - 1) / 8;
    var span := buf[firstByte..lastByte + 1];
    assert |span| <= 5;
    var acc := LoadBytes(span);
    var rightPad := (lastByte + 1) * 8 - (pos + n);
    v := Low(Shr(acc, rightPad), n);
    FieldOfSpan(buf, pos, n, firstByte, lastByte);
  }

  /** acc = acc<<8 | x over the span. */
  method LoadBytes(span: seq<byte>) returns (acc: nat)
    ensures acc == Load(span)
  {
    acc := 0;
    for i := 0 to |span|
      invariant acc == Load(span[..i])
    {
      acc := 256 * acc + span[i];
      assert span[..i + 1][..i] == span[..i];
    }
    assert span[..|span|] == span;
  }

  lemma FieldOfSpan(buf: seq<byte>, pos: nat, n: nat, firstByte: nat, lastByte: nat)
    requires 0 < n && pos + n <= 8 * |buf| && firstByte == pos / 8 && lastByte == (pos + n - 1) / 8
    ensures var pad := (lastByte + 1) * 8 - (pos + n);
            0 <= pad
            && Value(BitsOf(buf)[pos..pos + n]) == Low(Shr(Load(buf[firstByte..lastByte + 1]), pad), n)
  {
    hide Low, Shr, Load, Value, BitsOf;
    var span := buf[firstByte..lastByte + 1];
    var bits := BitsOf(span);
    BitsOfSlice(buf, firstByte, lastByte + 1);
    LoadValue(span);
    FieldRead(bits, pos - 8 * firstByte, n);
    assert bits[pos - 8 * firstByte..pos - 8 * firstByte + n] == BitsOf(buf)[pos..pos + n];
  }
}
