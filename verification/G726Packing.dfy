/**
 The two codeword packings of G.726 payloads: RFC 3551 section 4.5.4, first codeword in
 the least significant bits, and the AAL2 order of I.366.2 Annex E, first codeword in
 the most significant bits.
 */
module G726Packing {
  import opened Bits

  datatype Packing = Rfc3551 | Aal2

  function Reverse(s: seq<bit>): (r: seq<bit>)
    ensures |r| == |s|
    ensures forall i :: 0 <= i < |s| ==> r[i] == s[|s| - 1 - i]
  {
    if s == [] then [] else Reverse(s[1..]) + [s[0]]
  }

  /** The bits of a payload in transmission order: octet bit 0 first for RFC 3551, bit 7 first for AAL2. */
  function WireBits(p: Packing, payload: seq<byte>): (r: seq<bit>)
    ensures |r| == 8 * |payload|
  {
    if payload == [] then [] else WireByte(p, payload[0]) + WireBits(p, payload[1..])
  }

  function WireByte(p: Packing, b: byte): (r: seq<bit>)
    ensures |r| == 8
  {
    match p
    case Aal2 => ByteBits(b)
    case Rfc3551 => Reverse(ByteBits(b))
  }

  lemma {:induction false} WireBitsConcat(p: Packing, a: seq<byte>, b: seq<byte>)
    ensures WireBits(p, a + b) == WireBits(p, a) + WireBits(p, b)
  {
    if a == [] {
      assert a + b == b;
    } else {
      hide WireByte;
      assert (a + b)[1..] == a[1..] + b;
      WireBitsConcat(p, a[1..], b);
    }
  }

  lemma WireByteAt(p: Packing, b: byte, i: nat)
    requires i < 8
    ensures WireByte(p, b)[i] == BitOf(b, if p.Aal2? then i else 7 - i)
  {
    hide ByteBits, BitOf;
    ByteBitsAt(b, if p.Aal2? then i else 7 - i);
  }

  lemma {:induction false} WireBitsAt(p: Packing, payload: seq<byte>, g: nat)
    requires g < 8 * |payload|
    ensures WireBits(p, payload)[g] == BitOf(payload[g / 8], if p.Aal2? then g % 8 else 7 - g % 8)
    decreases g
  {
    hide WireByte, BitOf;
    if g < 8 {
      WireByteAt(p, payload[0], g);
    } else {
      WireBitsAt(p, payload[1..], g - 8);
    }
  }

  /** The value of a codeword's transmitted bits: least significant first for RFC 3551. */
  function CodeValue(p: Packing, bits: seq<bit>): (v: nat)
    ensures v < Pow2(|bits|)
  {
    match p
    case Aal2 => Value(bits)
    case Rfc3551 => Value(Reverse(bits))
  }

  /** The bits transmitted for a codeword of width `w`. */
  function CodeBits(p: Packing, w: nat, code: nat): (r: seq<bit>)
    requires code < Pow2(w)
    ensures |r| == w && CodeValue(p, r) == code
  {
    match p
    case Aal2 => FieldBits(code, w)
    case Rfc3551 =>
      var f := FieldBits(code, w);
      assert Reverse(Reverse(f)) == f;
      Reverse(f)
  }

  /** The codewords in a string of transmitted bits. */
  function CodesIn(p: Packing, w: nat, bits: seq<bit>): (codes: seq<nat>)
    requires 0 < w
    ensures forall i :: 0 <= i < |codes| ==> codes[i] < Pow2(w)
    decreases |bits|
  {
    if |bits| < w then [] else [CodeValue(p, bits[..w])] + CodesIn(p, w, bits[w..])
  }

  lemma {:induction false} CodesInLength(p: Packing, w: nat, bits: seq<bit>)
    requires 2 <= w <= 5
    ensures |CodesIn(p, w, bits)| == |bits| / w
    decreases |bits|
  {
    hide CodeValue;
    if w <= |bits| {
      CodesInLength(p, w, bits[w..]);
      if w == 2 {
      } else if w == 3 {
      } else if w == 4 {
      } else {
        assert w == 5;
      }
    } else {
      assert |bits| / w == 0;
    }
  }

  lemma ShortWhole(n: nat, w: nat)
    requires n < w && n % w == 0
    ensures n == 0
  {
  }

  lemma WholeLess(n: nat, w: nat)
    requires 2 <= w <= 5 && w <= n && n % w == 0
    ensures (n - w) % w == 0
  {
    if w == 2 {
    } else if w == 3 {
    } else if w == 4 {
    } else {
      assert w == 5;
    }
  }

  lemma {:induction false} CodesInConcat(p: Packing, w: nat, a: seq<bit>, b: seq<bit>)
    requires 2 <= w <= 5 && |a| % w == 0
    ensures CodesIn(p, w, a + b) == CodesIn(p, w, a) + CodesIn(p, w, b)
    decreases |a|
  {
    hide CodeValue;
    if |a| < w {
      ShortWhole(|a|, w);
      assert a + b == b;
    } else {
      WholeLess(|a|, w);
      CodesInConcat(p, w, a[w..], b);
      assert (a + b)[..w] == a[..w] && (a + b)[w..] == a[w..] + b;
    }
  }

  /** The bits transmitted for a list of codewords. */
  function WireOf(p: Packing, w: nat, codes: seq<nat>): (r: seq<bit>)
    requires forall i :: 0 <= i < |codes| ==> codes[i] < Pow2(w)
  {
    if codes == [] then [] else CodeBits(p, w, codes[0]) + WireOf(p, w, codes[1..])
  }

  lemma {:induction false} WireLength(p: Packing, w: nat, codes: seq<nat>)
    requires 2 <= w <= 5 && forall i :: 0 <= i < |codes| ==> codes[i] < Pow2(w)
    ensures |WireOf(p, w, codes)| == w * |codes|
  {
    hide CodeBits, CodeValue, Pow2;
    if codes != [] {
      WireLength(p, w, codes[1..]);
      assert w * (1 + |codes[1..]|) == w + w * |codes[1..]|;
    }
  }

  lemma {:induction false} CodesInWire(p: Packing, w: nat, codes: seq<nat>)
    requires 0 < w && forall i :: 0 <= i < |codes| ==> codes[i] < Pow2(w)
    ensures CodesIn(p, w, WireOf(p, w, codes)) == codes
  {
    hide CodeBits, CodeValue, Pow2;
    if codes != [] {
      CodesInWire(p, w, codes[1..]);
      var bits := WireOf(p, w, codes);
      assert bits[..w] == CodeBits(p, w, codes[0]) && bits[w..] == WireOf(p, w, codes[1..]);
    }
  }

  /** Octets carrying transmitted bits that fill them. */
  function Octets(p: Packing, bits: seq<bit>): (r: seq<byte>)
    requires |bits| % 8 == 0
    ensures |r| == |bits| / 8
    decreases |bits|
  {
    if bits == [] then [] else
      Pow2Values();
      [CodeValue(p, bits[..8])] + Octets(p, bits[8..])
  }

  lemma OctetBits(p: Packing, b: byte, bits: seq<bit>)
    requires |bits| == 8 && CodeValue(p, bits) == b
    ensures WireBits(p, [b]) == bits
  {
    hide ByteBits, Value, Reverse;
    ByteValue(b);
    assert WireBits(p, [b]) == WireByte(p, b) by {
      assert [b][1..] == [];
      assert WireBits(p, []) == [];
    }
    ValueInjective(ByteBits(b), if p.Aal2? then bits else Reverse(bits));
    assert Reverse(Reverse(bits)) == bits;
  }

  lemma {:induction false} OctetsBits(p: Packing, bits: seq<bit>)
    requires |bits| % 8 == 0
    ensures WireBits(p, Octets(p, bits)) == bits
    decreases |bits|
  {
    hide CodeValue, WireBits;
    if bits == [] {
      assert |Octets(p, bits)| == 0;
    } else {
      Pow2Values();
      var b: byte := CodeValue(p, bits[..8]);
      OctetBits(p, b, bits[..8]);
      OctetsBits(p, bits[8..]);
      WireBitsConcat(p, [b], Octets(p, bits[8..]));
      assert bits == bits[..8] + bits[8..];
    }
  }

  /** A payload carrying `codes`, which must fill whole octets. */
  function PackPayload(p: Packing, w: nat, codes: seq<nat>): (payload: seq<byte>)
    requires 0 < w && (forall i :: 0 <= i < |codes| ==> codes[i] < Pow2(w))
    requires |WireOf(p, w, codes)| % 8 == 0
    ensures CodesIn(p, w, WireBits(p, payload)) == codes
  {
    CodesInWire(p, w, codes);
    OctetsBits(p, WireOf(p, w, codes));
    Octets(p, WireOf(p, w, codes))
  }

  // ---- codeword readers ----------------------------------------------------

  lemma ReverseOfSnoc(x: seq<bit>, b: bit)
    ensures Reverse(x + [b]) == [b] + Reverse(x)
  {
  }

  lemma ReverseSnoc(x: seq<bit>, b: bit)
    ensures Value(Reverse(x + [b])) == Shl(b, |x|) + Value(Reverse(x))
  {
    hide Reverse;
    ReverseOfSnoc(x, b);
    ValueConcat([b], Reverse(x));
    assert [b][..0] == [];
    assert Value([b]) == b;
  }

  /** Reads a codeword transmitted least significant bit first. */
  method ReadCodewordLSB(payload: seq<byte>, pos: nat, width: nat) returns (v: nat)
    requires pos + width <= 8 * |payload|
    ensures v == CodeValue(Rfc3551, WireBits(Rfc3551, payload)[pos..pos + width])
  {
    hide Value, Reverse, WireBits, Shr, Shl;
    ghost var bits := WireBits(Rfc3551, payload);
    v := 0;
    assert Value(Reverse([])) == 0 by { ValueEmpty(); }
    assert bits[pos..pos] == [];
    for i := 0 to width
      invariant v == Value(Reverse(bits[pos..pos + i]))
    {
      var g := pos + i;
      WireBitsAt(Rfc3551, payload, g);
      var b := Shr(payload[g / 8], g % 8) % 2;
      ReverseSnoc(bits[pos..pos + i], b);
      assert bits[pos..pos + i + 1] == bits[pos..pos + i] + [bits[g]];
      v := v + Shl(b, i);
    }
  }

  lemma ValueEmpty()
    ensures Value([]) == 0 && Value(Reverse([])) == 0
  {
  }

  /** Reads a codeword transmitted most significant bit first. */
  method ReadCodewordMSB(payload: seq<byte>, pos: nat, width: nat) returns (v: nat)
    requires pos + width <= 8 * |payload|
    ensures v == CodeValue(Aal2, WireBits(Aal2, payload)[pos..pos + width])
  {
    hide WireBits, Shr;
    ghost var bits := WireBits(Aal2, payload);
    v := 0;
    for i := 0 to width
      invariant v == Value(bits[pos..pos + i])
    {
      var g := pos + i;
      WireBitsAt(Aal2, payload, g);
      var b := Shr(payload[g / 8], 7 - g % 8) % 2;
      assert bits[pos..pos + i + 1][..i] == bits[pos..pos + i];
      v := 2 * v + b;
    }
  }
}
