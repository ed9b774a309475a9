/**
 Bytes, bits and big-endian bit fields.  Every parser that reads fields MSB-first
 (the AU headers of RFC 3640, LATM, the AAL2 packing of G.726) is stated on the
 bit sequence `BitsOf(bytes)`; this module relates that view to the shifts and masks
 the code performs.  Shifts are defined one bit at a time, which keeps every proof
 about them linear.
 */
module Bits {

  type byte = x: int | 0 <= x < 256

  type bit = x: int | 0 <= x < 2

  // ---- shifts and masks ----------------------------------------------------

  /** v << n */
  function Shl(v: int, n: nat): (r: int)
    ensures 0 <= v ==> v <= r
  {
    if n == 0 then v else 2 * Shl(v, n - 1)
  }

  /** v >> n, rounding towards minus infinity. */
  function Shr(v: int, n: nat): (r: int)
    ensures 0 <= v ==> 0 <= r <= v
    decreases n
  {
    if n == 0 then v else Shr(v / 2, n - 1)
  }

  /** v & ((1 << n) - 1) */
  function Low(v: nat, n: nat): (r: nat)
    ensures r < Pow2(n)
  {
    if n == 0 then 0 else 2 * Low(v / 2, n - 1) + v % 2
  }

  function Pow2(n: nat): (p: nat)
    ensures 1 <= p
  {
    if n == 0 then 1 else 2 * Pow2(n - 1)
  }

  lemma Pow2Values()
    ensures Pow2(1) == 2 && Pow2(2) == 4 && Pow2(3) == 8 && Pow2(4) == 16 && Pow2(5) == 32
    ensures Pow2(8) == 256 && Pow2(15) == 32768 && Pow2(16) == 65536
  {
  }

  lemma {:induction false} Pow2Monotone(a: nat, b: nat)
    requires a <= b
    ensures Pow2(a) <= Pow2(b)
  {
    if a < b {
      Pow2Monotone(a, b - 1);
    }
  }

  lemma {:induction false} ShlAdd(v: int, w: int, n: nat)
    ensures Shl(v + w, n) == Shl(v, n) + Shl(w, n)
  {
    if 0 < n {
      ShlAdd(v, w, n - 1);
    }
  }

  lemma {:induction false} ShlShl(v: int, m: nat, n: nat)
    ensures Shl(Shl(v, m), n) == Shl(v, m + n)
  {
    if 0 < n {
      ShlShl(v, m, n - 1);
    }
  }

  lemma {:induction false} ShlOne(n: nat)
    ensures Shl(1, n) == Pow2(n)
  {
    if 0 < n {
      ShlOne(n - 1);
    }
  }

  lemma {:induction false} ShlZero(n: nat)
    ensures Shl(0, n) == 0
  {
    if 0 < n {
      ShlZero(n - 1);
    }
  }

  lemma {:induction false} ShlMonotone(v: int, w: int, n: nat)
    requires v <= w
    ensures Shl(v, n) <= Shl(w, n)
  {
    if 0 < n {
      ShlMonotone(v, w, n - 1);
    }
  }

  /** A wider shift of a non-negative value is at least as large. */
  lemma {:induction false} ShlWider(v: nat, m: nat, n: nat)
    requires m <= n
    ensures Shl(v, m) <= Shl(v, n)
  {
    if m < n {
      ShlWider(v, m, n - 1);
    }
  }

  lemma {:induction false} ShrMonotone(v: int, w: int, n: nat)
    requires v <= w
    ensures Shr(v, n) <= Shr(w, n)
    decreases n
  {
    if 0 < n {
      ShrMonotone(v / 2, w / 2, n - 1);
    }
  }

  lemma {:induction false} ShrStep(v: int, n: nat)
    ensures Shr(v, n + 1) == Shr(v, n) / 2
    decreases n
  {
    if 0 < n {
      ShrStep(v / 2, n - 1);
    }
  }

  /** Shifting right undoes shifting left and drops whatever was put below. */
  lemma {:induction false} ShrOfShl(q: int, r: nat, n: nat)
    requires r < Pow2(n)
    ensures Shr(Shl(q, n) + r, n) == q
  {
    if 0 < n {
      assert (Shl(q, n) + r) / 2 == Shl(q, n - 1) + r / 2;
      ShrOfShl(q, r / 2, n - 1);
    }
  }

  /** Masking keeps exactly what was put below a left shift. */
  lemma {:induction false} LowOfShl(q: nat, r: nat, n: nat)
    requires r < Pow2(n)
    ensures Low(Shl(q, n) + r, n) == r
  {
    if 0 < n {
      assert (Shl(q, n) + r) / 2 == Shl(q, n - 1) + r / 2;
      LowOfShl(q, r / 2, n - 1);
    }
  }

  // ---- bit strings ---------------------------------------------------------

  /** Bit `i` of a byte, counted from the most significant one. */
  function BitOf(b: byte, i: nat): bit
    requires i < 8
  {
    Shr(b, 7 - i) % 2
  }

  function ByteBits(b: byte): (r: seq<bit>)
    ensures |r| == 8
  {
    [BitOf(b, 0), BitOf(b, 1), BitOf(b, 2), BitOf(b, 3), BitOf(b, 4), BitOf(b, 5), BitOf(b, 6), BitOf(b, 7)]
  }

  /** The bits of a byte string in MSB-first order. */
  function BitsOf(bs: seq<byte>): (r: seq<bit>)
    ensures |r| == 8 * |bs|
  {
    if bs == [] then [] else ByteBits(bs[0]) + BitsOf(bs[1..])
  }

  lemma {:induction false} BitsOfConcat(a: seq<byte>, b: seq<byte>)
    ensures BitsOf(a + b) == BitsOf(a) + BitsOf(b)
  {
    hide ByteBits;
    if a == [] {
      assert a + b == b;
    } else {
      assert (a + b)[1..] == a[1..] + b;
      BitsOfConcat(a[1..], b);
    }
  }

  lemma {:induction false} BitsOfSlice(bs: seq<byte>, lo: nat, hi: nat)
    requires lo <= hi <= |bs|
    ensures BitsOf(bs[lo..hi]) == BitsOf(bs)[8 * lo..8 * hi]
  {
    hide BitsOf;
    var pre, mid, post := bs[..lo], bs[lo..hi], bs[hi..];
    assert bs == pre + (mid + post);
    BitsOfConcat(pre, mid + post);
    BitsOfConcat(mid, post);
  }

  lemma BitsOfOne(b: byte)
    ensures BitsOf([b]) == ByteBits(b)
  {
    assert [b][1..] == [];
    assert BitsOf([]) == [];
  }

  /** The number a big-endian bit string denotes. */
  function Value(bits: seq<bit>): (v: nat)
    ensures v < Pow2(|bits|)
  {
    if bits == [] then 0 else 2 * Value(bits[..|bits| - 1]) + bits[|bits| - 1]
  }

  lemma {:induction false} ValueConcat(a: seq<bit>, b: seq<bit>)
    ensures Value(a + b) == Shl(Value(a), |b|) + Value(b)
  {
    if b == [] {
      assert a + b == a;
    } else {
      var m := b[..|b| - 1];
      assert (a + b)[..|a + b| - 1] == a + m;
      ValueConcat(a, m);
    }
  }

  /** Equal-length bit strings that denote the same number are equal. */
  lemma {:induction false} ValueInjective(a: seq<bit>, b: seq<bit>)
    requires |a| == |b| && Value(a) == Value(b)
    ensures a == b
  {
    if a != [] {
      var n := |a| - 1;
      var x, y: nat := Value(a[..n]), Value(b[..n]);
      assert 2 * x + a[n] == 2 * y + b[n];
      assert x == y;
      ValueInjective(a[..n], b[..n]);
      assert a == a[..n] + [a[n]] && b == b[..n] + [b[n]];
    }
  }

  /** `v` written in `n` bits, most significant first. */
  function FieldBits(v: nat, n: nat): (r: seq<bit>)
    requires v < Pow2(n)
    ensures |r| == n && Value(r) == v
  {
    if n == 0 then [] else
      var r := FieldBits(v / 2, n - 1) + [v % 2];
      assert r[..n - 1] == FieldBits(v / 2, n - 1);
      r
  }

  lemma FieldOfParts(pre: seq<bit>, mid: seq<bit>, post: seq<bit>)
    ensures Value(mid) == Low(Shr(Value(pre + mid + post), |post|), |mid|)
  {
    hide Value, Shl, Shr, Low, Pow2;
    ValueConcat(pre + mid, post);
    ValueConcat(pre, mid);
    ShrOfShl(Value(pre + mid), Value(post), |post|);
    LowOfShl(Value(pre), Value(mid), |mid|);
  }

  /** Shifting a loaded accumulator right and masking it selects one field. */
  lemma FieldRead(bits: seq<bit>, lo: nat, n: nat)
    requires lo + n <= |bits|
    ensures Value(bits[lo..lo + n]) == Low(Shr(Value(bits), |bits| - (lo + n)), n)
  {
    hide Value, Shr, Low;
    FieldOfParts(bits[..lo], bits[lo..lo + n], bits[lo + n..]);
    assert bits == bits[..lo] + bits[lo..lo + n] + bits[lo + n..];
  }

  lemma ShrByte(b: byte)
    ensures Shr(b, 8) == 0
  {
    Pow2Values();
    ShrOfShl(0, b, 8);
    ShlZero(8);
  }

  lemma ByteBitsAt(b: byte, i: nat)
    requires i < 8
    ensures ByteBits(b)[i] == BitOf(b, i)
  {
  }

  lemma {:induction false} TopBits(b: byte, k: nat)
    requires k <= 8
    ensures Value(ByteBits(b)[..k]) == Shr(b, 8 - k)
  {
    var s := ByteBits(b);
    if k == 0 {
      ShrByte(b);
    } else {
      hide Shr, ByteBits;
      TopBits(b, k - 1);
      assert s[..k][..k - 1] == s[..k - 1];
      ShrStep(b, 8 - k);
      ByteBitsAt(b, k - 1);
    }
  }

  lemma ByteValue(b: byte)
    ensures Value(ByteBits(b)) == b
  {
    TopBits(b, 8);
    assert ByteBits(b)[..8] == ByteBits(b);
  }

  /** Byte strings with the same bits are the same bytes. */
  lemma {:induction false} BitsOfInjective(a: seq<byte>, b: seq<byte>)
    requires BitsOf(a) == BitsOf(b)
    ensures a == b
  {
    hide ByteBits;
    if a != [] && b != [] {
      assert BitsOf(a)[..8] == ByteBits(a[0]) && BitsOf(b)[..8] == ByteBits(b[0]);
      assert BitsOf(a)[8..] == BitsOf(a[1..]) && BitsOf(b)[8..] == BitsOf(b[1..]);
      ByteValue(a[0]);
      ByteValue(b[0]);
      BitsOfInjective(a[1..], b[1..]);
      assert a == [a[0]] + a[1..] && b == [b[0]] + b[1..];
    }
  }

  function Zeros(n: nat): seq<bit> { seq(n, _ => 0) }

  /** Left-justified packing, the final byte padded with zero bits. */
  function Pack(bits: seq<bit>): (r: seq<byte>)
    ensures |r| == (|bits| + 7) / 8
    decreases |bits|
  {
    Pow2Values();
    if bits == [] then []
    else if |bits| < 8 then [Value(bits + Zeros(8 - |bits|))]
    else [Value(bits[..8])] + Pack(bits[8..])
  }

  lemma BitsOfByte(b: byte, bits: seq<bit>)
    requires |bits| == 8 && Value(bits) == b
    ensures BitsOf([b]) == bits
  {
    ByteValue(b);
    ValueInjective(ByteBits(b), bits);
    BitsOfOne(b);
  }

  /** Packing keeps every bit and appends only zeros. */
  lemma {:induction false} PackBits(bits: seq<bit>)
    ensures |bits| <= 8 * |Pack(bits)|
    ensures BitsOf(Pack(bits)) == bits + Zeros(8 * |Pack(bits)| - |bits|)
    decreases |bits|
  {
    hide BitsOf, Value;
    if bits == [] {
      assert BitsOf([]) == [];
    } else if |bits| < 8 {
      var padded := bits + Zeros(8 - |bits|);
      BitsOfByte(Pack(bits)[0], padded);
    } else {
      BitsOfByte(Pack(bits)[0], bits[..8]);
      PackBits(bits[8..]);
      BitsOfConcat([Pack(bits)[0]], Pack(bits[8..]));
      assert bits == bits[..8] + bits[8..];
    }
  }

  lemma PackOfBits(bs: seq<byte>)
    ensures Pack(BitsOf(bs)) == bs
  {
    PackBits(BitsOf(bs));
    BitsOfInjective(Pack(BitsOf(bs)), bs);
  }

  /** acc << 8 | x over a byte string: how the field readers load whole bytes. */
  function Load(bs: seq<byte>): nat
  {
    if bs == [] then 0 else 256 * Load(bs[..|bs| - 1]) + bs[|bs| - 1]
  }

  lemma {:induction false} LoadValue(bs: seq<byte>)
    ensures Load(bs) == Value(BitsOf(bs))
  {
    hide BitsOf, Value;
    if bs == [] {
      assert BitsOf(bs) == [] && Value([]) == 0;
    } else {
      var init, last := bs[..|bs| - 1], bs[|bs| - 1];
      LoadValue(init);
      assert bs == init + [last];
      BitsOfConcat(init, [last]);
      ByteValue(last);
      BitsOfOne(last);
      ValueConcat(BitsOf(init), ByteBits(last));
      ShlEight(Value(BitsOf(init)));
    }
  }

  lemma ShlEight(v: int)
    ensures Shl(v, 8) == 256 * v
  {
    assert Shl(v, 1) == 2 * Shl(v, 0) && Shl(v, 2) == 2 * Shl(v, 1) && Shl(v, 3) == 2 * Shl(v, 2);
    assert Shl(v, 4) == 2 * Shl(v, 3) && Shl(v, 5) == 2 * Shl(v, 4) && Shl(v, 6) == 2 * Shl(v, 5);
    assert Shl(v, 7) == 2 * Shl(v, 6);
  }
}
