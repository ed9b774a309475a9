/**
 AAC-hbr over RTP (RFC 3640): the AU-header section, access units tiling a payload, and
 reassembly of one access unit fragmented over packets.
 */
module AacRtp {
  import opened Bits
  import opened BitFields

  const MaxAUsPerPacket: nat := 512
  const MaxFragmentSize: nat := 64 * 1024

  datatype Error = ConfigInvalid | TruncatedHeader | AUSizeOverflow | FragmentOverflow | InterleavingUnsupported

  datatype Result<+T> = Ok(value: T) | Err(error: Error) {
    predicate IsFailure() { Err? }
    function PropagateFailure<U>(): Result<U> requires Err? { Err(error) }
    function Extract(): T requires Ok? { value }
  }

  datatype Config = Config(sizeLength: int, indexLength: int, indexDeltaLength: int, samplesPerFrame: int)

  /** What New accepts. */
  predicate ValidConfig(c: Config)
  {
    && 1 <= c.sizeLength <= 31
    && 0 <= c.indexLength <= 32 && 0 <= c.indexDeltaLength <= 32
    && 1 <= c.samplesPerFrame <= 8192
    && c.sizeLength + c.indexLength <= 64 && c.sizeLength + c.indexDeltaLength <= 64
  }

  // ---- AU headers ----------------------------------------------------------

  function IndexBits(c: Config, count: nat): nat
    requires ValidConfig(c)
  {
    if count == 0 then c.indexLength else c.indexDeltaLength
  }

  /** The AU sizes in a header section, `count` headers having been read before it. */
  function Sizes(c: Config, bits: seq<bit>, count: nat): Result<seq<nat>>
    requires ValidConfig(c)
    decreases |bits|
  {
    if bits == [] then Ok([])
    else if count >= MaxAUsPerPacket then Err(TruncatedHeader)
    else
      var n := c.sizeLength + IndexBits(c, count);
      if n > |bits| then Err(TruncatedHeader)
      else if Value(bits[c.sizeLength..n]) != 0 then Err(InterleavingUnsupported)
      else
        var rest :- Sizes(c, bits[n..], count + 1);
        Ok([Value(bits[..c.sizeLength])] + rest)
  }

  /** One step of the header list. */
  lemma SizesUnfold(c: Config, bits: seq<bit>, count: nat)
    requires ValidConfig(c)
    ensures bits == [] ==> Sizes(c, bits, count) == Ok([])
    ensures bits != [] && count >= MaxAUsPerPacket ==> Sizes(c, bits, count) == Err(TruncatedHeader)
    ensures var n := c.sizeLength + IndexBits(c, count);
            bits != [] && count < MaxAUsPerPacket ==>
              && (n > |bits| ==> Sizes(c, bits, count) == Err(TruncatedHeader))
              && (n <= |bits| && Value(bits[c.sizeLength..n]) != 0 ==>
                    Sizes(c, bits, count) == Err(InterleavingUnsupported))
              && (n <= |bits| && Value(bits[c.sizeLength..n]) == 0 ==>
                    Sizes(c, bits, count) == Prepended([Value(bits[..c.sizeLength])], Sizes(c, bits[n..], count + 1)))
  {
    hide Value;
  }

  datatype Headers = Headers(sizes: seq<nat>, dataStart: nat)

  /** The header section of a payload: a 16-bit length in bits, then the headers, byte-padded. */
  function ParseAUHeaders(c: Config, payload: seq<byte>): (r: Result<Headers>)
    requires ValidConfig(c)
    ensures r.Ok? ==> r.value.dataStart <= |payload|
  {
    if |payload| < 2 then Err(TruncatedHeader)
    else
      var l: nat := 256 * (payload[0] as int) + payload[1] as int;
      var dataStart := 2 + (l + 7) / 8;
      if l == 0 || |payload| < dataStart then Err(TruncatedHeader)
      else
        var sizes :- Sizes(c, BitsOf(payload[2..dataStart])[..l], 0);
        Ok(Headers(sizes, dataStart))
  }

  // ---- the transform -------------------------------------------------------

  datatype AU = AU(data: seq<byte>, rtpOffset: nat)

  datatype State = Idle | Partial(frag: seq<byte>, total: nat)

  datatype Outcome = Outcome(state: State, result: Result<seq<AU>>)

  /** A frame in progress is short of its declared size, which is within the cap. */
  predicate Bounded(s: State)
  {
    s.Partial? ==> |s.frag| < s.total <= MaxFragmentSize
  }

  /** RTP ticks of access unit `i`; the code keeps its low 32 bits. */
  function Offset(c: Config, i: nat): nat
    requires ValidConfig(c)
  {
    i * c.samplesPerFrame
  }

  /** Access units `i` onwards, laid end to end in `data`. */
  function Tile(c: Config, sizes: seq<nat>, data: seq<byte>, i: nat): Result<seq<AU>>
    requires ValidConfig(c)
    decreases |sizes|
  {
    if sizes == [] then Ok([])
    else if sizes[0] > |data| then Err(AUSizeOverflow)
    else
      var rest :- Tile(c, sizes[1..], data[sizes[0]..], i + 1);
      Ok([AU(data[..sizes[0]], Offset(c, i) % 0x1_0000_0000)] + rest)
  }

  function Continue(s: State, sizes: seq<nat>, data: seq<byte>, marker: bool): Outcome
    requires s.Partial?
  {
    if |sizes| != 1 then Outcome(Idle, Err(TruncatedHeader))
    else if sizes[0] != s.total then Outcome(Idle, Err(AUSizeOverflow))
    else if |s.frag| + |data| > s.total || |s.frag| + |data| > MaxFragmentSize then Outcome(Idle, Err(FragmentOverflow))
    else if marker && |s.frag| + |data| < s.total then Outcome(Idle, Err(AUSizeOverflow))
    else if marker then Outcome(Idle, Ok([AU(s.frag + data, 0)]))
    else if |s.frag| + |data| == s.total then Outcome(Idle, Err(AUSizeOverflow))
    else Outcome(Partial(s.frag + data, s.total), Ok([]))
  }

  function Begin(c: Config, sizes: seq<nat>, data: seq<byte>, marker: bool): Outcome
    requires ValidConfig(c)
  {
    if |sizes| == 1 && sizes[0] > |data| then
      if marker then Outcome(Idle, Err(AUSizeOverflow))
      else if sizes[0] > MaxFragmentSize then Outcome(Idle, Err(FragmentOverflow))
      else Outcome(Partial(data, sizes[0]), Ok([]))
    else Outcome(Idle, Tile(c, sizes, data, 0))
  }

  function Process(c: Config, s: State, payload: seq<byte>, marker: bool): Outcome
    requires ValidConfig(c)
  {
    var h := ParseAUHeaders(c, payload);
    if h.Err? then Outcome(Idle, Err(h.error))
    else if s.Partial? then Continue(s, h.value.sizes, payload[h.value.dataStart..], marker)
    else Begin(c, h.value.sizes, payload[h.value.dataStart..], marker)
  }

  /** Whatever arrives, a partial unit stays within its bound and every error abandons it. */
  lemma ProcessBounded(c: Config, s: State, payload: seq<byte>, marker: bool)
    requires ValidConfig(c) && Bounded(s)
    ensures var r := Process(c, s, payload, marker);
            Bounded(r.state) && (r.result.Err? ==> r.state.Idle?)
  {
    hide ParseAUHeaders, Tile;
  }

  // ---- packing -------------------------------------------------------------

  /** The header bits for a list of sizes, all indices zero. */
  function HeaderBits(c: Config, sizes: seq<nat>, count: nat): (r: seq<bit>)
    requires ValidConfig(c)
    requires forall i :: 0 <= i < |sizes| ==> sizes[i] < Pow2(c.sizeLength)
    ensures |r| <= 63 * |sizes| && (sizes != [] ==> r != [])
    decreases |sizes|
  {
    if sizes == [] then [] else
      FieldBits(sizes[0], c.sizeLength) + Zeros(IndexBits(c, count)) + HeaderBits(c, sizes[1..], count + 1)
  }

  lemma {:induction false} ValueOfZeros(n: nat)
    ensures Value(Zeros(n)) == 0
  {
    if n > 0 {
      assert Zeros(n)[..n - 1] == Zeros(n - 1);
      ValueOfZeros(n - 1);
    }
  }

  lemma {:induction false} SizesOfHeaderBits(c: Config, sizes: seq<nat>, count: nat)
    requires ValidConfig(c) && count + |sizes| <= MaxAUsPerPacket
    requires forall i :: 0 <= i < |sizes| ==> sizes[i] < Pow2(c.sizeLength)
    ensures Sizes(c, HeaderBits(c, sizes, count), count) == Ok(sizes)
    decreases |sizes|
  {
    hide FieldBits, Value, Pow2;
    if sizes != [] {
      var k := c.sizeLength;
      var n := k + IndexBits(c, count);
      var f, z, rest := FieldBits(sizes[0], k), Zeros(IndexBits(c, count)), HeaderBits(c, sizes[1..], count + 1);
      var bits := HeaderBits(c, sizes, count);
      assert bits == f + z + rest;
      assert bits[..k] == f && bits[k..n] == z && bits[n..] == rest;
      assert sizes == [sizes[0]] + sizes[1..];
      ValueOfZeros(|z|);
      SizesOfHeaderBits(c, sizes[1..], count + 1);
    }
  }

  function Joined(aus: seq<seq<byte>>): seq<byte>
  {
    if aus == [] then [] else aus[0] + Joined(aus[1..])
  }

  function SizesOf(aus: seq<seq<byte>>): (r: seq<nat>)
    ensures |r| == |aus| && forall i :: 0 <= i < |aus| ==> r[i] == |aus[i]|
  {
    seq(|aus|, i requires 0 <= i < |aus| => |aus[i]|)
  }

  /** An RTP payload declaring `sizes` and carrying `data`. */
  function PackPayload(c: Config, sizes: seq<nat>, data: seq<byte>): seq<byte>
    requires ValidConfig(c) && 0 < |sizes| <= MaxAUsPerPacket
    requires forall i :: 0 <= i < |sizes| ==> sizes[i] < Pow2(c.sizeLength)
  {
    var bits := HeaderBits(c, sizes, 0);
    [|bits| / 256, |bits| % 256] + Pack(bits) + data
  }

  /** Parsing undoes packing, for every configuration New accepts. */
  lemma ParseOfPacked(c: Config, sizes: seq<nat>, data: seq<byte>)
    requires ValidConfig(c) && 0 < |sizes| <= MaxAUsPerPacket
    requires forall i :: 0 <= i < |sizes| ==> sizes[i] < Pow2(c.sizeLength)
    ensures var p := PackPayload(c, sizes, data);
            var h := ParseAUHeaders(c, p);
            h.Ok? && h.value.sizes == sizes && p[h.value.dataStart..] == data
  {
    hide HeaderBits, Pack, BitsOf, Sizes;
    var bits := HeaderBits(c, sizes, 0);
    var p := PackPayload(c, sizes, data);
    var start := 2 + |Pack(bits)|;
    assert p[2..start] == Pack(bits) && p[start..] == data;
    PackBits(bits);
    assert BitsOf(Pack(bits))[..|bits|] == bits;
    SizesOfHeaderBits(c, sizes, 0);
  }

  lemma {:induction false} TileOfJoined(c: Config, aus: seq<seq<byte>>, i: nat, tail: seq<byte>)
    requires ValidConfig(c) && i + |aus| <= MaxAUsPerPacket
    ensures var r := Tile(c, SizesOf(aus), Joined(aus) + tail, i);
            && r.Ok? && |r.value| == |aus|
            && (forall k :: 0 <= k < |aus| ==> r.value[k] == AU(aus[k], Offset(c, i + k)))
    decreases |aus|
  {
    hide Offset;
    if aus != [] {
      var data := Joined(aus) + tail;
      assert data[..|aus[0]|] == aus[0] && data[|aus[0]|..] == Joined(aus[1..]) + tail;
      assert SizesOf(aus)[1..] == SizesOf(aus[1..]);
      TileOfJoined(c, aus[1..], i + 1, tail);
      OffsetFits(c, i);
    }
  }

  lemma OffsetFits(c: Config, i: nat)
    requires ValidConfig(c) && i < MaxAUsPerPacket
    ensures 0 <= Offset(c, i) < 0x1_0000_0000
  {
    var spf := c.samplesPerFrame;
    assert 0 <= (8192 - spf) * i == 8192 * i - spf * i;
  }

  /**
   A packet of whole access units gives them back in order, tiling the payload, unit `k` at
   offset k * SamplesPerFrame; bytes after the last are ignored.
   */
  lemma WholeUnits(c: Config, aus: seq<seq<byte>>, tail: seq<byte>, marker: bool)
    requires ValidConfig(c) && 0 < |aus| <= MaxAUsPerPacket
    requires forall i :: 0 <= i < |aus| ==> |aus[i]| < Pow2(c.sizeLength)
    ensures var r := Process(c, Idle, PackPayload(c, SizesOf(aus), Joined(aus) + tail), marker);
            && r.state == Idle && r.result.Ok? && |r.result.value| == |aus|
            && forall k :: 0 <= k < |aus| ==> r.result.value[k] == AU(aus[k], Offset(c, k))
  {
    hide PackPayload, ParseAUHeaders, Tile, Pow2, Offset;
    ParseOfPacked(c, SizesOf(aus), Joined(aus) + tail);
    TileOfJoined(c, aus, 0, tail);
    if |aus| == 1 {
      assert |Joined(aus)| >= |aus[0]|;
    }
  }

  // ---- fragmentation -------------------------------------------------------

  /** State after the first `k` pieces of a unit of `total` bytes, none of them final. */
  function AfterPieces(c: Config, s: State, pieces: seq<seq<byte>>, total: nat): State
    requires ValidConfig(c) && total < Pow2(c.sizeLength)
    decreases |pieces|
  {
    if pieces == [] then s else
      AfterPieces(c, Process(c, s, PackPayload(c, [total], pieces[0]), false).state, pieces[1..], total)
  }

  lemma {:induction false} PiecesAccumulate(c: Config, frag: seq<byte>, pieces: seq<seq<byte>>, total: nat)
    requires ValidConfig(c) && total < Pow2(c.sizeLength) && total <= MaxFragmentSize
    requires |frag| + |Joined(pieces)| < total
    ensures AfterPieces(c, Partial(frag, total), pieces, total) == Partial(frag + Joined(pieces), total)
    decreases |pieces|
  {
    hide PackPayload, ParseAUHeaders, Pow2;
    if pieces == [] {
      assert frag + [] == frag;
    } else {
      ParseOfPacked(c, [total], pieces[0]);
      assert |Joined(pieces)| == |pieces[0]| + |Joined(pieces[1..])|;
      PiecesAccumulate(c, frag + pieces[0], pieces[1..], total);
      assert frag + pieces[0] + Joined(pieces[1..]) == frag + Joined(pieces);
    }
  }

  /**
   Any access unit up to the cap, cut anywhere into two or more pieces the last of which is
   not empty, is buffered piece by piece and then returned exactly.
   */
  lemma FragmentsReassemble(c: Config, pieces: seq<seq<byte>>, last: seq<byte>)
    requires ValidConfig(c) && pieces != [] && last != []
    requires var total := |Joined(pieces)| + |last|; total < Pow2(c.sizeLength) && total <= MaxFragmentSize
    ensures var total := |Joined(pieces)| + |last|;
            var mid := AfterPieces(c, Idle, pieces, total);
            && mid == Partial(Joined(pieces), total)
            && Process(c, mid, PackPayload(c, [total], last), true) == Outcome(Idle, Ok([AU(Joined(pieces) + last, 0)]))
  {
    hide PackPayload, ParseAUHeaders, Pow2;
    var total := |Joined(pieces)| + |last|;
    ParseOfPacked(c, [total], pieces[0]);
    assert |Joined(pieces)| == |pieces[0]| + |Joined(pieces[1..])|;
    PiecesAccumulate(c, pieces[0], pieces[1..], total);
    ParseOfPacked(c, [total], last);
  }

  // ---- the depacketizer object ---------------------------------------------

  class Depacketizer {
    const cfg: Config
    var frag: seq<byte>
    var fragActive: bool
    var fragTotalSize: nat
    var aus: seq<AU>
    var headers: seq<nat>

    ghost function View(): State
      reads this
    {
      if fragActive then Partial(frag, fragTotalSize) else Idle
    }

    ghost predicate Valid()
      reads this
    {
      ValidConfig(cfg) && Bounded(View())
    }

    constructor (cfg: Config)
      requires ValidConfig(cfg)
      ensures Valid() && View() == Idle && this.cfg == cfg
    {
      this.cfg := cfg;
      frag, fragActive, fragTotalSize, aus, headers := [], false, 0, [], [];
    }

    /** New's validation, field by field. */
    static method New(cfg: Config) returns (d: Result<Depacketizer>)
      ensures if ValidConfig(cfg) then d.Ok? else d == Err(ConfigInvalid)
      ensures d.Ok? ==> fresh(d.value) && d.value.Valid() && d.value.View() == Idle && d.value.cfg == cfg
    {
      if cfg.sizeLength < 1 || cfg.sizeLength > 31 || cfg.indexLength < 0 || cfg.indexLength > 32 {
        return Err(ConfigInvalid);
      }
      if cfg.indexDeltaLength < 0 || cfg.indexDeltaLength > 32 {
        return Err(ConfigInvalid);
      }
      if cfg.samplesPerFrame < 1 || cfg.samplesPerFrame > 8192 {
        return Err(ConfigInvalid);
      }
      if cfg.sizeLength + cfg.indexLength > 64 || cfg.sizeLength + cfg.indexDeltaLength > 64 {
        return Err(ConfigInvalid);
      }
      var fresh' := new Depacketizer(cfg);
      return Ok(fresh');
    }

    method Reset()
      requires ValidConfig(cfg)
      modifies this`fragActive, this`fragTotalSize, this`frag
      ensures Valid() && View() == Idle
    {
      fragActive := false;
      fragTotalSize := 0;
      frag := [];
    }

    method ParseHeaders(payload: seq<byte>) returns (r: Result<Headers>)
      requires Valid()
      modifies this`headers
      ensures r == ParseAUHeaders(cfg, payload)
    {
      hide Sizes, BitsOf;
      if |payload| < 2 {
        return Err(TruncatedHeader);
      }
      var l: nat := 256 * (payload[0] as int) + payload[1] as int;
      if l == 0 {
        return Err(TruncatedHeader);
      }
      var dataStart := 2 + (l + 7) / 8;
      if |payload| < dataStart {
        return Err(TruncatedHeader);
      }
      var sizes := ReadSizes(payload[2..dataStart], l);
      if sizes.Err? {
        return Err(sizes.error);
      }
      return Ok(Headers(headers, dataStart));
    }

    /** The header loop: each field is read from the header bytes at the bits consumed so far. */
    method ReadSizes(hdr: seq<byte>, l: nat) returns (r: Result<seq<nat>>)
      requires Valid() && l <= 8 * |hdr|
      modifies this`headers
      ensures r == Sizes(cfg, BitsOf(hdr)[..l], 0)
      ensures r.Ok? ==> headers == r.value
    {
      hide Value, BitsOf, Sizes;
      ghost var bits := BitsOf(hdr)[..l];
      headers := [];
      var consumed: nat := 0;
      assert bits[0..] == bits;
      PrependedNil(Sizes(cfg, bits, 0));
      while consumed < l
        invariant consumed <= l
        invariant Prepended(headers, Sizes(cfg, bits[consumed..], |headers|)) == Sizes(cfg, bits, 0)
      {
        SizesUnfold(cfg, bits[consumed..], |headers|);
        if |headers| >= MaxAUsPerPacket {
          return Err(TruncatedHeader);
        }
        var idxBits := if |headers| == 0 then cfg.indexLength else cfg.indexDeltaLength;
        var headerBits := cfg.sizeLength + idxBits;
        if consumed + headerBits > l {
          return Err(TruncatedHeader);
        }
        SubFields(bits, consumed, cfg.sizeLength, headerBits);
        var size := ReadField(hdr, consumed, cfg.sizeLength);
        PrefixSlice(BitsOf(hdr), l, consumed, consumed + cfg.sizeLength);
        var index := ReadField(hdr, consumed + cfg.sizeLength, idxBits);
        PrefixSlice(BitsOf(hdr), l, consumed + cfg.sizeLength, consumed + headerBits);
        consumed := consumed + headerBits;
        if index != 0 {
          return Err(InterleavingUnsupported);
        }
        PrependedSnoc(headers, size, Sizes(cfg, bits[consumed..], |headers| + 1));
        headers := headers + [size];
      }
      assert bits[consumed..] == [];
      SizesUnfold(cfg, bits[consumed..], |headers|);
      assert headers + [] == headers;
      return Ok(headers);
    }

    method Depacketize(payload: seq<byte>, marker: bool) returns (r: Result<seq<AU>>)
      requires Valid()
      modifies this
      ensures Valid()
      ensures Outcome(View(), r) == Process(cfg, old(View()), payload, marker)
    {
      hide ParseAUHeaders;
      var h := ParseHeaders(payload);
      if h.Err? {
        if fragActive {
          Reset();
        }
        return Err(h.error);
      }
      var data := payload[h.value.dataStart..];
      aus := [];
      if fragActive {
        r := ContinueFragment(h.value.sizes, data, marker);
        return;
      }
      if |h.value.sizes| == 1 && h.value.sizes[0] > |data| {
        if marker {
          return Err(AUSizeOverflow);
        }
        if h.value.sizes[0] > MaxFragmentSize {
          return Err(FragmentOverflow);
        }
        fragTotalSize := h.value.sizes[0];
        frag := data;
        fragActive := true;
        return Ok([]);
      }
      r := SplitUnits(h.value.sizes, data);
    }

    method ContinueFragment(sizes: seq<nat>, data: seq<byte>, marker: bool) returns (r: Result<seq<AU>>)
      requires Valid() && fragActive && aus == []
      modifies this
      ensures Valid()
      ensures Outcome(View(), r) == Continue(old(View()), sizes, data, marker)
    {
      if |sizes| != 1 {
        Reset();
        return Err(TruncatedHeader);
      }
      if sizes[0] != fragTotalSize {
        Reset();
        return Err(AUSizeOverflow);
      }
      if |frag| + |data| > fragTotalSize || |frag| + |data| > MaxFragmentSize {
        Reset();
        return Err(FragmentOverflow);
      }
      frag := frag + data;
      if marker && |frag| < fragTotalSize {
        Reset();
        return Err(AUSizeOverflow);
      }
      if marker {
        aus := aus + [AU(frag, 0)];
        assert aus == [AU(frag, 0)];
        fragActive := false;
        fragTotalSize := 0;
        return Ok(aus);
      }
      if |frag| == fragTotalSize {
        Reset();
        return Err(AUSizeOverflow);
      }
      return Ok([]);
    }

    method SplitUnits(sizes: seq<nat>, data: seq<byte>) returns (r: Result<seq<AU>>)
      requires Valid() && aus == []
      modifies this`aus
      ensures r == Tile(cfg, sizes, data, 0)
    {
      var offset: nat := 0;
      assert data[0..] == data && sizes[0..] == sizes;
      PrependedNil(Tile(cfg, sizes, data, 0));
      for i := 0 to |sizes|
        invariant offset <= |data|
        invariant Prepended(aus, Tile(cfg, sizes[i..], data[offset..], i)) == Tile(cfg, sizes, data, 0)
      {
        ghost var rest := data[offset..];
        if sizes[i] > |data| - offset {
          return Err(AUSizeOverflow);
        }
        var au := AU(data[offset..offset + sizes[i]], Offset(cfg, i) % 0x1_0000_0000);
        assert rest[..sizes[i]] == au.data && rest[sizes[i]..] == data[offset + sizes[i]..];
        assert sizes[i..][1..] == sizes[i + 1..];
        offset := offset + sizes[i];
        PrependedSnoc(aus, au, Tile(cfg, sizes[i + 1..], data[offset..], i + 1));
        aus := aus + [au];
      }
      assert aus + [] == aus;
      return Ok(aus);
    }
  }

  /** Slices of what remains are slices of the whole. */
  lemma PrefixSlice(bits: seq<bit>, l: nat, lo: nat, hi: nat)
    requires lo <= hi <= l <= |bits|
    ensures bits[..l][lo..hi] == bits[lo..hi]
  {
  }

  lemma SubFields(bits: seq<bit>, at: nat, k: nat, n: nat)
    requires k <= n && at + n <= |bits|
    ensures bits[at..][..k] == bits[at..at + k]
    ensures bits[at..][k..n] == bits[at + k..at + n]
    ensures bits[at..][n..] == bits[at + n..]
  {
  }

  /** A parsed tail with what was already collected in front of it. */
  function Prepended<T>(front: seq<T>, r: Result<seq<T>>): Result<seq<T>>
  {
    if r.Err? then r else Ok(front + r.value)
  }

  lemma PrependedNil<T>(r: Result<seq<T>>)
    ensures Prepended([], r) == r
  {
    if r.Ok? {
      assert [] + r.value == r.value;
    }
  }

  lemma PrependedSnoc<T>(front: seq<T>, x: T, r: Result<seq<T>>)
    ensures Prepended(front + [x], r) == if r.Err? then r else Ok(front + ([x] + r.value))
  {
    if r.Ok? {
      assert front + [x] + r.value == front + ([x] + r.value);
    }
  }
}
