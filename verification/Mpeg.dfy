/** MPEG-1/2/2.5 audio frame headers, Layers I to III: geometry of a coded frame. */
module Mpeg {
  import opened Bits

  const HeaderLen: nat := 4
  const MaxFrameLen: nat := 2881

  datatype Option<+T> = None | Some(value: T)

  datatype Header = Header(
    version: nat, layer: nat, channelMode: nat, sampleRate: nat, bitrate: nat, channels: nat,
    samplesPerFrame: nat, frameLen: nat, padding: bool)

  // Raw field values.
  const Version25: nat := 0
  const VersionReserved: nat := 1
  const Version2: nat := 2
  const Version1: nat := 3
  const LayerReserved: nat := 0
  const LayerIII: nat := 1
  const LayerII: nat := 2
  const LayerI: nat := 3

  /** Bitrate in kbps; 0 for reserved, free-format and bad indices. */
  function BitrateKbps(version: nat, layer: nat, i: nat): (r: nat)
    requires version < 4 && layer < 4 && i < 16
    ensures r <= 448
    ensures version != Version1 ==> r <= (if layer == LayerI then 256 else 160)
  {
    if version == VersionReserved || layer == LayerReserved then 0
    else if version == Version1 then
      if layer == LayerIII then
        [0, 32, 40, 48, 56, 64, 80, 96, 112, 128, 160, 192, 224, 256, 320, 0][i]
      else if layer == LayerII then
        [0, 32, 48, 56, 64, 80, 96, 112, 128, 160, 192, 224, 256, 320, 384, 0][i]
      else
        [0, 32, 64, 96, 128, 160, 192, 224, 256, 288, 320, 352, 384, 416, 448, 0][i]
    else if layer == LayerI then
      [0, 32, 48, 56, 64, 80, 96, 112, 128, 144, 160, 176, 192, 224, 256, 0][i]
    else
      [0, 8, 16, 24, 32, 40, 48, 56, 64, 80, 96, 112, 128, 144, 160, 0][i]
  }

  /** Sampling rate in Hz; 0 for the reserved index and the reserved version. */
  function SampleRateHz(version: nat, i: nat): (r: nat)
    requires version < 4 && i < 4
    ensures r != 0 ==> 8000 <= r
    ensures r != 0 && version == Version1 ==> 32000 <= r
  {
    if version == Version25 then [11025, 12000, 8000, 0][i]
    else if version == Version2 then [22050, 24000, 16000, 0][i]
    else if version == Version1 then [44100, 48000, 32000, 0][i]
    else 0
  }

  function FrameLenBytes(version: nat, layer: nat, bps: nat, rate: nat, padding: nat): nat
    requires 0 < rate
  {
    if layer == LayerI then ((12 * bps) / rate + padding) * 4
    else if layer == LayerII || version == Version1 then (144 * bps) / rate + padding
    else (72 * bps) / rate + padding
  }

  function SamplesPerFrame(version: nat, layer: nat): nat
  {
    if layer == LayerI then 384
    else if layer == LayerII || version == Version1 then 1152
    else 576
  }

  lemma MulMonotone(a: nat, b: nat, d: nat)
    ensures a <= b ==> a * d <= b * d && d * a <= d * b
  {
  }

  lemma DivBound(x: nat, top: nat, rate: nat, low: nat, q: nat)
    requires 0 < low <= rate && x <= top && top == q * low
    ensures x / rate <= q
  {
    assert x == (x / rate) * rate + x % rate;
    MulMonotone(low, rate, q);
    MulMonotone(q + 1, x / rate, rate);
  }

  lemma FrameLenBound(version: nat, layer: nat, kbps: nat, rate: nat, padding: nat)
    requires version < 4 && 1 <= layer < 4 && padding <= 1
    requires kbps <= 448 && 8000 <= rate
    requires if version == Version1 then 32000 <= rate else kbps <= (if layer == LayerI then 256 else 160)
    ensures FrameLenBytes(version, layer, kbps * 1000, rate, padding) <= MaxFrameLen
  {
    var bps := kbps * 1000;
    if layer == LayerI {
      if version == Version1 {
        DivBound(12 * bps, 5376000, rate, 32000, 168);
      } else {
        DivBound(12 * bps, 3072000, rate, 8000, 384);
      }
    } else if version == Version1 {
      DivBound(144 * bps, 64512000, rate, 32000, 2016);
    } else if layer == LayerII {
      DivBound(144 * bps, 23040000, rate, 8000, 2880);
    } else {
      DivBound(72 * bps, 11520000, rate, 8000, 1440);
    }
  }

  /** The header in the first four bytes of `b`, or None when it is not valid and supported. */
  function Parse(b: seq<byte>): (r: Option<Header>)
    requires HeaderLen <= |b|
    ensures r.Some? ==> HeaderLen <= r.value.frameLen <= MaxFrameLen && 0 < r.value.sampleRate
  {
    if b[0] != 0xFF || b[1] < 0xE0 then None else
      var version, layer := (b[1] / 8) % 4, (b[1] / 2) % 4;
      var padding := (b[2] / 2) % 2;
      if version == VersionReserved || layer == LayerReserved || b[3] % 4 == 2 then None else
        var kbps := BitrateKbps(version, layer, b[2] / 16);
        var rate := SampleRateHz(version, (b[2] / 4) % 4);
        if kbps == 0 || rate == 0 then None else
          FrameLenBound(version, layer, kbps, rate, padding);
          var frameLen := FrameLenBytes(version, layer, kbps * 1000, rate, padding);
          if frameLen < HeaderLen then None else
            Some(Header(version, layer, b[3] / 64, rate, kbps * 1000, if b[3] / 64 == 3 then 1 else 2,
                        SamplesPerFrame(version, layer), frameLen, padding == 1))
  }

  /** A header is decided by its first four bytes. */
  lemma ParseStable(b: seq<byte>, more: seq<byte>)
    requires HeaderLen <= |b|
    ensures Parse(b + more) == Parse(b)
  {
  }
}
