/** ADTS frame headers (ISO/IEC 14496-3): geometry and codec configuration. */
module Adts {
  import opened Bits

  const MinHeaderLen: nat := 7
  const CRCHeaderLen: nat := 9
  const MaxFrameLen: nat := 8191
  const SamplesPerFrame: nat := 1024

  datatype Option<+T> = None | Some(value: T)

  datatype Header = Header(
    audioObjectType: nat, sampleRateIndex: nat, sampleRate: nat, channelConfig: nat, channels: nat,
    headerLen: nat, frameLen: nat, numRawBlocks: nat, mpeg2: bool)

  function SampleRateHz(i: nat): nat
    requires i < 16
  {
    [96000, 88200, 64000, 48000, 44100, 32000, 24000, 22050,
     16000, 12000, 11025, 8000, 7350, 0, 0, 0][i]
  }

  /** The header at the front of `b`, or None when there is no valid, supported one. */
  function Parse(b: seq<byte>): (r: Option<Header>)
    ensures r.Some? ==>
              && 1 <= r.value.audioObjectType <= 4 && r.value.sampleRateIndex <= 12 && 1 <= r.value.channelConfig <= 7
              && 0 < r.value.sampleRate
              && MinHeaderLen <= r.value.headerLen < r.value.frameLen <= MaxFrameLen
    ensures r.Some? ==> MinHeaderLen <= |b|
  {
    if |b| < MinHeaderLen then None
    else if b[0] != 0xFF || b[1] < 0xF0 then None
    else if (b[1] / 2) % 4 != 0 then None
    else
      var srIdx := (b[2] / 4) % 16;
      var chanCfg := (b[2] as int % 2) * 4 + b[3] / 64;
      var frameLen := (b[3] as int % 4) * 2048 + (b[4] as int) * 8 + b[5] / 32;
      var headerLen := if b[1] % 2 == 1 then MinHeaderLen else CRCHeaderLen;
      if srIdx >= 13 || chanCfg < 1 || frameLen <= headerLen then None
      else
        Some(Header(b[2] / 64 + 1, srIdx, SampleRateHz(srIdx), chanCfg, if chanCfg == 7 then 8 else chanCfg,
                    headerLen, frameLen, b[6] % 4, (b[1] / 8) % 2 == 1))
  }

  /** The 2-byte AudioSpecificConfig of a header: 5, 4 and 4 bits, then three zero bits. */
  function AudioSpecificConfig(h: Header): (r: seq<byte>)
    ensures |r| == 2
    ensures h.audioObjectType <= 4 && h.sampleRateIndex <= 12 && h.channelConfig <= 7 ==>
              256 * (r[0] as int) + r[1] as int
              == h.audioObjectType * 2048 + h.sampleRateIndex * 128 + h.channelConfig * 8
  {
    var asc := (h.audioObjectType * 2048 + h.sampleRateIndex * 128 + h.channelConfig * 8) % 65536;
    [asc / 256, asc % 256]
  }

  /** A header is decided by its first seven bytes. */
  lemma ParseStable(b: seq<byte>, more: seq<byte>)
    requires MinHeaderLen <= |b|
    ensures Parse(b + more) == Parse(b)
  {
  }

  /** `next` begins with a header of the same codec configuration as `h`. */
  predicate Consistent(next: seq<byte>, h: Header)
  {
    var n := Parse(next);
    n.Some? && SameConfig(n.value, h)
  }

  predicate SameConfig(a: Header, b: Header)
  {
    && a.audioObjectType == b.audioObjectType
    && a.sampleRateIndex == b.sampleRateIndex
    && a.channelConfig == b.channelConfig
  }

  /** Presentation duration of one frame in nanoseconds, truncated: 1024 samples at the header's rate. */
  function FrameDuration(h: Header): nat
  {
    if h.sampleRate == 0 then 0 else SamplesPerFrame * 1_000_000_000 / h.sampleRate
  }
}
