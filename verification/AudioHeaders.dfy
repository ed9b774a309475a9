/**
 Coded-frame headers written from their fields (ISO/IEC 11172-3 section 2.4.1.3 and 13818-3 for MPEG
 audio, ISO/IEC 14496-3 section 1.A.2.2 for ADTS), and the frame length as bit rate times duration.
 */
module AudioHeaders {
  import opened Bits
  import M = Mpeg
  import A = Adts
  import H = Mp3Framer

  // ---- MPEG audio ----------------------------------------------------------

  /** The fields of an MPEG audio header; `version` and `layer` are the raw codes. */
  datatype MpegFields = MpegFields(
    version: nat, layer: nat, protection: bit, bitrate: nat, rate: nat, padding: bit, privateBit: bit,
    mode: nat, extension: nat, rights: nat, emphasis: nat)

  predicate ValidMpeg(f: MpegFields)
  {
    && f.version < 4 && f.layer < 4 && f.bitrate < 16 && f.rate < 4
    && f.mode < 4 && f.extension < 4 && f.rights < 4 && f.emphasis < 4
  }

  function MpegBytes(f: MpegFields): (b: seq<byte>)
    requires ValidMpeg(f)
    ensures |b| == 4
  {
    [0xFF, 0xE0 + f.version * 8 + f.layer * 2 + f.protection,
     f.bitrate * 16 + f.rate * 4 + f.padding * 2 + f.privateBit,
     f.mode * 64 + f.extension * 16 + f.rights * 4 + f.emphasis]
  }

  /** Bit rates in kbit/s by index: Layers I, II, III of MPEG-1, Layer I and Layers II and III of MPEG-2. */
  const Rows: seq<seq<nat>> :=
    [[32, 32, 32, 32, 8], [64, 48, 40, 48, 16], [96, 56, 48, 56, 24], [128, 64, 56, 64, 32], [160, 80, 64, 80, 40],
     [192, 96, 80, 96, 48], [224, 112, 96, 112, 56], [256, 128, 112, 128, 64], [288, 160, 128, 144, 80],
     [320, 192, 160, 160, 96], [352, 224, 192, 176, 112], [384, 256, 224, 192, 128], [416, 320, 256, 224, 144],
     [448, 384, 320, 256, 160]]

  /** The column of a version and layer. */
  function Column(version: nat, layer: nat): (c: nat)
    ensures c < 5
  {
    if version == M.Version1 then (if layer == M.LayerI then 0 else if layer == M.LayerII then 1 else 2)
    else if layer == M.LayerI then 3 else 4
  }

  /** Sampling rates: those of MPEG-1, halved for MPEG-2 and halved again for MPEG-2.5. */
  function Hertz(version: nat, i: nat): nat
    requires i < 3
  {
    var full := if i == 0 then 44100 else if i == 1 then 48000 else 32000;
    if version == M.Version1 then full else if version == M.Version2 then full / 2 else full / 4
  }

  /** Does a header name a version, a layer, a bit rate, a sampling rate and an emphasis there are? */
  predicate Named(f: MpegFields)
  {
    && f.version != M.VersionReserved && f.layer != M.LayerReserved && f.emphasis != 2
    && f.bitrate != 0 && f.bitrate != 15 && f.rate != 3
  }

  function KbpsOf(f: MpegFields): nat
    requires ValidMpeg(f) && Named(f)
  {
    Rows[f.bitrate - 1][Column(f.version, f.layer)]
  }

  lemma FirstKbps(layer: nat, i: nat)
    requires 0 < layer < 4 && 0 < i < 15
    ensures M.BitrateKbps(M.Version1, layer, i) == Rows[i - 1][Column(M.Version1, layer)] >= 32
    ensures Rows[i - 1][Column(M.Version1, layer)] <= 448
  {
    if layer == M.LayerI { } else if layer == M.LayerII { } else { }
  }

  lemma SecondKbps(version: nat, layer: nat, i: nat)
    requires (version == M.Version2 || version == M.Version25) && 0 < layer < 4 && 0 < i < 15
    ensures M.BitrateKbps(version, layer, i) == Rows[i - 1][Column(version, layer)]
    ensures 8 <= Rows[i - 1][Column(version, layer)] <= 448
  {
    if layer == M.LayerI { } else { }
  }

  lemma KbpsIs(f: MpegFields)
    requires ValidMpeg(f) && Named(f)
    ensures M.BitrateKbps(f.version, f.layer, f.bitrate) == KbpsOf(f) && 8 <= KbpsOf(f) <= 448
  {
    hide M.BitrateKbps, Rows, Column;
    if f.version == M.Version1 {
      FirstKbps(f.layer, f.bitrate);
    } else {
      SecondKbps(f.version, f.layer, f.bitrate);
    }
  }

  lemma HertzIs(f: MpegFields)
    requires ValidMpeg(f) && Named(f)
    ensures M.SampleRateHz(f.version, f.rate) == Hertz(f.version, f.rate) && 8000 <= Hertz(f.version, f.rate) <= 48000
  {
  }

  lemma Unnamed(f: MpegFields)
    requires ValidMpeg(f) && !Named(f)
    requires f.version != M.VersionReserved && f.layer != M.LayerReserved && f.emphasis != 2
    ensures M.BitrateKbps(f.version, f.layer, f.bitrate) == 0 || M.SampleRateHz(f.version, f.rate) == 0
  {
  }

  /** Whole units of `unit` bytes in the bytes that `samples` samples at this bit rate and sampling rate take. */
  function Whole(samples: nat, bps: nat, rate: nat, unit: nat): nat
    requires rate > 0 && unit > 0
  {
    Positive(rate, unit);
    samples * bps / (8 * rate * unit)
  }

  lemma Positive(rate: nat, unit: nat)
    requires rate > 0 && unit > 0
    ensures 8 * rate * unit > 0
  {
  }

  lemma Cancelled(k: nat, a: nat, r: nat)
    requires k > 0 && r > 0
    ensures k * r > 0 && (k * a) / (k * r) == a / r
  {
    var q, d := a / r, a % r;
    assert a == q * r + d;
    Spread(k, q, r, d);
    M.MulMonotone(d + 1, r, k);
    Quotient(k * a, k * r, q);
  }

  lemma Spread(k: nat, q: nat, r: nat, d: nat)
    ensures k * (q * r + d) == q * (k * r) + k * d && k * (d + 1) == k * d + k
    ensures k > 0 && r > 0 ==> k * r > 0
  {
  }

  lemma Quotient(x: nat, d: nat, q: nat)
    requires d > 0 && q * d <= x < q * d + d
    ensures x / d == q
  {
    var p := x / d;
    assert p * d <= x < p * d + d;
    M.MulMonotone(p + 1, q, d);
    M.MulMonotone(q + 1, p, d);
  }

  /**
   The length of a frame: the whole slots in the bytes its samples take at its bit rate, and one more
   when padded.  A slot is four bytes in Layer I and one in the others.
   */
  lemma FrameLenMeans(version: nat, layer: nat, bps: nat, rate: nat, padding: nat)
    requires rate > 0 && (version == M.Version1 || version == M.Version2 || version == M.Version25)
    requires 1 <= layer < 4
    ensures var slot := if layer == M.LayerI then 4 else 1;
            M.FrameLenBytes(version, layer, bps, rate, padding)
            == slot * (Whole(M.SamplesPerFrame(version, layer), bps, rate, slot) + padding)
  {
    if layer == M.LayerI {
      Cancelled(32, 12 * bps, rate);
      assert 8 * rate * 4 == 32 * rate && 384 * bps == 32 * (12 * bps);
    } else if layer == M.LayerII || version == M.Version1 {
      Cancelled(8, 144 * bps, rate);
      assert 8 * rate * 1 == 8 * rate && 1152 * bps == 8 * (144 * bps);
    } else {
      Cancelled(8, 72 * bps, rate);
      assert 8 * rate * 1 == 8 * rate && 576 * bps == 8 * (72 * bps);
    }
  }

  /** Samples a frame: 384 in Layer I; 1152 in the others, but half that in Layer III of MPEG-2 and 2.5. */
  function Samples(version: nat, layer: nat): nat
  {
    if layer == M.LayerI then 384 else if layer == M.LayerIII && version != M.Version1 then 576 else 1152
  }

  function MpegMeant(f: MpegFields): M.Header
    requires ValidMpeg(f) && Named(f)
  {
    HertzIs(f);
    var slot := if f.layer == M.LayerI then 4 else 1;
    var rate, bps, samples := Hertz(f.version, f.rate), 1000 * KbpsOf(f), Samples(f.version, f.layer);
    M.Header(f.version, f.layer, f.mode, rate, bps, if f.mode == 3 then 1 else 2, samples,
             slot * (Whole(samples, bps, rate, slot) + f.padding), f.padding == 1)
  }

  /** A header reads as the fields it was written from, and is refused exactly when one of them names nothing. */
  lemma MpegReadsBack(f: MpegFields, more: seq<byte>)
    requires ValidMpeg(f)
    ensures M.Parse(MpegBytes(f) + more) == if Named(f) then M.Some(MpegMeant(f)) else M.None
  {
    hide M.BitrateKbps, M.SampleRateHz, M.FrameLenBytes, Whole, Hertz, KbpsOf, MpegBytes;
    MpegFieldsAt(f);
    M.ParseStable(MpegBytes(f), more);
    if Named(f) {
      KbpsIs(f);
      HertzIs(f);
      FrameLenMeans(f.version, f.layer, 1000 * KbpsOf(f), Hertz(f.version, f.rate), f.padding);
      LongEnough(f);
    } else if f.version != M.VersionReserved && f.layer != M.LayerReserved && f.emphasis != 2 {
      Unnamed(f);
    }
  }

  lemma MpegFieldsAt(f: MpegFields)
    requires ValidMpeg(f)
    ensures var b := MpegBytes(f);
            && b[0] == 0xFF && b[1] >= 0xE0 && (b[1] / 8) % 4 == f.version && (b[1] / 2) % 4 == f.layer
            && b[2] / 16 == f.bitrate && (b[2] / 4) % 4 == f.rate && (b[2] / 2) % 2 == f.padding
            && b[3] / 64 == f.mode && b[3] % 4 == f.emphasis
  {
    SecondMpegByte(f.version, f.layer, f.protection);
    ThirdMpegByte(f.bitrate, f.rate, f.padding, f.privateBit);
    FourthMpegByte(f.mode, f.extension, f.rights, f.emphasis);
  }

  lemma SecondMpegByte(v: nat, l: nat, p: bit)
    requires v < 4 && l < 4
    ensures var b := 0xE0 + v * 8 + l * 2 + p; (b / 8) % 4 == v && (b / 2) % 4 == l
  {
  }

  lemma ThirdMpegByte(i: nat, r: nat, p: bit, v: bit)
    requires i < 16 && r < 4
    ensures var b := i * 16 + r * 4 + p * 2 + v; b / 16 == i && (b / 4) % 4 == r && (b / 2) % 2 == p
  {
  }

  lemma FourthMpegByte(m: nat, e: nat, r: nat, x: nat)
    requires m < 4 && e < 4 && r < 4 && x < 4
    ensures var b := m * 64 + e * 16 + r * 4 + x; b / 64 == m && b % 4 == x
  {
  }

  /** No header declares a frame shorter than itself. */
  lemma LongEnough(f: MpegFields)
    requires ValidMpeg(f) && Named(f)
    ensures 8000 <= Hertz(f.version, f.rate)
    ensures M.FrameLenBytes(f.version, f.layer, 1000 * KbpsOf(f), Hertz(f.version, f.rate), f.padding) >= M.HeaderLen
  {
    KbpsIs(f);
    HertzIs(f);
    hide KbpsOf, Hertz;
    AtLeast(72 * (1000 * KbpsOf(f)), Hertz(f.version, f.rate));
    AtLeast(144 * (1000 * KbpsOf(f)), Hertz(f.version, f.rate));
    if f.layer == M.LayerI {
      assert 12 * (1000 * KbpsOf(f)) >= 12 * 32000 by { LayerIRate(f); }
      AtLeastOne(12 * (1000 * KbpsOf(f)), Hertz(f.version, f.rate));
    }
  }

  lemma LayerIRate(f: MpegFields)
    requires ValidMpeg(f) && Named(f) && f.layer == M.LayerI
    ensures KbpsOf(f) >= 32
  {
  }

  lemma AtLeast(x: nat, rate: nat)
    requires x >= 576000 && 0 < rate <= 48000
    ensures x / rate >= 4
  {
  }

  lemma AtLeastOne(x: nat, rate: nat)
    requires x >= 384000 && 0 < rate <= 48000
    ensures x / rate >= 1
  {
  }

  // ---- ADTS ----------------------------------------------------------------

  datatype AdtsFields = AdtsFields(
    mpeg2: bool, crc: bool, profile: nat, rate: nat, privateBit: bit, channels: nat, rights: nat,
    frameLen: nat, fullness: nat, blocks: nat)

  predicate ValidAdts(f: AdtsFields)
  {
    && f.profile < 4 && f.rate < 16 && f.channels < 8 && f.rights < 16
    && f.frameLen < 8192 && f.fullness < 2048 && f.blocks < 4
  }

  function AdtsBytes(f: AdtsFields): (b: seq<byte>)
    requires ValidAdts(f)
    ensures |b| == 7
  {
    [0xFF, 0xF0 + (if f.mpeg2 then 8 else 0) + (if f.crc then 0 else 1),
     f.profile * 64 + f.rate * 4 + f.privateBit * 2 + f.channels / 4,
     f.channels % 4 * 64 + f.rights * 4 + f.frameLen / 2048,
     f.frameLen / 8 % 256,
     f.frameLen % 8 * 32 + f.fullness / 64,
     f.fullness % 64 * 4 + f.blocks]
  }

  /** Sampling rates: three families, halved every third index, and 7350 Hz. */
  function AdtsHertz(i: nat): nat
    requires i <= 12
  {
    var base := if i % 3 == 0 then 96000 else if i % 3 == 1 then 88200 else 64000;
    if i < 3 then base else if i < 6 then base / 2 else if i < 9 then base / 4 else if i < 12 then base / 8 else 7350
  }

  function AdtsMeant(f: AdtsFields): A.Header
    requires f.rate <= 12
  {
    A.Header(f.profile + 1, f.rate, AdtsHertz(f.rate), f.channels, if f.channels == 7 then 8 else f.channels,
             if f.crc then 9 else 7, f.frameLen, f.blocks, f.mpeg2)
  }

  /**
   An ADTS header reads as the fields it was written from, and is refused exactly when it names no
   sampling rate or channels, or a frame no longer than itself.
   */
  lemma AdtsReadsBack(f: AdtsFields, more: seq<byte>)
    requires ValidAdts(f)
    ensures A.Parse(AdtsBytes(f) + more) ==
            if f.rate > 12 || f.channels == 0 || f.frameLen <= (if f.crc then 9 else 7) then A.None
            else A.Some(AdtsMeant(f))
  {
    AdtsFieldsAt(f);
    A.ParseStable(AdtsBytes(f), more);
    AdtsHertzIs(f.rate);
    hide AdtsBytes, A.SampleRateHz, AdtsHertz;
  }

  lemma AdtsHertzIs(i: nat)
    requires i < 16
    ensures if i <= 12 then A.SampleRateHz(i) == AdtsHertz(i) > 0 else A.SampleRateHz(i) == 0
  {
  }

  lemma AdtsFieldsAt(f: AdtsFields)
    requires ValidAdts(f)
    ensures var b := AdtsBytes(f);
            && b[0] == 0xFF && b[1] >= 0xF0 && (b[1] / 2) % 4 == 0
            && (b[1] % 2 == 1 <==> !f.crc) && ((b[1] / 8) % 2 == 1 <==> f.mpeg2)
            && b[2] / 64 == f.profile && (b[2] / 4) % 16 == f.rate
            && (b[2] as int % 2) * 4 + b[3] / 64 == f.channels
            && (b[3] as int % 4) * 2048 + (b[4] as int) * 8 + b[5] / 32 == f.frameLen
            && b[6] % 4 == f.blocks
  {
    ThirdByte(f.profile, f.rate, f.privateBit, f.channels / 4);
    FourthByte(f.channels % 4, f.rights, f.frameLen / 2048);
    LengthParts(f.frameLen);
    LastBytes(f.frameLen % 8, f.fullness, f.blocks);
  }

  lemma ThirdByte(p: nat, r: nat, v: bit, c: bit)
    requires p < 4 && r < 16
    ensures var b := p * 64 + r * 4 + v * 2 + c; b / 64 == p && (b / 4) % 16 == r && b % 2 == c
  {
  }

  lemma FourthByte(c: nat, r: nat, l: nat)
    requires c < 4 && r < 16 && l < 4
    ensures var b := c * 64 + r * 4 + l; b / 64 == c && b % 4 == l
  {
  }

  lemma LengthParts(n: nat)
    requires n < 8192
    ensures n / 2048 < 4 && n / 2048 * 2048 + n / 8 % 256 * 8 + n % 8 == n
  {
  }

  lemma LastBytes(l: nat, full: nat, blocks: nat)
    requires l < 8 && full < 2048 && blocks < 4
    ensures (l * 32 + full / 64) / 32 == l && (full % 64 * 4 + blocks) % 4 == blocks
  {
  }

  // ---- durations -----------------------------------------------------------

  /** `ns` is the whole nanoseconds that `samples` samples take at `rate`. */
  predicate Lasts(ns: nat, samples: nat, rate: nat)
  {
    ns * rate <= samples * 1_000_000_000 < (ns + 1) * rate
  }

  lemma WholeNanoseconds(x: nat, rate: nat)
    requires rate > 0
    ensures x / rate * rate <= x < (x / rate + 1) * rate
  {
    var q := x / rate;
    assert x == q * rate + x % rate;
    assert (q + 1) * rate == q * rate + rate;
  }

  /** A frame's duration is that of its samples: 1024 in ADTS, as the header says in MPEG audio. */
  lemma DurationsMean(a: A.Header, m: M.Header)
    ensures a.sampleRate > 0 ==> Lasts(A.FrameDuration(a), 1024, a.sampleRate)
    ensures m.sampleRate > 0 ==> Lasts(H.FrameDuration(m), m.samplesPerFrame, m.sampleRate)
  {
    if a.sampleRate > 0 {
      WholeNanoseconds(1024 * 1_000_000_000, a.sampleRate);
    }
    if m.sampleRate > 0 {
      WholeNanoseconds(m.samplesPerFrame * 1_000_000_000, m.sampleRate);
    }
  }
}
