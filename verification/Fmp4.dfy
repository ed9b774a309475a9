/**
 Slicing access units out of a fragmented MP4 (ISO/IEC 14496-12): the box walk, the choice of the
 audio track fragment, and the truns that place and size each sample.
 */
module Fmp4 {
  import opened Bits

  type bytes = seq<byte>

  // Box types.
  const Moof: bytes := [109, 111, 111, 102]
  const Traf: bytes := [116, 114, 97, 102]
  const Tfhd: bytes := [116, 102, 104, 100]
  const TrunType: bytes := [116, 114, 117, 110]
  const Mdat: bytes := [109, 100, 97, 116]

  datatype Option<T> = None | Some(value: T)

  function U32(b: bytes, off: nat): (v: nat)
    requires off + 4 <= |b|
    ensures v < 0x1_0000_0000
  {
    ((b[off] as nat * 256 + b[off + 1]) * 256 + b[off + 2]) * 256 + b[off + 3]
  }

  function U64(b: bytes, off: nat): nat
    requires off + 8 <= |b|
  {
    U32(b, off) * 0x1_0000_0000 + U32(b, off + 4)
  }

  /** The 32-bit value read as two's complement. */
  function Signed(v: nat): int
  {
    if v < 0x8000_0000 then v else v - 0x1_0000_0000
  }

  predicate Flag(b: byte, mask: nat)
    requires mask > 0
  {
    (b / mask) % 2 == 1
  }

  // ---- boxes ---------------------------------------------------------------

  datatype Span = Span(typ: bytes, start: nat, bodyOff: nat, bodyEnd: nat)

  datatype Head = End | Bad | Box(span: Span)

  /** The box at `off`: nothing left, a broken size, or its extent. */
  function BoxAt(data: bytes, off: nat): (h: Head)
    ensures h.Box? ==> h.span.start == off && off + 8 <= h.span.bodyOff <= h.span.bodyEnd <= |data|
  {
    if off + 8 > |data| then End else
      var size, typ := U32(data, off), data[off + 4..off + 8];
      if size == 0 then Box(Span(typ, off, off + 8, |data|))
      else if size == 1 then
        if off + 16 > |data| then Bad else
          var large := U64(data, off + 8);
          if large < 16 || large > |data| - off then Bad else Box(Span(typ, off, off + 16, off + large))
      else if size < 8 || size > |data| - off then Bad
      else Box(Span(typ, off, off + 8, off + size))
  }

  datatype Found = Missing | Broken | At(span: Span)

  /** The first box of a type at or after `off`; a broken box before it spoils the search. */
  function FirstChild(data: bytes, typ: bytes, off: nat): (f: Found)
    ensures f.At? ==> off <= f.span.start && f.span.start + 8 <= f.span.bodyOff <= f.span.bodyEnd <= |data|
    decreases |data| - off
  {
    match BoxAt(data, off)
    case End => Missing
    case Bad => Broken
    case Box(b) => if b.typ == typ then At(b) else FirstChild(data, typ, b.bodyEnd)
  }

  method FindFirstChild(data: bytes, typ: bytes) returns (f: Found)
    ensures f == FirstChild(data, typ, 0)
  {
    var off: nat := 0;
    while true
      invariant FirstChild(data, typ, off) == FirstChild(data, typ, 0)
      decreases |data| - off
    {
      var h := BoxAt(data, off);
      match h {
        case End => return Missing;
        case Bad => return Broken;
        case Box(b) =>
          if b.typ == typ {
            return At(b);
          }
          off := b.bodyEnd;
      }
    }
  }

  /** Is this traf body the one of the track? A broken body is not decidable. */
  datatype Claim = Mine | Other | Unreadable

  function ClaimOf(body: bytes, track: nat): Claim
  {
    match FirstChild(body, Tfhd, 0)
    case Broken => Unreadable
    case Missing => Other
    case At(b) =>
      var tfhd := body[b.bodyOff..b.bodyEnd];
      if |tfhd| >= 8 && U32(tfhd, 4) == track then Mine else Other
  }

  function AudioTraf(moof: bytes, track: nat, off: nat): (f: Found)
    ensures f.At? ==> f.span.bodyOff <= f.span.bodyEnd <= |moof|
    decreases |moof| - off
  {
    match BoxAt(moof, off)
    case End => Missing
    case Bad => Broken
    case Box(b) =>
      if b.typ != Traf then AudioTraf(moof, track, b.bodyEnd) else
        match ClaimOf(moof[b.bodyOff..b.bodyEnd], track)
        case Mine => At(b)
        case Unreadable => Broken
        case Other => AudioTraf(moof, track, b.bodyEnd)
  }

  method FindAudioTraf(moof: bytes, track: nat) returns (f: Found)
    ensures f == AudioTraf(moof, track, 0)
  {
    var off: nat := 0;
    while true
      invariant AudioTraf(moof, track, off) == AudioTraf(moof, track, 0)
      decreases |moof| - off
    {
      var h := BoxAt(moof, off);
      match h {
        case End => return Missing;
        case Bad => return Broken;
        case Box(b) =>
          if b.typ == Traf {
            var body := moof[b.bodyOff..b.bodyEnd];
            var inner := FindFirstChild(body, Tfhd);
            if inner.Broken? {
              return Broken;
            }
            if inner.At? {
              var tfhd := body[inner.span.bodyOff..inner.span.bodyEnd];
              if |tfhd| >= 8 && U32(tfhd, 4) == track {
                return At(b);
              }
            }
          }
          off := b.bodyEnd;
      }
    }
  }

  // ---- tfhd ----------------------------------------------------------------

  const MaxInt32: nat := 0x7FFF_FFFF

  datatype Header = Header(base: nat, explicit: bool, dur: nat, size: nat)

  function ParseTFHD(t: bytes, moofStart: nat): Option<Header>
  {
    if |t| < 8 then None else
      var explicit := Flag(t[3], 1);
      if explicit && (16 > |t| || U64(t, 8) > MaxInt32) then None else
        var base := if explicit then U64(t, 8) else moofStart;
        var o1 := if explicit then 16 else 8;
        if Flag(t[3], 2) && o1 + 4 > |t| then None else
          var o2 := if Flag(t[3], 2) then o1 + 4 else o1;
          if Flag(t[3], 8) && o2 + 4 > |t| then None else
            var dur := if Flag(t[3], 8) then U32(t, o2) else 0;
            var o3 := if Flag(t[3], 8) then o2 + 4 else o2;
            if Flag(t[3], 16) && o3 + 4 > |t| then None
            else Some(Header(base, explicit, dur, if Flag(t[3], 16) then U32(t, o3) else 0))
  }

  // ---- trun ----------------------------------------------------------------

  /** A delivered access unit: where it starts in the fragment, its bytes, its duration in ticks. */
  datatype Sample = Sample(at: nat, data: bytes, dur: nat)

  datatype Status = Going | Short | Failed

  /** The data pointer, whether it is placed, what was delivered, and how the walk stands. */
  datatype Walk = Walk(ptr: int, located: bool, out: seq<Sample>, status: Status)

  /** Which per-sample fields a trun carries. */
  datatype Fields = Fields(dur: bool, size: bool, flags: bool, cto: bool)

  function Width(f: Fields): nat
  {
    (if f.dur then 4 else 0) + (if f.size then 4 else 0) + (if f.flags then 4 else 0) + (if f.cto then 4 else 0)
  }

  datatype Defaults = Defaults(dur: nat, size: nat)

  function SizeOf(t: bytes, off: nat, f: Fields, d: Defaults): nat
    requires off + Width(f) <= |t|
  {
    if f.size then U32(t, off + if f.dur then 4 else 0) else d.size
  }

  function DurOf(t: bytes, off: nat, f: Fields, d: Defaults): nat
    requires off + Width(f) <= |t|
  {
    if f.dur then U32(t, off) else d.dur
  }

  /** One sample: delivered when it is not empty, lies in the fragment and fits the sample budget. */
  function Deliver(w: Walk, size: nat, dur: nat, frag: bytes): Walk
  {
    if size == 0 || w.ptr < 0 || w.ptr + size > |frag| then w.(status := Short)
    else if |w.out| >= |frag| then w.(status := Failed)
    else w.(ptr := w.ptr + size, out := w.out + [Sample(w.ptr, frag[w.ptr..w.ptr + size], dur)])
  }

  /** The records of one trun, `n` of them from `off`. */
  function Records(t: bytes, off: nat, n: nat, f: Fields, d: Defaults, frag: bytes, w: Walk): Walk
    requires off + Total(n, Width(f)) <= |t|
    decreases n
  {
    if n == 0 || w.status != Going then w else
      RecordRoom(n, Width(f));
      Records(t, off + Width(f), n - 1, f, d, frag, Deliver(w, SizeOf(t, off, f, d), DurOf(t, off, f, d), frag))
  }

  /** The bytes `n` records of width `w` take. */
  function Total(n: nat, w: nat): nat
  {
    if n == 0 then 0 else w + Total(n - 1, w)
  }

  lemma RecordRoom(n: nat, w: nat)
    requires n > 0
    ensures Total(n, w) == w + Total(n - 1, w)
  {
  }

  datatype Layout = Layout(count: nat, offset: Option<int>, fields: Fields, records: nat)

  /** A trun's header: sample count, data offset, fields, and where its records start. */
  function ParseTrunHead(t: bytes): (l: Option<Layout>)
    ensures l.Some? ==> 8 <= l.value.records <= |t|
  {
    if |t| < 8 then None else
      var hasOffset := Flag(t[3], 1);
      if hasOffset && 12 > |t| then None else
        var offset := if hasOffset then Some(Signed(U32(t, 8))) else None;
        var o1 := if hasOffset then 12 else 8;
        if Flag(t[3], 4) && o1 + 4 > |t| then None
        else Some(Layout(U32(t, 4), offset, Fields(Flag(t[2], 1), Flag(t[2], 2), Flag(t[2], 4), Flag(t[2], 8)),
                         if Flag(t[3], 4) then o1 + 4 else o1))
  }

  /** Is the sample count one the box, or failing records the fragment, can hold? */
  predicate CountFits(l: Layout, t: bytes, frag: bytes)
    requires l.records <= |t|
  {
    if Width(l.fields) > 0 then Total(l.count, Width(l.fields)) <= |t| - l.records else l.count <= |frag|
  }

  function Trun(t: bytes, base: nat, d: Defaults, frag: bytes, w: Walk): Walk
    requires w.status == Going
  {
    match ParseTrunHead(t)
    case None => w.(status := Failed)
    case Some(l) =>
      if l.offset.None? && !w.located then w.(status := Failed)
      else if !CountFits(l, t, frag) then w.(status := Failed)
      else
        var start := w.(ptr := if l.offset.Some? then base + l.offset.value else w.ptr, located := true);
        NoRecords(l.count, Width(l.fields));
        Records(t, l.records, l.count, l.fields, d, frag, start)
  }

  lemma {:induction false} NoRecords(n: nat, w: nat)
    ensures w == 0 ==> Total(n, w) == 0
  {
    if n > 0 {
      NoRecords(n - 1, w);
    }
  }

  lemma {:induction false} TotalIsProduct(n: nat, w: nat)
    ensures Total(n, w) == n * w
  {
    if n > 0 {
      TotalIsProduct(n - 1, w);
      assert n * w == w + (n - 1) * w;
    }
  }

  lemma DivisionBound(n: nat, w: nat, room: nat)
    requires w > 0
    ensures n <= room / w <==> Total(n, w) <= room
  {
    TotalIsProduct(n, w);
    var q := room / w;
    assert room == q * w + room % w;
    ProductGrows(n, q, w);
    ProductGrows(q + 1, n, w);
  }

  lemma ProductGrows(a: nat, b: nat, w: nat)
    ensures a <= b ==> a * w <= b * w
    ensures (a + 1) * w == a * w + w
  {
  }

  /** The record loop of one trun, its count checked by division as the parser does. */
  method ParseTrun(t: bytes, base: nat, d: Defaults, frag: bytes, w: Walk) returns (r: Walk)
    requires w.status == Going
    ensures r == Trun(t, base, d, frag, w)
  {
    hide Deliver, SizeOf, DurOf;
    var head := ParseTrunHead(t);
    if head == None {
      return w.(status := Failed);
    }
    var l := head.value;
    if l.offset.None? && !w.located {
      return w.(status := Failed);
    }
    r := w.(ptr := if l.offset.Some? then base + l.offset.value else w.ptr, located := true);
    var per := Width(l.fields);
    var remaining := |t| - l.records;
    if per > 0 {
      DivisionBound(l.count, per, remaining);
      if l.count > remaining / per {
        return w.(status := Failed);
      }
    } else if l.count > |frag| {
      return w.(status := Failed);
    }
    NoRecords(l.count, per);
    var off: nat, n: nat := l.records, l.count;
    while n > 0 && r.status == Going
      invariant 0 <= n && l.records <= off && off + Total(n, per) <= |t|
      invariant Records(t, off, n, l.fields, d, frag, r) == Trun(t, base, d, frag, w)
      decreases n
    {
      RecordRoom(n, per);
      r := Deliver(r, SizeOf(t, off, l.fields, d), DurOf(t, off, l.fields, d), frag);
      off := off + per;
      n := n - 1;
    }
  }

  // ---- the fragment --------------------------------------------------------

  function Truns(traf: bytes, off: nat, base: nat, d: Defaults, frag: bytes, w: Walk): Walk
    requires w.status == Going
    decreases |traf| - off
  {
    match BoxAt(traf, off)
    case End => w
    case Bad => w.(status := Failed)
    case Box(b) =>
      if b.typ != TrunType then Truns(traf, b.bodyEnd, base, d, frag, w) else
        var w' := Trun(traf[b.bodyOff..b.bodyEnd], base, d, frag, w);
        if w'.status != Going then w' else Truns(traf, b.bodyEnd, base, d, frag, w')
  }

  datatype Init = Init(track: nat, dur: nat, size: nat)

  function Effective(h: Header, init: Init): Defaults
  {
    Defaults(if h.dur == 0 then init.dur else h.dur, if h.size == 0 then init.size else h.size)
  }

  const Nowhere: Walk := Walk(0, false, [], Failed)

  function WalkTraf(traf: bytes, moofStart: nat, frag: bytes, init: Init): Walk
  {
    match FirstChild(traf, Tfhd, 0)
    case At(b) =>
      (match ParseTFHD(traf[b.bodyOff..b.bodyEnd], moofStart)
       case None => Nowhere
       case Some(h) => Truns(traf, 0, h.base, Effective(h, init), frag, Walk(h.base, h.explicit, [], Going)))
    case _ => Nowhere
  }

  /** What a fragment delivers, and whether it was complete, ran short, or was malformed. */
  function ParseFragment(init: Init, frag: bytes): Walk
  {
    match FirstChild(frag, Moof, 0)
    case At(m) =>
      var moof := frag[m.bodyOff..m.bodyEnd];
      (match AudioTraf(moof, init.track, 0)
       case At(b) => WalkTraf(moof[b.bodyOff..b.bodyEnd], m.start, frag, init)
       case _ => Nowhere)
    case _ => Nowhere
  }

  method ParseTraf(traf: bytes, moofStart: nat, frag: bytes, init: Init) returns (w: Walk)
    ensures w == WalkTraf(traf, moofStart, frag, init)
  {
    hide Trun;
    var f := FindFirstChild(traf, Tfhd);
    if !f.At? {
      return Nowhere;
    }
    var head := ParseTFHD(traf[f.span.bodyOff..f.span.bodyEnd], moofStart);
    if head == None {
      return Nowhere;
    }
    var h, d := head.value, Effective(head.value, init);
    w := Walk(h.base, h.explicit, [], Going);
    var off: nat := 0;
    while true
      invariant w.status == Going
      invariant Truns(traf, off, h.base, d, frag, w) == WalkTraf(traf, moofStart, frag, init)
      decreases |traf| - off
    {
      var head := BoxAt(traf, off);
      match head {
        case End => return w;
        case Bad => return w.(status := Failed);
        case Box(b) =>
          if b.typ == TrunType {
            w := ParseTrun(traf[b.bodyOff..b.bodyEnd], h.base, d, frag, w);
            if w.status != Going {
              return w;
            }
          }
          off := b.bodyEnd;
      }
    }
  }

  method Parse(init: Init, frag: bytes) returns (w: Walk)
    ensures w == ParseFragment(init, frag)
  {
    var m := FindFirstChild(frag, Moof);
    if !m.At? {
      return Nowhere;
    }
    var moof := frag[m.span.bodyOff..m.span.bodyEnd];
    var f := FindAudioTraf(moof, init.track);
    if !f.At? {
      return Nowhere;
    }
    w := ParseTraf(moof[f.span.bodyOff..f.span.bodyEnd], m.span.start, frag, init);
  }

  // ---- arbitrary bytes -----------------------------------------------------

  /** A non-empty slice of the fragment. */
  predicate Slice(s: Sample, frag: bytes)
  {
    s.data != [] && s.at + |s.data| <= |frag| && s.data == frag[s.at..s.at + |s.data|]
  }

  predicate Sound(w: Walk, frag: bytes)
  {
    |w.out| <= |frag| && forall i :: 0 <= i < |w.out| ==> Slice(w.out[i], frag)
  }

  /** `w'` adds samples to `w`, each starting where the one before it ended, the first at `start`. */
  predicate Adjacent(w: Walk, w': Walk, start: int)
  {
    && w.out <= w'.out
    && (|w'.out| > |w.out| ==> w'.out[|w.out|].at == start)
    && (forall i :: |w.out| < i < |w'.out| ==> w'.out[i].at == w'.out[i - 1].at + |w'.out[i - 1].data|)
    && (|w'.out| > |w.out| ==> w'.ptr == w'.out[|w'.out| - 1].at + |w'.out[|w'.out| - 1].data|)
    && (|w'.out| == |w.out| ==> w'.ptr == start)
  }

  lemma DeliverSound(w: Walk, size: nat, dur: nat, frag: bytes)
    requires Sound(w, frag)
    ensures var r := Deliver(w, size, dur, frag); Sound(r, frag) && Adjacent(w, r, w.ptr)
  {
  }

  lemma AdjacentTrans(w: Walk, w1: Walk, r: Walk)
    requires Adjacent(w, w1, w.ptr) && Adjacent(w1, r, w1.ptr)
    ensures Adjacent(w, r, w.ptr)
  {
    assert forall i :: 0 <= i < |w1.out| ==> r.out[i] == w1.out[i];
  }

  lemma {:induction false} RecordsSound(t: bytes, off: nat, n: nat, f: Fields, d: Defaults, frag: bytes, w: Walk)
    requires off + Total(n, Width(f)) <= |t| && Sound(w, frag)
    ensures var r := Records(t, off, n, f, d, frag, w); Sound(r, frag) && Adjacent(w, r, w.ptr)
    decreases n
  {
    hide SizeOf, DurOf, Deliver, Sound, Adjacent, Width;
    if n > 0 && w.status == Going {
      RecordRoom(n, Width(f));
      var w1 := Deliver(w, SizeOf(t, off, f, d), DurOf(t, off, f, d), frag);
      DeliverSound(w, SizeOf(t, off, f, d), DurOf(t, off, f, d), frag);
      RecordsSound(t, off + Width(f), n - 1, f, d, frag, w1);
      AdjacentTrans(w, w1, Records(t, off, n, f, d, frag, w));
    } else {
      assert Adjacent(w, w, w.ptr) by { AdjacentSelf(w); }
    }
  }

  lemma AdjacentSelf(w: Walk)
    ensures Adjacent(w, w, w.ptr)
  {
  }

  lemma TrunSound(t: bytes, base: nat, d: Defaults, frag: bytes, w: Walk)
    requires w.status == Going && Sound(w, frag)
    ensures var r := Trun(t, base, d, frag, w);
            && Sound(r, frag) && w.out <= r.out
            && exists start: int :: Adjacent(w, r, start)
  {
    hide Records, Width;
    var l := ParseTrunHead(t);
    var r := Trun(t, base, d, frag, w);
    if l.Some? && !(l.value.offset.None? && !w.located) && CountFits(l.value, t, frag) {
      var start := w.(ptr := if l.value.offset.Some? then base + l.value.offset.value else w.ptr, located := true);
      NoRecords(l.value.count, Width(l.value.fields));
      RecordsSound(t, l.value.records, l.value.count, l.value.fields, d, frag, start);
      assert Adjacent(w, r, start.ptr);
    } else {
      assert Adjacent(w, r, w.ptr);
    }
  }

  lemma {:induction false} TrunsSound(traf: bytes, off: nat, base: nat, d: Defaults, frag: bytes, w: Walk)
    requires w.status == Going && Sound(w, frag)
    ensures Sound(Truns(traf, off, base, d, frag, w), frag)
    decreases |traf| - off
  {
    hide Trun, Sound;
    match BoxAt(traf, off)
    case End =>
    case Bad => assert Sound(w.(status := Failed), frag) by { SameOut(w, w.(status := Failed), frag); }
    case Box(b) =>
      if b.typ != TrunType {
        TrunsSound(traf, b.bodyEnd, base, d, frag, w);
      } else {
        var w' := Trun(traf[b.bodyOff..b.bodyEnd], base, d, frag, w);
        TrunSound(traf[b.bodyOff..b.bodyEnd], base, d, frag, w);
        if w'.status == Going {
          TrunsSound(traf, b.bodyEnd, base, d, frag, w');
        }
      }
  }

  lemma SameOut(w: Walk, w': Walk, frag: bytes)
    requires Sound(w, frag) && w'.out == w.out
    ensures Sound(w', frag)
  {
  }

  /**
   On any bytes: every delivered sample is a non-empty slice of the fragment, and no more samples
   are delivered than the fragment has bytes.
   */
  lemma FragmentSound(init: Init, frag: bytes)
    ensures Sound(ParseFragment(init, frag), frag)
  {
    hide Truns, FirstChild, AudioTraf;
    var m := FirstChild(frag, Moof, 0);
    if m.At? {
      var moof := frag[m.span.bodyOff..m.span.bodyEnd];
      var f := AudioTraf(moof, init.track, 0);
      if f.At? {
        var traf := moof[f.span.bodyOff..f.span.bodyEnd];
        var b := FirstChild(traf, Tfhd, 0);
        if b.At? {
          var h := ParseTFHD(traf[b.span.bodyOff..b.span.bodyEnd], m.span.start);
          if h.Some? {
            TrunsSound(traf, 0, h.value.base, Effective(h.value, init), frag, Walk(h.value.base, h.value.explicit,
              [], Going));
          }
        }
      }
    }
  }

  // ---- a fragment writer ---------------------------------------------------

  const Max32: nat := 0x1_0000_0000

  function Be32(n: nat): bytes
    requires n < Max32
  {
    [n / 0x100_0000, (n / 0x1_0000) % 256, (n / 256) % 256, n % 256]
  }

  lemma ReadsBack(pre: bytes, n: nat, post: bytes)
    requires n < Max32
    ensures U32(pre + Be32(n) + post, |pre|) == n
  {
    var b := pre + Be32(n) + post;
    assert b[|pre|] == Be32(n)[0] && b[|pre| + 1] == Be32(n)[1] && b[|pre| + 2] == Be32(n)[2]
      && b[|pre| + 3] == Be32(n)[3];
    Digits(n);
  }

  lemma Digits(n: nat)
    ensures ((n / 0x100_0000 * 256 + (n / 0x1_0000) % 256) * 256 + (n / 256) % 256) * 256 + n % 256 == n
  {
    var a, b := n / 256, n / 0x1_0000;
    assert a / 256 == b && b / 256 == n / 0x100_0000;
  }

  predicate Boxable(typ: bytes, body: bytes)
  {
    |typ| == 4 && |body| + 8 < Max32
  }

  function WriteBox(typ: bytes, body: bytes): (r: bytes)
    requires Boxable(typ, body)
    ensures |r| == 8 + |body|
  {
    Be32(8 + |body|) + typ + body
  }

  /** A written box is read back wherever it stands. */
  lemma BoxReadsBack(pre: bytes, typ: bytes, body: bytes, post: bytes)
    requires Boxable(typ, body)
    ensures var data := pre + WriteBox(typ, body) + post; var n := |pre|;
            BoxAt(data, n) == Box(Span(typ, n, n + 8, n + 8 + |body|)) && data[n + 8..n + 8 + |body|] == body
  {
    var data := pre + WriteBox(typ, body) + post;
    assert data == pre + Be32(8 + |body|) + (typ + body + post);
    ReadsBack(pre, 8 + |body|, typ + body + post);
    assert data[|pre| + 4..|pre| + 8] == typ;
    assert data[|pre| + 8..|pre| + 8 + |body|] == body;
  }

  /** An access unit to write. */
  datatype Au = Au(data: bytes, dur: nat)

  predicate AllEncodable(aus: seq<Au>)
  {
    forall i :: 0 <= i < |aus| ==> Encodable(aus[i])
  }

  predicate AllWritable(aus: seq<Au>, f: Fields, d: Defaults)
  {
    forall i :: 0 <= i < |aus| ==> Writable(aus[i], f, d)
  }

  /** A trun to write: its fields, whether it states its data offset, and its access units. */
  datatype Run = Run(fields: Fields, placed: bool, firstFlags: bool, aus: seq<Au>)

  predicate Encodable(a: Au)
  {
    a.data != [] && |a.data| < Max32 && a.dur < Max32
  }

  predicate Writable(a: Au, f: Fields, d: Defaults)
  {
    && Encodable(a)
    && (!f.size ==> |a.data| == d.size)
    && (!f.dur ==> a.dur == d.dur)
  }

  predicate RunWritable(r: Run, d: Defaults)
  {
    |r.aus| < Max32 && AllEncodable(r.aus) && AllWritable(r.aus, r.fields, d)
  }

  function Record(f: Fields, a: Au): (r: bytes)
    requires Encodable(a)
    ensures |r| == Width(f)
  {
    (if f.dur then Be32(a.dur) else []) + (if f.size then Be32(|a.data|) else [])
    + (if f.flags then Be32(0) else []) + (if f.cto then Be32(0) else [])
  }

  function RecordBytes(f: Fields, aus: seq<Au>): (r: bytes)
    requires AllEncodable(aus)
    ensures |r| == Total(|aus|, Width(f))
  {
    if aus == [] then [] else
      RecordRoom(|aus|, Width(f));
      Record(f, aus[0]) + RecordBytes(f, aus[1..])
  }

  function DataOf(aus: seq<Au>): bytes
  {
    if aus == [] then [] else aus[0].data + DataOf(aus[1..])
  }

  /** The samples expected for access units whose data starts at `at`. */
  function Expected(aus: seq<Au>, at: nat): seq<Sample>
  {
    if aus == [] then [] else
      [Sample(at, aus[0].data, aus[0].dur)] + Expected(aus[1..], at + |aus[0].data|)
  }

  predicate HasAt(frag: bytes, at: int, data: bytes)
  {
    0 <= at && at + |data| <= |frag| && frag[at..at + |data|] == data
  }

  lemma RecordReadsBack(pre: bytes, f: Fields, a: Au, post: bytes, d: Defaults)
    requires Writable(a, f, d)
    ensures var t := pre + Record(f, a) + post;
            SizeOf(t, |pre|, f, d) == |a.data| && DurOf(t, |pre|, f, d) == a.dur
  {
    hide Be32, U32;
    FourBytes(a.dur);
    FourBytes(|a.data|);
    FourBytes(0);
    var t := pre + Record(f, a) + post;
    var tail := (if f.flags then Be32(0) else []) + (if f.cto then Be32(0) else []);
    var dur, size := if f.dur then Be32(a.dur) else [], if f.size then Be32(|a.data|) else [];
    assert Record(f, a) == dur + size + tail;
    if f.dur {
      assert t == pre + dur + (size + tail + post);
      ReadsBack(pre, a.dur, size + tail + post);
    }
    if f.size {
      assert t == (pre + dur) + size + (tail + post);
      ReadsBack(pre + dur, |a.data|, tail + post);
    }
  }

  /** A walk that has delivered no more samples than its pointer is far in. */
  predicate Steady(w: Walk)
  {
    w.status == Going && 0 <= w.ptr && |w.out| <= w.ptr
  }

  lemma {:induction false} RecordsExact(pre: bytes, aus: seq<Au>, f: Fields, d: Defaults, frag: bytes, w: Walk)
    requires Steady(w) && HasAt(frag, w.ptr, DataOf(aus)) && AllEncodable(aus) && AllWritable(aus, f, d)
    ensures var r := Records(pre + RecordBytes(f, aus), |pre|, |aus|, f, d, frag, w);
            r == w.(ptr := w.ptr + |DataOf(aus)|, out := w.out + Expected(aus, w.ptr)) && Steady(r)
    decreases |aus|
  {
    hide SizeOf, DurOf, Width, Deliver, Record, Total, HasAt, Be32, U32, Encodable, Writable;
    if aus == [] {
      assert w.out + [] == w.out;
    } else {
      var a, rest := aus[0], aus[1..];
      RecordsStep(pre, aus, f, d, frag, w);
      HasPrefix(frag, w.ptr, a.data, DataOf(rest));
      var w1 := w.(ptr := w.ptr + |a.data|, out := w.out + [Sample(w.ptr, a.data, a.dur)]);
      Delivers(w, a, frag);
      RecordsExact(pre + Record(f, a), rest, f, d, frag, w1);
      assert w.out + [Sample(w.ptr, a.data, a.dur)] + Expected(rest, w1.ptr) == w.out + Expected(aus, w.ptr);
    }
  }

  /** Reading the first of some written records. */
  lemma RecordsStep(pre: bytes, aus: seq<Au>, f: Fields, d: Defaults, frag: bytes, w: Walk)
    requires w.status == Going && aus != [] && AllEncodable(aus) && AllWritable(aus, f, d)
    ensures var a, rest := aus[0], aus[1..]; var t := pre + RecordBytes(f, aus); var p1 := pre + Record(f, a);
            && t == p1 + RecordBytes(f, rest)
            && |p1| + Total(|rest|, Width(f)) <= |t|
            && Records(t, |pre|, |aus|, f, d, frag, w) ==
               Records(t, |p1|, |rest|, f, d, frag, Deliver(w, |a.data|, a.dur, frag))
  {
    hide SizeOf, DurOf, Width, Deliver, Record, Total, Be32, U32;
    var a, rest := aus[0], aus[1..];
    var t := pre + RecordBytes(f, aus);
    RecordRoom(|aus|, Width(f));
    assert t == pre + Record(f, a) + RecordBytes(f, rest);
    assert Writable(a, f, d);
    RecordReadsBack(pre, f, a, RecordBytes(f, rest), d);
  }

  lemma Delivers(w: Walk, a: Au, frag: bytes)
    requires Steady(w) && Encodable(a) && HasAt(frag, w.ptr, a.data)
    ensures Deliver(w, |a.data|, a.dur, frag)
         == w.(ptr := w.ptr + |a.data|, out := w.out + [Sample(w.ptr, a.data, a.dur)])
    ensures Steady(Deliver(w, |a.data|, a.dur, frag))
  {
  }

  lemma HasPrefix(frag: bytes, at: int, a: bytes, b: bytes)
    requires HasAt(frag, at, a + b)
    ensures HasAt(frag, at, a) && HasAt(frag, at + |a|, b)
  {
    var all := frag[at..at + |a + b|];
    assert all[..|a|] == a && all[|a|..] == b;
  }

  function FieldBits(f: Fields): byte
  {
    (if f.dur then 1 else 0) + (if f.size then 2 else 0) + (if f.flags then 4 else 0) + (if f.cto then 8 else 0)
  }

  function PlaceBits(r: Run): byte
  {
    (if r.placed then 1 else 0) + (if r.firstFlags then 4 else 0)
  }

  lemma FlagsReadBack(r: Run)
    ensures var f := FieldBits(r.fields); Fields(Flag(f, 1), Flag(f, 2), Flag(f, 4), Flag(f, 8)) == r.fields
    ensures Flag(PlaceBits(r), 1) == r.placed && Flag(PlaceBits(r), 4) == r.firstFlags
  {
  }

  /** Can the offset be stated in 32 bits of two's complement? */
  predicate Int32(offset: int) { -0x8000_0000 <= offset <= MaxInt32 }

  function Unsigned(offset: int): (v: nat)
    requires Int32(offset)
    ensures v < Max32 && Signed(v) == offset
  {
    if offset < 0 then offset + Max32 else offset
  }

  function RunHead(r: Run, offset: int): (h: bytes)
    requires |r.aus| < Max32 && Int32(offset)
    ensures 8 <= |h| <= 16
  {
    [0, 0, FieldBits(r.fields), PlaceBits(r)]
    + Be32(|r.aus|) + (if r.placed then Be32(Unsigned(offset)) else []) + (if r.firstFlags then Be32(0) else [])
  }

  function RunBody(r: Run, d: Defaults, offset: int): (b: bytes)
    requires RunWritable(r, d) && Int32(offset)
    ensures |b| <= 16 + |RecordBytes(r.fields, r.aus)|
  {
    RunHead(r, offset) + RecordBytes(r.fields, r.aus)
  }

  lemma HeadReadsBack(r: Run, d: Defaults, offset: int)
    requires RunWritable(r, d) && Int32(offset)
    ensures ParseTrunHead(RunBody(r, d, offset)) ==
            Some(Layout(|r.aus|, if r.placed then Some(offset) else None, r.fields, |RunHead(r, offset)|))
  {
    FlagsReadBack(r);
    hide Flag, FieldBits, PlaceBits, U32, RecordBytes, Be32, Unsigned, Signed;
    var stated := Unsigned(offset);
    var t := RunBody(r, d, offset);
    var first: bytes := [0, 0, FieldBits(r.fields), PlaceBits(r)];
    var recs := RecordBytes(r.fields, r.aus);
    var flags := if r.firstFlags then Be32(0) else [];
    var place := if r.placed then Be32(stated) else [];
    assert t == first + Be32(|r.aus|) + (place + flags + recs);
    ReadsBack(first, |r.aus|, place + flags + recs);
    assert t[2] == first[2] && t[3] == first[3];
    assert |Be32(0)| == 4 && |Be32(|r.aus|)| == 4
      && |Be32(stated)| == 4 by { FourBytes(0); FourBytes(|r.aus|); FourBytes(stated); }
    if r.placed {
      assert t == (first + Be32(|r.aus|)) + Be32(stated) + (flags + recs);
      ReadsBack(first + Be32(|r.aus|), stated, flags + recs);
    }
  }

  lemma FourBytes(n: nat)
    requires n < Max32
    ensures |Be32(n)| == 4
  {
  }

  /** One written trun delivers its access units, from its stated offset or from where the last ended. */
  lemma TrunExact(r: Run, d: Defaults, offset: int, base: nat, frag: bytes, w: Walk)
    requires RunWritable(r, d) && Int32(offset) && 0 <= base + offset && Steady(w)
    requires HasAt(frag, base + offset, DataOf(r.aus)) && |w.out| <= base + offset
    requires r.placed || (w.located && w.ptr == base + offset)
    ensures var t := Trun(RunBody(r, d, offset), base, d, frag, w);
            t == Walk(base + offset + |DataOf(r.aus)|, true, w.out + Expected(r.aus, base + offset), Going) && Steady(t)
  {
    hide ParseTrunHead, RunHead;
    HeadReadsBack(r, d, offset);
    var start := w.(ptr := base + offset, located := true);
    RecordsExact(RunHead(r, offset), r.aus, r.fields, d, frag, start);
    CountsLength(r.aus);
    NoRecords(|r.aus|, Width(r.fields));
  }

  /** Every access unit has a byte. */
  lemma {:induction false} CountsLength(aus: seq<Au>)
    requires AllEncodable(aus)
    ensures |aus| <= |DataOf(aus)|
  {
    if aus != [] {
      assert Encodable(aus[0]);
      CountsLength(aus[1..]);
    }
  }

  /**
   What a traf holds behind its tfhd: truns, each with the media of others that lies between the
   data of the trun before it and its own; and boxes of no interest.
   */
  datatype Item = RunItem(lead: bytes, run: Run) | Aside(typ: bytes, body: bytes)

  function ItemData(i: Item): bytes
  {
    if i.RunItem? then i.lead + DataOf(i.run.aus) else []
  }

  function ItemsData(items: seq<Item>): bytes
  {
    if items == [] then [] else ItemData(items[0]) + ItemsData(items[1..])
  }

  function ItemExpected(i: Item, at: nat): seq<Sample>
  {
    if i.RunItem? then Expected(i.run.aus, at + |i.lead|) else []
  }

  function ItemsExpected(items: seq<Item>, at: nat): seq<Sample>
  {
    if items == [] then [] else
      ItemExpected(items[0], at) + ItemsExpected(items[1..], at + |ItemData(items[0])|)
  }

  predicate ItemWritable(i: Item, d: Defaults)
  {
    match i
    case RunItem(lead, r) =>
      RunWritable(r, d) && 16 + |RecordBytes(r.fields, r.aus)| + 8 < Max32 && (lead != [] ==> r.placed)
    case Aside(typ, body) => Boxable(typ, body) && typ != TrunType && typ != Tfhd
  }

  predicate ItemsWritable(items: seq<Item>, d: Defaults)
  {
    forall i :: 0 <= i < |items| ==> ItemWritable(items[i], d)
  }

  function ItemBox(i: Item, d: Defaults, offset: int): bytes
    requires ItemWritable(i, d) && Int32(offset) && offset + |ItemData(i)| <= MaxInt32
  {
    if i.RunItem? then WriteBox(TrunType, RunBody(i.run, d, offset + |i.lead|)) else WriteBox(i.typ, i.body)
  }

  function ItemsBytes(items: seq<Item>, d: Defaults, offset: int): bytes
    requires ItemsWritable(items, d) && Int32(offset) && offset + |ItemsData(items)| <= MaxInt32
  {
    if items == [] then [] else
      ItemBox(items[0], d, offset) + ItemsBytes(items[1..], d, offset + |ItemData(items[0])|)
  }

  /** Does the first trun state its offset? */
  predicate FirstPlaced(items: seq<Item>)
  {
    items == [] || (if items[0].RunItem? then items[0].run.placed else FirstPlaced(items[1..]))
  }

  /** The walk is where the next bytes start, or will be told by the next trun. */
  predicate Placed(w: Walk, at: nat, items: seq<Item>)
  {
    && Steady(w) && |w.out| <= at
    && ((w.located && w.ptr == at) || FirstPlaced(items))
  }

  /** One written box of a traf, read in place. */
  lemma ItemExact(pre: bytes, items: seq<Item>, post: bytes, d: Defaults, offset: int, base: nat, frag: bytes,
                  w: Walk) returns (w': Walk)
    requires items != [] && ItemWritable(items[0], d) && Int32(offset) && offset + |ItemData(items[0])| <= MaxInt32
    requires 0 <= base + offset
    requires Placed(w, base + offset, items) && HasAt(frag, base + offset, ItemData(items[0]))
    ensures var box := ItemBox(items[0], d, offset);
            && Placed(w', base + offset + |ItemData(items[0])|, items[1..])
            && w'.out == w.out + ItemExpected(items[0], base + offset)
            && Truns(pre + box + post, |pre|, base, d, frag, w) == Truns(pre + box + post, |pre + box|, base, d, frag, w')
  {
    hide Trun, RunBody, DataOf, Expected, WriteBox, Truns, RunWritable, HasAt;
    var i := items[0];
    if i.Aside? {
      w' := w;
      TrunsPast(pre, i.typ, i.body, post, base, d, frag, w);
      assert w.out + [] == w.out;
    } else {
      var r, at := i.run, offset + |i.lead|;
      HasPrefix(frag, base + offset, i.lead, DataOf(r.aus));
      TrunExact(r, d, at, base, frag, w);
      w' := Trun(RunBody(r, d, at), base, d, frag, w);
      TrunsAt(pre, RunBody(r, d, at), post, base, d, frag, w);
    }
  }

  lemma {:induction false} TrunsExact(pre: bytes, items: seq<Item>, d: Defaults, offset: int, base: nat, frag: bytes,
                                      w: Walk)
    requires ItemsWritable(items, d) && Int32(offset) && offset + |ItemsData(items)| <= MaxInt32
    requires 0 <= base + offset
    requires Placed(w, base + offset, items) && HasAt(frag, base + offset, ItemsData(items))
    ensures var r := Truns(pre + ItemsBytes(items, d, offset), |pre|, base, d, frag, w);
            r.status == Going && r.out == w.out + ItemsExpected(items, base + offset)
    decreases |items|
  {
    hide ItemBox, ItemData, ItemExpected, Truns, HasAt, ItemWritable, FirstPlaced;
    if items == [] {
      NothingBehind(pre, base, d, frag, w);
      assert pre + [] == pre && w.out + [] == w.out;
    } else {
      var i, rest := items[0], items[1..];
      var next := offset + |ItemData(i)|;
      var box, post := ItemBox(i, d, offset), ItemsBytes(rest, d, next);
      assert pre + ItemsBytes(items, d, offset) == pre + box + post;
      HasPrefix(frag, base + offset, ItemData(i), ItemsData(rest));
      var w' := ItemExact(pre, items, post, d, offset, base, frag, w);
      TrunsExact(pre + box, rest, d, next, base, frag, w');
      assert w.out + ItemExpected(i, base + offset) + ItemsExpected(rest, base + next)
          == w.out + ItemsExpected(items, base + offset);
    }
  }

  lemma TrunsUnfold(traf: bytes, off: nat, base: nat, d: Defaults, frag: bytes, w: Walk)
    requires w.status == Going && BoxAt(traf, off).Box?
    ensures var b := BoxAt(traf, off).span;
            && (b.typ != TrunType ==> Truns(traf, off, base, d, frag, w) == Truns(traf, b.bodyEnd, base, d, frag, w))
            && (b.typ == TrunType ==>
                  var w' := Trun(traf[b.bodyOff..b.bodyEnd], base, d, frag, w);
                  w'.status == Going ==> Truns(traf, off, base, d, frag, w) == Truns(traf, b.bodyEnd, base, d, frag, w'))
  {
    hide BoxAt, Trun;
  }

  lemma TrunsPast(pre: bytes, typ: bytes, body: bytes, post: bytes, base: nat, d: Defaults, frag: bytes, w: Walk)
    requires Boxable(typ, body) && typ != TrunType && w.status == Going
    ensures var traf := pre + WriteBox(typ, body) + post;
            Truns(traf, |pre|, base, d, frag, w) == Truns(traf, |pre + WriteBox(typ, body)|, base, d, frag, w)
  {
    hide BoxAt, WriteBox, Trun, Truns, U32, Deliver;
    BoxReadsBack(pre, typ, body, post);
    TrunsUnfold(pre + WriteBox(typ, body) + post, |pre|, base, d, frag, w);
  }

  lemma TrunsAt(pre: bytes, body: bytes, post: bytes, base: nat, d: Defaults, frag: bytes, w: Walk)
    requires Boxable(TrunType, body) && w.status == Going && Trun(body, base, d, frag, w).status == Going
    ensures var traf := pre + WriteBox(TrunType, body) + post;
            Truns(traf, |pre|, base, d, frag, w) == Truns(traf, |pre + WriteBox(TrunType, body)|, base, d, frag,
              Trun(body, base, d, frag, w))
  {
    hide BoxAt, WriteBox, Trun, Truns, U32, Deliver;
    BoxReadsBack(pre, TrunType, body, post);
    TrunsUnfold(pre + WriteBox(TrunType, body) + post, |pre|, base, d, frag, w);
  }

  lemma NothingBehind(data: bytes, base: nat, d: Defaults, frag: bytes, w: Walk)
    requires w.status == Going
    ensures Truns(data, |data|, base, d, frag, w) == w
  {
  }

  /** A track fragment header to write: an explicit base or the moof's start, and optional defaults. */
  datatype TrackHeader = TrackHeader(track: nat, base: Option<nat>, dur: Option<nat>, size: Option<nat>)

  predicate Small(o: Option<nat>) { o.Some? ==> o.value < Max32 }

  predicate HeaderWritable(h: TrackHeader)
  {
    h.track < Max32 && Small(h.dur) && Small(h.size) && (h.base.Some? ==> h.base.value <= MaxInt32)
  }

  function Opt32(o: Option<nat>): bytes
    requires Small(o)
  {
    if o.Some? then Be32(o.value) else []
  }

  function BaseBytes(h: TrackHeader): (b: bytes)
    requires HeaderWritable(h)
    ensures |b| <= 8
  {
    if h.base.Some? then Be32(0) + Be32(h.base.value) else []
  }

  function HeaderBits(h: TrackHeader): byte
  {
    (if h.base.Some? then 1 else 0) + (if h.dur.Some? then 8 else 0) + (if h.size.Some? then 16 else 0)
  }

  function TfhdBody(h: TrackHeader): (b: bytes)
    requires HeaderWritable(h)
    ensures 8 <= |b| <= 24
  {
    [0, if h.base.Some? then 0 else 2, 0, HeaderBits(h)] + Be32(h.track) + BaseBytes(h) + Opt32(h.dur) + Opt32(h.size)
  }

  function Default(o: Option<nat>): nat { if o.Some? then o.value else 0 }

  /** The header as the parser has it, the moof starting at `moofStart`. */
  function Parsed(h: TrackHeader, moofStart: nat): Header
  {
    Header(if h.base.Some? then h.base.value else moofStart, h.base.Some?, Default(h.dur), Default(h.size))
  }

  lemma HeaderBitsReadBack(h: TrackHeader)
    ensures var b := HeaderBits(h);
            Flag(b, 1) == h.base.Some? && !Flag(b, 2) && Flag(b, 8) == h.dur.Some? && Flag(b, 16) == h.size.Some?
  {
  }

  /** A base small enough for the parser is written in the low half of its 64 bits. */
  lemma BaseReadsBack(pre: bytes, h: TrackHeader, post: bytes)
    requires HeaderWritable(h) && h.base.Some?
    ensures U64(pre + BaseBytes(h) + post, |pre|) == h.base.value
  {
    hide U32, Be32;
    FourBytes(0);
    FourBytes(h.base.value);
    var b := pre + BaseBytes(h) + post;
    assert b == pre + Be32(0) + (Be32(h.base.value) + post);
    ReadsBack(pre, 0, Be32(h.base.value) + post);
    assert b == (pre + Be32(0)) + Be32(h.base.value) + post;
    ReadsBack(pre + Be32(0), h.base.value, post);
  }

  lemma TfhdReadsBack(h: TrackHeader, moofStart: nat)
    requires HeaderWritable(h)
    ensures var b := TfhdBody(h); U32(b, 4) == h.track && ParseTFHD(b, moofStart) == Some(Parsed(h, moofStart))
  {
    hide Flag, HeaderBits, U32, U64, Be32, BaseBytes;
    HeaderBitsReadBack(h);
    FourBytes(h.track);
    BaseLength(h);
    var b := TfhdBody(h);
    var first: bytes := [0, if h.base.Some? then 0 else 2, 0, HeaderBits(h)];
    var place, dur, size := BaseBytes(h), Opt32(h.dur), Opt32(h.size);
    assert b == first + Be32(h.track) + (place + dur + size);
    ReadsBack(first, h.track, place + dur + size);
    assert b[3] == first[3];
    var head := first + Be32(h.track);
    if h.base.Some? {
      assert b == head + place + (dur + size);
      BaseReadsBack(head, h, dur + size);
    }
    if h.dur.Some? {
      FourBytes(h.dur.value);
      assert b == (head + place) + dur + size;
      ReadsBack(head + place, h.dur.value, size);
    }
    if h.size.Some? {
      FourBytes(h.size.value);
      assert b == (head + place + dur) + size + [];
      ReadsBack(head + place + dur, h.size.value, []);
    }
  }

  lemma BaseLength(h: TrackHeader)
    requires HeaderWritable(h)
    ensures |BaseBytes(h)| == if h.base.Some? then 8 else 0
  {
  }

  /** Any other box. */
  datatype Plain = Plain(typ: bytes, body: bytes)

  predicate PlainsBoxable(bs: seq<Plain>)
  {
    forall i :: 0 <= i < |bs| ==> Boxable(bs[i].typ, bs[i].body)
  }

  function PlainBytes(bs: seq<Plain>): bytes
    requires PlainsBoxable(bs)
  {
    if bs == [] then [] else WriteBox(bs[0].typ, bs[0].body) + PlainBytes(bs[1..])
  }

  predicate NoneOf(bs: seq<Plain>, typ: bytes)
  {
    forall i :: 0 <= i < |bs| ==> bs[i].typ != typ
  }

  /** Boxes the audio track search passes by: other types, and track fragments of other tracks. */
  predicate Foreign(bs: seq<Plain>, track: nat)
  {
    forall i :: 0 <= i < |bs| ==> bs[i].typ != Traf || ClaimOf(bs[i].body, track) == Other
  }

  lemma ChildUnfold(data: bytes, typ: bytes, off: nat)
    requires BoxAt(data, off).Box?
    ensures var b := BoxAt(data, off).span;
            FirstChild(data, typ, off) == if b.typ == typ then At(b) else FirstChild(data, typ, b.bodyEnd)
  {
    hide BoxAt;
  }

  lemma TrafUnfold(moof: bytes, track: nat, off: nat)
    requires BoxAt(moof, off).Box?
    ensures var b := BoxAt(moof, off).span; var c := ClaimOf(moof[b.bodyOff..b.bodyEnd], track);
            && (b.typ != Traf || c == Other ==> AudioTraf(moof, track, off) == AudioTraf(moof, track, b.bodyEnd))
            && (b.typ == Traf && c == Mine ==> AudioTraf(moof, track, off) == At(b))
  {
    hide BoxAt, ClaimOf;
  }

  lemma {:induction false} ChildBehind(pre: bytes, bs: seq<Plain>, typ: bytes, body: bytes, post: bytes)
    requires PlainsBoxable(bs) && NoneOf(bs, typ) && Boxable(typ, body)
    ensures var data := pre + PlainBytes(bs) + WriteBox(typ, body) + post; var n := |pre + PlainBytes(bs)|;
            FirstChild(data, typ, |pre|) == At(Span(typ, n, n + 8, n + 8 + |body|)) && data[n + 8..n + 8 + |body|] == body
    decreases |bs|
  {
    hide WriteBox, U32, BoxAt, FirstChild;
    var data := pre + PlainBytes(bs) + WriteBox(typ, body) + post;
    if bs == [] {
      assert pre + [] == pre;
      BoxReadsBack(pre, typ, body, post);
      ChildUnfold(pre + WriteBox(typ, body) + post, typ, |pre|);
    } else {
      var b, rest := bs[0], bs[1..];
      var box := WriteBox(b.typ, b.body);
      assert data == pre + box + (PlainBytes(rest) + WriteBox(typ, body) + post);
      BoxReadsBack(pre, b.typ, b.body, PlainBytes(rest) + WriteBox(typ, body) + post);
      ChildUnfold(data, typ, |pre|);
      assert data == (pre + box) + PlainBytes(rest) + WriteBox(typ, body) + post;
      ChildBehind(pre + box, rest, typ, body, post);
      assert pre + PlainBytes(bs) == (pre + box) + PlainBytes(rest);
    }
  }

  lemma {:induction false} TrafBehind(pre: bytes, bs: seq<Plain>, track: nat, body: bytes, post: bytes)
    requires PlainsBoxable(bs) && Foreign(bs, track) && Boxable(Traf, body) && ClaimOf(body, track) == Mine
    ensures var data := pre + PlainBytes(bs) + WriteBox(Traf, body) + post; var n := |pre + PlainBytes(bs)|;
            AudioTraf(data, track, |pre|) == At(Span(Traf, n, n + 8, n + 8 + |body|))
              && data[n + 8..n + 8 + |body|] == body
    decreases |bs|
  {
    hide WriteBox, U32, ClaimOf, BoxAt, AudioTraf;
    var data := pre + PlainBytes(bs) + WriteBox(Traf, body) + post;
    if bs == [] {
      assert pre + [] == pre;
      BoxReadsBack(pre, Traf, body, post);
      TrafUnfold(pre + WriteBox(Traf, body) + post, track, |pre|);
    } else {
      var b, rest := bs[0], bs[1..];
      var box := WriteBox(b.typ, b.body);
      assert data == pre + box + (PlainBytes(rest) + WriteBox(Traf, body) + post);
      BoxReadsBack(pre, b.typ, b.body, PlainBytes(rest) + WriteBox(Traf, body) + post);
      TrafUnfold(data, track, |pre|);
      assert data == (pre + box) + PlainBytes(rest) + WriteBox(Traf, body) + post;
      TrafBehind(pre + box, rest, track, body, post);
      assert pre + PlainBytes(bs) == (pre + box) + PlainBytes(rest);
    }
  }

  function TrafBody(h: TrackHeader, items: seq<Item>, d: Defaults, offset: int): bytes
    requires HeaderWritable(h) && ItemsWritable(items, d) && Int32(offset) && offset + |ItemsData(items)| <= MaxInt32
  {
    WriteBox(Tfhd, TfhdBody(h)) + ItemsBytes(items, d, offset)
  }

  /** The walk starts where the first bytes are, or the first trun says where. */
  predicate Located(h: TrackHeader, items: seq<Item>, at: int)
  {
    h.base == Some(at) || FirstPlaced(items)
  }

  /** A written track fragment delivers its access units, their data starting `offset` behind its base. */
  lemma TrafReadsBack(h: TrackHeader, items: seq<Item>, d: Defaults, offset: int, moofStart: nat, frag: bytes,
                      init: Init)
    requires HeaderWritable(h) && ItemsWritable(items, d) && Int32(offset) && offset + |ItemsData(items)| <= MaxInt32
    requires d == Effective(Parsed(h, moofStart), init)
    requires var at := Parsed(h, moofStart).base + offset;
             0 <= at && Located(h, items, at) && HasAt(frag, at, ItemsData(items))
    ensures var t := TrafBody(h, items, d, offset);
            && ClaimOf(t, h.track) == Mine
            && var w := WalkTraf(t, moofStart, frag, init);
               w.status == Going && w.out == ItemsExpected(items, Parsed(h, moofStart).base + offset)
  {
    hide WriteBox, U32, TfhdBody, ParseTFHD, ItemsBytes, Truns, HasAt, BoxAt;
    var b, rest, base := TfhdBody(h), ItemsBytes(items, d, offset), Parsed(h, moofStart).base;
    var t := TrafBody(h, items, d, offset);
    TfhdReadsBack(h, moofStart);
    ChildBehind([], [], Tfhd, b, rest);
    assert [] + PlainBytes([]) + WriteBox(Tfhd, b) + rest == t && |[] + PlainBytes([])| == 0;
    var w := Walk(base, h.base.Some?, [], Going);
    TrunsPast([], Tfhd, b, rest, base, d, frag, w);
    assert [] + WriteBox(Tfhd, b) + rest == t && [] + WriteBox(Tfhd, b) == WriteBox(Tfhd, b);
    TrunsExact(WriteBox(Tfhd, b), items, d, offset, base, frag, w);
    assert [] + ItemsExpected(items, base + offset) == ItemsExpected(items, base + offset);
  }

  /**
   A whole fragment to write: boxes before the moof; in it boxes before the traf, the traf, boxes
   behind it; the media, with other tracks' bytes between the truns' and at its end; and anything.
   */
  datatype Fragment = Fragment(
    before: seq<Plain>, aside: seq<Plain>, header: TrackHeader, items: seq<Item>, beyond: seq<Plain>,
    others: bytes, trailing: bytes)

  function DefaultsOf(f: Fragment, init: Init): Defaults
  {
    Defaults(if Default(f.header.dur) == 0 then init.dur else Default(f.header.dur),
             if Default(f.header.size) == 0 then init.size else Default(f.header.size))
  }

  function MoofBody(f: Fragment, d: Defaults, offset: int): bytes
    requires HeaderWritable(f.header) && ItemsWritable(f.items, d)
    requires Int32(offset) && offset + |ItemsData(f.items)| <= MaxInt32
    requires PlainsBoxable(f.aside) && PlainsBoxable(f.beyond) && |TrafBody(f.header, f.items, d, offset)| + 8 < Max32
  {
    PlainBytes(f.aside) + WriteBox(Traf, TrafBody(f.header, f.items, d, offset)) + PlainBytes(f.beyond)
  }

  /** Where the media data starts: data offsets do not change any length. */
  function MediaAt(f: Fragment, d: Defaults): nat
    requires HeaderWritable(f.header) && ItemsWritable(f.items, d) && |ItemsData(f.items)| <= MaxInt32
    requires PlainsBoxable(f.before) && PlainsBoxable(f.aside) && PlainsBoxable(f.beyond)
  {
    |PlainBytes(f.before)| + 8 + |PlainBytes(f.aside)| + 8 + |TrafBody(f.header, f.items, d, 0)|
    + |PlainBytes(f.beyond)| + 8
  }

  /** The media data's place counted from the base its truns refer to. */
  function MediaOffset(f: Fragment, d: Defaults): int
    requires HeaderWritable(f.header) && ItemsWritable(f.items, d) && |ItemsData(f.items)| <= MaxInt32
    requires PlainsBoxable(f.before) && PlainsBoxable(f.aside) && PlainsBoxable(f.beyond)
  {
    MediaAt(f, d) - Parsed(f.header, |PlainBytes(f.before)|).base
  }

  predicate FragmentWritable(f: Fragment, d: Defaults)
  {
    && HeaderWritable(f.header) && ItemsWritable(f.items, d)
    && PlainsBoxable(f.before) && NoneOf(f.before, Moof)
    && PlainsBoxable(f.aside) && Foreign(f.aside, f.header.track) && PlainsBoxable(f.beyond)
    && |ItemsData(f.items) + f.others| <= MaxInt32
    && MediaAt(f, d) - |PlainBytes(f.before)| <= MaxInt32
    && MediaOffset(f, d) + |ItemsData(f.items)| <= MaxInt32
    && Located(f.header, f.items, MediaAt(f, d))
  }

  lemma {:induction false} LengthFixed(items: seq<Item>, d: Defaults, o: int, p: int)
    requires ItemsWritable(items, d) && Int32(o) && Int32(p)
    requires o + |ItemsData(items)| <= MaxInt32 && p + |ItemsData(items)| <= MaxInt32
    ensures |ItemsBytes(items, d, o)| == |ItemsBytes(items, d, p)|
    decreases |items|
  {
    hide ItemData, ItemsData, RecordBytes, ItemBox, ItemWritable, DataOf;
    if items != [] {
      DataSplits(items);
      LengthFixed(items[1..], d, o + |ItemData(items[0])|, p + |ItemData(items[0])|);
      BoxLengthFixed(items[0], d, o, p);
    }
  }

  lemma DataSplits(items: seq<Item>)
    requires items != []
    ensures |ItemsData(items)| == |ItemData(items[0])| + |ItemsData(items[1..])|
  {
  }

  lemma BoxLengthFixed(i: Item, d: Defaults, o: int, p: int)
    requires ItemWritable(i, d) && Int32(o) && Int32(p)
    requires o + |ItemData(i)| <= MaxInt32 && p + |ItemData(i)| <= MaxInt32
    ensures |ItemBox(i, d, o)| == |ItemBox(i, d, p)|
  {
    hide RecordBytes, FieldBits, PlaceBits;
  }

  lemma OffsetFits(f: Fragment, d: Defaults)
    requires FragmentWritable(f, d)
    ensures Int32(MediaOffset(f, d))
    ensures |TrafBody(f.header, f.items, d, MediaOffset(f, d))| == |TrafBody(f.header, f.items, d, 0)|
    ensures |TrafBody(f.header, f.items, d, 0)| + 8 < Max32
  {
    hide TfhdBody, ItemsBytes, ItemsData, ItemsWritable, PlainBytes;
    LengthFixed(f.items, d, 0, MediaOffset(f, d));
  }

  function WriteFragment(f: Fragment, d: Defaults): bytes
    requires FragmentWritable(f, d)
  {
    OffsetFits(f, d);
    PlainBytes(f.before) + WriteBox(Moof, MoofBody(f, d, MediaOffset(f, d)))
    + WriteBox(Mdat, ItemsData(f.items) + f.others) + f.trailing
  }

  /**
   The round trip: a fragment written from any access units, over any number of truns with any mix of
   per-sample fields and defaults, placed from the moof or from an explicit base before or behind the
   data, among other boxes, other tracks' fragments and other tracks' media, is sliced back into
   exactly those access units and durations, in order, and is neither short nor malformed.
   */
  lemma RoundTrip(f: Fragment, init: Init)
    requires FragmentWritable(f, DefaultsOf(f, init)) && f.header.track == init.track
    ensures var d := DefaultsOf(f, init); var w := ParseFragment(init, WriteFragment(f, d));
            w.status == Going && w.out == ItemsExpected(f.items, MediaAt(f, d))
  {
    hide WriteBox, PlainBytes, TrafBody, ItemsData, ItemsExpected, WalkTraf, FirstChild, AudioTraf, ClaimOf,
        ItemsBytes, ItemsWritable, Foreign, NoneOf, PlainsBoxable, HeaderWritable, MediaAt, Located;
    var d := DefaultsOf(f, init);
    OffsetFits(f, d);
    var offset := MediaOffset(f, d);
    var frag := WriteFragment(f, d);
    var before, beyond := PlainBytes(f.before), PlainBytes(f.beyond);
    var media := WriteBox(Mdat, ItemsData(f.items) + f.others) + f.trailing;
    LayoutOf(f, d);
    var traf := TrafBody(f.header, f.items, d, offset);
    var moof := MoofBody(f, d, offset);
    ChildBehind([], f.before, Moof, moof, media);
    assert [] + before + WriteBox(Moof, moof) + media == frag && [] + before == before;
    TrafReadsBack(f.header, f.items, d, offset, |before|, frag, init);
    TrafBehind([], f.aside, init.track, traf, beyond);
    assert [] + PlainBytes(f.aside) + WriteBox(Traf, traf) + beyond == moof
      && [] + PlainBytes(f.aside) == PlainBytes(f.aside);
  }

  /** The media data stands where the first trun says. */
  lemma LayoutOf(f: Fragment, d: Defaults)
    requires FragmentWritable(f, d)
    ensures Int32(MediaOffset(f, d))
    ensures var o := MediaOffset(f, d);
            && |TrafBody(f.header, f.items, d, o)| + 8 < Max32 && Boxable(Traf, TrafBody(f.header, f.items, d, o))
            && Boxable(Moof, MoofBody(f, d, o)) && Boxable(Mdat, ItemsData(f.items) + f.others)
            && HasAt(WriteFragment(f, d), MediaAt(f, d), ItemsData(f.items))
  {
    hide ItemsData, ItemsBytes, PlainBytes, ItemsWritable, Foreign, NoneOf, PlainsBoxable, Be32, TfhdBody, TrafBody;
    OffsetFits(f, d);
    var o := MediaOffset(f, d);
    var data := ItemsData(f.items) + f.others;
    var lead := PlainBytes(f.before) + WriteBox(Moof, MoofBody(f, d, o)) + (Be32(8 + |data|) + Mdat);
    FourBytes(8 + |data|);
    assert WriteFragment(f, d) == lead + ItemsData(f.items) + (f.others + f.trailing);
    assert |lead| == MediaAt(f, d);
  }
}
