/** A fragment cut short: what a trun still delivers when the fragment ends within its data. */
module Fmp4Cut {
  import opened Fmp4

  /** The fragment ends within access unit `k`, having those before it whole. */
  predicate EndsWithin(frag: bytes, at: int, aus: seq<Au>, k: nat)
  {
    k < |aus| && HasAt(frag, at, DataOf(aus[..k])) && at + |DataOf(aus[..k])| + |aus[k].data| > |frag|
  }

  lemma EndsLater(frag: bytes, at: int, aus: seq<Au>, k: nat)
    requires EndsWithin(frag, at, aus, k) && k > 0
    ensures HasAt(frag, at, aus[0].data) && EndsWithin(frag, at + |aus[0].data|, aus[1..], k - 1)
  {
    assert aus[..k][1..] == aus[1..][..k - 1];
    HasPrefix(frag, at, aus[0].data, DataOf(aus[1..][..k - 1]));
  }

  lemma CutDeliver(w: Walk, a: Au, frag: bytes)
    requires Steady(w) && w.ptr + |a.data| > |frag|
    ensures Deliver(w, |a.data|, a.dur, frag) == w.(status := Short)
  {
  }

  lemma ShortStops(t: bytes, off: nat, n: nat, f: Fields, d: Defaults, frag: bytes, w: Walk)
    requires off + Total(n, Width(f)) <= |t| && w.status == Short
    ensures Records(t, off, n, f, d, frag, w) == w
  {
  }

  lemma {:induction false} RecordsCut(
    pre: bytes, aus: seq<Au>, k: nat, f: Fields, d: Defaults, frag: bytes, w: Walk)
    requires Steady(w) && AllEncodable(aus) && AllWritable(aus, f, d) && EndsWithin(frag, w.ptr, aus, k)
    ensures Records(pre + RecordBytes(f, aus), |pre|, |aus|, f, d, frag, w) ==
            Walk(w.ptr + |DataOf(aus[..k])|, w.located, w.out + Expected(aus[..k], w.ptr), Short)
    decreases |aus|
  {
    hide SizeOf, DurOf, Width, Deliver, Record, Total, HasAt, Encodable, Writable, Records;
    var a, rest := aus[0], aus[1..];
    RecordsStep(pre, aus, f, d, frag, w);
    var t, p1 := pre + RecordBytes(f, aus), pre + Record(f, a);
    if k == 0 {
      assert aus[..0] == [] && DataOf([]) == [] && Expected([], w.ptr) == [];
      CutDeliver(w, a, frag);
      ShortStops(t, |p1|, |rest|, f, d, frag, w.(status := Short));
      assert w.out + [] == w.out;
    } else {
      EndsLater(frag, w.ptr, aus, k);
      var w1 := w.(ptr := w.ptr + |a.data|, out := w.out + [Sample(w.ptr, a.data, a.dur)]);
      Delivers(w, a, frag);
      RecordsCut(p1, rest, k - 1, f, d, frag, w1);
      assert aus[..k][1..] == rest[..k - 1] && aus[..k][0] == a;
      assert w.out + [Sample(w.ptr, a.data, a.dur)] + Expected(rest[..k - 1], w1.ptr) == w.out + Expected(aus[..k], w.ptr);
    }
  }

  /**
   A written trun whose data the fragment does not hold to the end delivers exactly the access units that
   are whole, and says that it ran short; none is delivered in part.
   */
  lemma TrunCut(r: Run, k: nat, d: Defaults, offset: int, base: nat, frag: bytes, w: Walk)
    requires RunWritable(r, d) && Int32(offset) && 0 <= base + offset && Steady(w)
    requires EndsWithin(frag, base + offset, r.aus, k) && |w.out| <= base + offset
    requires r.placed || (w.located && w.ptr == base + offset)
    requires Width(r.fields) == 0 ==> |r.aus| <= |frag|
    ensures Trun(RunBody(r, d, offset), base, d, frag, w) ==
            Walk(base + offset + |DataOf(r.aus[..k])|, true, w.out + Expected(r.aus[..k], base + offset), Short)
  {
    hide ParseTrunHead, RunHead, EndsWithin;
    HeadReadsBack(r, d, offset);
    var start := w.(ptr := base + offset, located := true);
    RecordsCut(RunHead(r, offset), r.aus, k, r.fields, d, frag, start);
    NoRecords(|r.aus|, Width(r.fields));
  }

  /** And with it the walk of the traf ends. */
  lemma TrunsCut(pre: bytes, body: bytes, post: bytes, base: nat, d: Defaults, frag: bytes, w: Walk)
    requires Boxable(TrunType, body) && w.status == Going && Trun(body, base, d, frag, w).status == Short
    ensures Truns(pre + WriteBox(TrunType, body) + post, |pre|, base, d, frag, w) == Trun(body, base, d, frag, w)
  {
    hide WriteBox, Trun, U32, Deliver;
    BoxReadsBack(pre, TrunType, body, post);
  }
}
