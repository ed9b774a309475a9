/**
 Which RTP payload type a track listens to: the one the SDP declared, or, where the stream disagrees
 with the SDP, the one it keeps sending.
 */
module PayloadTypes {
  datatype Option<T> = None | Some(value: T)

  /** Consecutive packets of one undeclared type before a track adopts it. */
  const AdoptThreshold: nat := 5

  /** What the SDP declared, what the track settled on, and the run of the latest undeclared type. */
  datatype Gate = Gate(declared: Option<nat>, wire: Option<nat>, candidate: nat, run: nat)

  datatype Verdict = Verdict(gate: Gate, accepted: bool)

  function Open(declared: Option<nat>): Gate { Gate(declared, None, 0, 0) }

  /** One packet's payload type. */
  function Admit(g: Gate, pt: nat): Verdict
  {
    if g.declared.None? then
      var wire := if g.wire.None? then pt else g.wire.value;
      Verdict(g.(wire := Some(wire)), pt == wire)
    else if pt == g.declared.value then Verdict(g.(wire := Some(pt), run := 0), true)
    else if g.wire.Some? then Verdict(g, pt == g.wire.value)
    else
      var run := if g.run > 0 && pt == g.candidate then g.run + 1 else 1;
      var h := g.(candidate := pt, run := run);
      if run < AdoptThreshold then Verdict(h, false) else Verdict(h.(wire := Some(pt)), true)
  }

  function After(declared: Option<nat>, pts: seq<nat>): Gate
  {
    if pts == [] then Open(declared) else Admit(After(declared, pts[..|pts| - 1]), pts[|pts| - 1]).gate
  }

  /** Is packet `i` of the stream accepted? */
  predicate Accepted(declared: Option<nat>, pts: seq<nat>, i: nat)
    requires i < |pts|
  {
    Admit(After(declared, pts[..i]), pts[i]).accepted
  }

  // ---- what the rule comes to ----------------------------------------------

  /** The length of the run of one type a stream ends in. */
  function RunAtEnd(pts: seq<nat>): (n: nat)
    ensures n <= |pts| && (pts != [] ==> n > 0)
    ensures forall i :: |pts| - n <= i < |pts| ==> pts[i] == pts[|pts| - 1]
  {
    if pts == [] then 0 else
      var init := pts[..|pts| - 1];
      if init != [] && init[|init| - 1] == pts[|pts| - 1] then RunAtEnd(init) + 1 else 1
  }

  /** The type of the first run long enough to be adopted. */
  function Adopted(pts: seq<nat>): Option<nat>
  {
    if pts == [] then None else
      var init := pts[..|pts| - 1];
      if Adopted(init).Some? then Adopted(init)
      else if RunAtEnd(pts) >= AdoptThreshold then Some(pts[|pts| - 1])
      else None
  }

  /** What a track has settled on, given everything it has seen. */
  function Settled(declared: Option<nat>, pts: seq<nat>): Option<nat>
  {
    match declared
    case None => if pts == [] then None else Some(pts[0])
    case Some(d) => if d in pts then Some(d) else Adopted(pts)
  }

  lemma {:induction false} GateIs(declared: Option<nat>, pts: seq<nat>)
    ensures var g := After(declared, pts);
            && g.declared == declared
            && g.wire == Settled(declared, pts)
            && (declared.Some? && g.wire.None? ==>
                  g.run == RunAtEnd(pts) && (pts != [] ==> g.candidate == pts[|pts| - 1]))
  {
    if pts != [] {
      GateIs(declared, pts[..|pts| - 1]);
    }
  }

  /**
   The declared type is always accepted and settles the track for good; until it is seen an undeclared
   type is accepted exactly when it is that of the first run of five; with nothing declared, the first
   type seen is the one.
   */
  lemma AcceptedExactly(declared: Option<nat>, pts: seq<nat>, i: nat)
    requires i < |pts|
    ensures Accepted(declared, pts, i) <==> Settled(declared, pts[..i + 1]) == Some(pts[i])
  {
    GateIs(declared, pts[..i]);
    var upto := pts[..i + 1];
    assert upto[..|upto| - 1] == pts[..i];
    if i > 0 {
      assert pts[..i][0] == upto[0];
    }
  }
}
