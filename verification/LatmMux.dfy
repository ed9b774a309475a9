/**
 The LATM StreamMuxConfig (ISO/IEC 14496-3): a bit-level parse that in-band elements start
 at any bit offset.  The specification reads from the front of a bit string, so what it
 says cannot depend on alignment; the code reads bytes at a moving bit position.
 */
module LatmMux {
  import opened Bits

  const MaxSubFrames: nat := 64

  datatype Option<+T> = None | Some(value: T)

  datatype Error = ConfigInvalid | UnsupportedMux | UnsupportedASC | NoConfig | Truncated | PayloadOverflow

  datatype Result<+T> = Ok(value: T) | Err(error: Error) {
    predicate IsFailure() { Err? }
    function PropagateFailure<U>(): Result<U> requires Err? { Err(error) }
    function Extract(): T requires Ok? { value }
  }

  // ---- the specification ---------------------------------------------------

  /** A field and the bits after it. */
  datatype Taken = Taken(v: nat, rest: seq<bit>)

  function Take(bits: seq<bit>, n: nat): Result<Taken>
  {
    if n > |bits| then Err(Truncated) else Ok(Taken(Value(bits[..n]), bits[n..]))
  }

  /** What an AudioSpecificConfig declares, and the bits after it. */
  datatype Asc = Asc(frameLength: nat, rest: seq<bit>)

  predicate SupportedObjectType(aot: nat) { aot in {1, 2, 3, 4, 6, 7} }

  function TakeObjectType(bits: seq<bit>): Result<Taken>
  {
    var a :- Take(bits, 5);
    if a.v != 31 then Ok(a) else
      var e :- Take(a.rest, 6);
      Ok(Taken(32 + e.v, e.rest))
  }

  function TakeSamplingFrequency(bits: seq<bit>): Result<Taken>
  {
    var f :- Take(bits, 4);
    if f.v == 15 then Take(f.rest, 24) else Ok(f)
  }

  /** frameLengthFlag, dependsOnCoreCoder with its delay, extensionFlag. */
  function TakeGASpecific(bits: seq<bit>): Result<Asc>
  {
    var flag :- Take(bits, 1);
    var dep :- Take(flag.rest, 1);
    var delay :- if dep.v == 1 then Take(dep.rest, 14) else Ok(dep);
    var ext :- Take(delay.rest, 1);
    if ext.v == 1 then Err(UnsupportedASC)
    else Ok(Asc(if flag.v == 1 then 960 else 1024, ext.rest))
  }

  function ParseASC(bits: seq<bit>): Result<Asc>
  {
    var aot :- TakeObjectType(bits);
    if !SupportedObjectType(aot.v) then Err(UnsupportedASC) else
      var sf :- TakeSamplingFrequency(aot.rest);
      var ch :- Take(sf.rest, 4);
      if ch.v == 0 then Err(UnsupportedASC) else TakeGASpecific(ch.rest)
  }

  /** otherDataLen groups: an escape bit and eight bits each, until the escape is clear. */
  function SkipOtherData(bits: seq<bit>): Result<seq<bit>>
    decreases |bits|
  {
    var esc :- Take(bits, 1);
    var len :- Take(esc.rest, 8);
    if esc.v == 0 then Ok(len.rest) else SkipOtherData(len.rest)
  }

  /** The fields before the AudioSpecificConfig: the number of subframes and the bits after them. */
  function TakePrefix(bits: seq<bit>): Result<Taken>
  {
    var version :- Take(bits, 1);
    if version.v != 0 then Err(UnsupportedMux) else
      var same :- Take(version.rest, 1);
      if same.v != 1 then Err(UnsupportedMux) else
        var sub :- Take(same.rest, 6);
        if sub.v + 1 > MaxSubFrames then Err(UnsupportedMux) else
          var program :- Take(sub.rest, 4);
          if program.v != 0 then Err(UnsupportedMux) else
            var layer :- Take(program.rest, 3);
            if layer.v != 0 then Err(UnsupportedMux) else Ok(Taken(sub.v, layer.rest))
  }

  /** The fields after the AudioSpecificConfig. */
  function TakeSuffix(bits: seq<bit>): Result<seq<bit>>
  {
    var lengthType :- Take(bits, 3);
    if lengthType.v != 0 then Err(UnsupportedMux) else
      var fullness :- Take(lengthType.rest, 8);
      var other :- Take(fullness.rest, 1);
      var rest :- if other.v == 1 then SkipOtherData(other.rest) else Ok(other.rest);
      var crc :- Take(rest, 1);
      if crc.v != 1 then Ok(crc.rest) else
        var sum :- Take(crc.rest, 8);
        Ok(sum.rest)
  }

  /** A StreamMuxConfig: mux parameters, AudioSpecificConfig bytes, and the bits after it. */
  datatype Mux = Mux(numSubFrames: nat, asc: seq<byte>, frameLength: nat)

  datatype Parsed = Parsed(mux: Mux, rest: seq<bit>)

  /** The bits `outer` holds in front of its suffix `rest`. */
  function Front(outer: seq<bit>, rest: seq<bit>): seq<bit>
  {
    if |rest| <= |outer| then outer[..|outer| - |rest|] else []
  }

  function ParseMux(bits: seq<bit>): (r: Result<Parsed>)
  {
    var pre :- TakePrefix(bits);
    var asc :- ParseASC(pre.rest);
    var rest :- TakeSuffix(asc.rest);
    Ok(Parsed(Mux(pre.v, Pack(Front(pre.rest, asc.rest)), asc.frameLength), rest))
  }

  // ---- more bits change nothing --------------------------------------------

  lemma TakeMore(bits: seq<bit>, n: nat, more: seq<bit>)
    requires Take(bits, n).Ok?
    ensures Take(bits + more, n) == Ok(Taken(Take(bits, n).value.v, Take(bits, n).value.rest + more))
  {
    assert (bits + more)[..n] == bits[..n] && (bits + more)[n..] == bits[n..] + more;
  }

  /** The same verdict, with the extra bits left over. */
  predicate Extends(r: Result<Taken>, r': Result<Taken>, more: seq<bit>)
  {
    r != Err(Truncated) ==>
      r' == if r.Err? then r else Ok(Taken(r.value.v, r.value.rest + more))
  }

  lemma ObjectTypeMore(bits: seq<bit>, more: seq<bit>)
    ensures Extends(TakeObjectType(bits), TakeObjectType(bits + more), more)
  {
    hide Take;
    if TakeObjectType(bits) != Err(Truncated) {
      OnlyTruncation(bits, 5);
      TakeMore(bits, 5, more);
      var a := Take(bits, 5).value;
      if a.v == 31 {
        OnlyTruncation(a.rest, 6);
        TakeMore(a.rest, 6, more);
      }
    }
  }

  lemma OnlyTruncation(bits: seq<bit>, n: nat)
    ensures Take(bits, n).Err? ==> Take(bits, n) == Err(Truncated)
  {
  }

  lemma SamplingMore(bits: seq<bit>, more: seq<bit>)
    ensures Extends(TakeSamplingFrequency(bits), TakeSamplingFrequency(bits + more), more)
  {
    hide Take;
    if TakeSamplingFrequency(bits) != Err(Truncated) {
      OnlyTruncation(bits, 4);
      TakeMore(bits, 4, more);
      var f := Take(bits, 4).value;
      if f.v == 15 {
        OnlyTruncation(f.rest, 24);
        TakeMore(f.rest, 24, more);
      }
    }
  }

  predicate AscExtends(r: Result<Asc>, r': Result<Asc>, more: seq<bit>)
  {
    r != Err(Truncated) ==>
      r' == if r.Err? then r else Ok(Asc(r.value.frameLength, r.value.rest + more))
  }

  lemma GASpecificMore(bits: seq<bit>, more: seq<bit>)
    ensures AscExtends(TakeGASpecific(bits), TakeGASpecific(bits + more), more)
  {
    hide Take;
    if TakeGASpecific(bits) != Err(Truncated) {
      OnlyTruncation(bits, 1);
      TakeMore(bits, 1, more);
      var flag := Take(bits, 1).value;
      OnlyTruncation(flag.rest, 1);
      TakeMore(flag.rest, 1, more);
      var dep := Take(flag.rest, 1).value;
      OnlyTruncation(dep.rest, 14);
      if dep.v == 1 {
        TakeMore(dep.rest, 14, more);
      }
      var delay := if dep.v == 1 then Take(dep.rest, 14).value else dep;
      OnlyTruncation(delay.rest, 1);
      TakeMore(delay.rest, 1, more);
    }
  }

  lemma AscMore(bits: seq<bit>, more: seq<bit>)
    ensures AscExtends(ParseASC(bits), ParseASC(bits + more), more)
  {
    hide Take, TakeObjectType, TakeSamplingFrequency, TakeGASpecific, SupportedObjectType;
    if ParseASC(bits) != Err(Truncated) {
      ObjectTypeMore(bits, more);
      if TakeObjectType(bits).Ok? {
        var aot := TakeObjectType(bits).value;
        if SupportedObjectType(aot.v) {
          SamplingMore(aot.rest, more);
          if TakeSamplingFrequency(aot.rest).Ok? {
            var sf := TakeSamplingFrequency(aot.rest).value;
            OnlyTruncation(sf.rest, 4);
            TakeMore(sf.rest, 4, more);
            GASpecificMore(Take(sf.rest, 4).value.rest, more);
          }
        }
      }
    }
  }

  lemma {:induction false} OtherDataMore(bits: seq<bit>, more: seq<bit>)
    ensures SkipOtherData(bits).Err? ==> SkipOtherData(bits) == Err(Truncated)
    ensures SkipOtherData(bits).Ok? ==> SkipOtherData(bits + more) == Ok(SkipOtherData(bits).value + more)
    decreases |bits|
  {
    if Take(bits, 1).Ok? {
      TakeMore(bits, 1, more);
      var esc := Take(bits, 1).value;
      if Take(esc.rest, 8).Ok? {
        TakeMore(esc.rest, 8, more);
        OtherDataMore(Take(esc.rest, 8).value.rest, more);
      }
    }
  }

  lemma PrefixMore(bits: seq<bit>, more: seq<bit>)
    ensures Extends(TakePrefix(bits), TakePrefix(bits + more), more)
  {
    hide Take;
    if TakePrefix(bits) != Err(Truncated) {
      OnlyTruncation(bits, 1);
      TakeMore(bits, 1, more);
      var version := Take(bits, 1).value;
      if version.v == 0 {
        OnlyTruncation(version.rest, 1);
        TakeMore(version.rest, 1, more);
        var same := Take(version.rest, 1).value;
        if same.v == 1 {
          OnlyTruncation(same.rest, 6);
          TakeMore(same.rest, 6, more);
          var sub := Take(same.rest, 6).value;
          if sub.v + 1 <= MaxSubFrames {
            OnlyTruncation(sub.rest, 4);
            TakeMore(sub.rest, 4, more);
            var program := Take(sub.rest, 4).value;
            if program.v == 0 {
              OnlyTruncation(program.rest, 3);
              TakeMore(program.rest, 3, more);
            }
          }
        }
      }
    }
  }

  lemma SuffixMore(bits: seq<bit>, more: seq<bit>)
    ensures TakeSuffix(bits) != Err(Truncated) ==>
              TakeSuffix(bits + more)
              == if TakeSuffix(bits).Err? then TakeSuffix(bits) else Ok(TakeSuffix(bits).value + more)
  {
    hide Take, SkipOtherData;
    if TakeSuffix(bits) != Err(Truncated) {
      OnlyTruncation(bits, 3);
      TakeMore(bits, 3, more);
      var lt := Take(bits, 3).value;
      if lt.v == 0 {
        OnlyTruncation(lt.rest, 8);
        TakeMore(lt.rest, 8, more);
        var full := Take(lt.rest, 8).value;
        OnlyTruncation(full.rest, 1);
        TakeMore(full.rest, 1, more);
        var other := Take(full.rest, 1).value;
        OtherDataMore(other.rest, more);
        var rest := if other.v == 1 then SkipOtherData(other.rest).value else other.rest;
        OnlyTruncation(rest, 1);
        TakeMore(rest, 1, more);
        var crc := Take(rest, 1).value;
        OnlyTruncation(crc.rest, 8);
        if crc.v == 1 {
          TakeMore(crc.rest, 8, more);
        }
      }
    }
  }

  lemma FrontMore(outer: seq<bit>, rest: seq<bit>, more: seq<bit>)
    ensures Front(outer + more, rest + more) == Front(outer, rest)
  {
  }

  /**
   Bits appended after a StreamMuxConfig change nothing: same parameters, same AudioSpecificConfig
   bytes, same number of bits consumed, or the same error unless it was truncation.
   */
  lemma MuxMore(bits: seq<bit>, more: seq<bit>)
    ensures ParseMux(bits) != Err(Truncated) ==>
              ParseMux(bits + more)
              == if ParseMux(bits).Err? then ParseMux(bits)
                 else Ok(Parsed(ParseMux(bits).value.mux, ParseMux(bits).value.rest + more))
  {
    hide TakePrefix, ParseASC, TakeSuffix, Front;
    if ParseMux(bits) != Err(Truncated) {
      PrefixMore(bits, more);
      if TakePrefix(bits).Ok? {
        var pre := TakePrefix(bits).value;
        AscMore(pre.rest, more);
        if ParseASC(pre.rest).Ok? {
          var asc := ParseASC(pre.rest).value;
          SuffixMore(asc.rest, more);
          FrontMore(pre.rest, asc.rest, more);
        }
      }
    }
  }
}
