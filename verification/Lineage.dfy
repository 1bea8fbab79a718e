/** Lineages of sealed segments: a path of a fork tree that composes (crates/dh-inputlog/src/splice.rs). */
module Lineage {
  import opened Common
  import opened Bytes
  import opened LogHeader
  import opened LogReader

  datatype SpliceError =
    | NoSegments
    | BadSegment(index: nat, error: ReadError)
    | BrokenStitch(index: nat)
    | MissingEndSnapshot(index: nat)
    | ConfigMismatch(index: nat)
    | ClockMismatch(index: nat)

  /** The reader, as a function of the bytes. */
  type Parser = bytes -> Result<Header, ReadError>

  predicate SameClock(a: Header, b: Header)
  {
    a.clockNum == b.clockNum && a.clockDen == b.clockDen
  }

  /** Header `i` is of the same machine as the first. */
  predicate Machine(hs: seq<Header>, i: nat)
    requires i < |hs|
  {
    hs[i].configHash == hs[0].configHash && SameClock(hs[i], hs[0])
  }

  /** Segment `i` ends in the snapshot that the next one starts from. */
  predicate Stitched(hs: seq<Header>, i: nat)
    requires i + 1 < |hs|
  {
    hs[i].endSnapshot != Zeros(32) && hs[i].endSnapshot == hs[i + 1].baseSnapshot
  }

  /** The headers of these segments, which make up a lineage. */
  ghost predicate IsLineage(parse: Parser, segments: seq<bytes>, hs: seq<Header>)
  {
    && |hs| == |segments| > 0
    && (forall i :: 0 <= i < |hs| ==> parse(segments[i]) == Ok(hs[i]))
    && (forall i :: 0 <= i < |hs| ==> Machine(hs, i))
    && (forall i :: 0 <= i < |hs| - 1 ==> Stitched(hs, i))
  }

  /** What is wrong with the machine of header `i`, if anything. */
  function MachineError(hs: seq<Header>, i: nat): Option<SpliceError>
    requires i < |hs|
  {
    if hs[i].configHash != hs[0].configHash then Some(ConfigMismatch(i))
    else if !SameClock(hs[i], hs[0]) then Some(ClockMismatch(i))
    else None
  }

  function StitchError(hs: seq<Header>, i: nat): Option<SpliceError>
    requires i + 1 < |hs|
  {
    if hs[i].endSnapshot == Zeros(32) then Some(MissingEndSnapshot(i))
    else if hs[i].endSnapshot != hs[i + 1].baseSnapshot then Some(BrokenStitch(i))
    else None
  }

  /** Why these segments are no lineage: the first that does not parse; else the first of another machine;
      else the first bad stitch. */
  ghost predicate Faulty(parse: Parser, segments: seq<bytes>, e: SpliceError)
  {
    if segments == [] then e == NoSegments
    else if exists i :: 0 <= i < |segments| && parse(segments[i]).Err? then
      exists i :: 0 <= i < |segments| && parse(segments[i]).Err? && e == BadSegment(i, parse(segments[i]).error)
                  && forall j :: 0 <= j < i ==> parse(segments[j]).Ok?
    else FaultyHeaders(Parsed(parse, segments), e)
  }

  ghost predicate FaultyHeaders(hs: seq<Header>, e: SpliceError)
  {
    if exists i :: 0 <= i < |hs| && !Machine(hs, i) then
      exists i :: 0 <= i < |hs| && MachineError(hs, i) == Some(e) && forall j :: 0 <= j < i ==> Machine(hs, j)
    else
      exists i :: 0 <= i < |hs| - 1 && StitchError(hs, i) == Some(e) && forall j :: 0 <= j < i ==> Stitched(hs, j)
  }

  function Parsed(parse: Parser, segments: seq<bytes>): (hs: seq<Header>)
    requires forall i :: 0 <= i < |segments| ==> parse(segments[i]).Ok?
  {
    seq(|segments|, i requires 0 <= i < |segments| => parse(segments[i]).value)
  }

  /** `Lineage::new` */
  method New(parse: Parser, segments: seq<bytes>) returns (r: Result<seq<Header>, SpliceError>)
    ensures r.Ok? ==> IsLineage(parse, segments, r.value)
    ensures r.Err? ==> Faulty(parse, segments, r.error)
  {
    if segments == [] { return Err(NoSegments); }
    var hs: seq<Header> := [];
    for i := 0 to |segments|
      invariant |hs| == i && forall j :: 0 <= j < i ==> parse(segments[j]) == Ok(hs[j])
    {
      var p := parse(segments[i]);
      if p.Err? { return Err(BadSegment(i, p.error)); }
      hs := hs + [p.value];
    }
    assert hs == Parsed(parse, segments);
    for i := 0 to |hs|
      invariant forall j :: 0 <= j < i ==> Machine(hs, j)
    {
      var e := MachineError(hs, i);
      if e.Some? {
        assert !Machine(hs, i);
        return Err(e.value);
      }
    }
    for i := 0 to |hs| - 1
      invariant forall j :: 0 <= j < i ==> Stitched(hs, j)
    {
      var e := StitchError(hs, i);
      if e.Some? { return Err(e.value); }
    }
    return Ok(hs);
  }

  /** `Lineage::extend`: one more segment, checked against the first and the last only. */
  method Extend(parse: Parser, hs: seq<Header>, child: bytes) returns (r: Result<seq<Header>, SpliceError>)
    requires |hs| > 0
    ensures var p := parse(child);
            if p.Err? then r == Err(BadSegment(|hs|, p.error))
            else var all := hs + [p.value];
                 var e := if MachineError(all, |hs|).Some? then MachineError(all, |hs|) else StitchError(all, |hs| - 1);
                 r == if e.Some? then Err(e.value) else Ok(all)
  {
    var index := |hs|;
    var p := parse(child);
    if p.Err? { return Err(BadSegment(index, p.error)); }
    var h := p.value;
    if h.configHash != hs[0].configHash { return Err(ConfigMismatch(index)); }
    if h.clockNum != hs[0].clockNum || h.clockDen != hs[0].clockDen { return Err(ClockMismatch(index)); }
    if hs[index - 1].endSnapshot == Zeros(32) { return Err(MissingEndSnapshot(index - 1)); }
    if hs[index - 1].endSnapshot != h.baseSnapshot { return Err(BrokenStitch(index - 1)); }
    return Ok(hs + [h]);
  }

  /** The verdict on segments leaves no choice. */
  lemma VerdictUnique(parse: Parser, segments: seq<bytes>, e: SpliceError, f: SpliceError)
    requires Faulty(parse, segments, e) && Faulty(parse, segments, f)
    ensures e == f
  {
    if segments != [] && forall i :: 0 <= i < |segments| ==> parse(segments[i]).Ok? {
      HeadersUnique(Parsed(parse, segments), e, f);
    }
  }

  lemma MachineUnique(hs: seq<Header>, e: SpliceError, f: SpliceError)
    requires exists i :: 0 <= i < |hs| && !Machine(hs, i)
    requires FaultyHeaders(hs, e) && FaultyHeaders(hs, f)
    ensures e == f
  {
    var i :| 0 <= i < |hs| && MachineError(hs, i) == Some(e) && forall j :: 0 <= j < i ==> Machine(hs, j);
    var k :| 0 <= k < |hs| && MachineError(hs, k) == Some(f) && forall j :: 0 <= j < k ==> Machine(hs, j);
    assert !Machine(hs, i) && !Machine(hs, k);
  }

  lemma StitchUnique(hs: seq<Header>, e: SpliceError, f: SpliceError)
    requires !(exists i :: 0 <= i < |hs| && !Machine(hs, i))
    requires FaultyHeaders(hs, e) && FaultyHeaders(hs, f)
    ensures e == f
  {
    var i :| 0 <= i < |hs| - 1 && StitchError(hs, i) == Some(e) && forall j :: 0 <= j < i ==> Stitched(hs, j);
    var k :| 0 <= k < |hs| - 1 && StitchError(hs, k) == Some(f) && forall j :: 0 <= j < k ==> Stitched(hs, j);
    assert !Stitched(hs, i) && !Stitched(hs, k);
  }

  lemma HeadersUnique(hs: seq<Header>, e: SpliceError, f: SpliceError)
    requires FaultyHeaders(hs, e) && FaultyHeaders(hs, f)
    ensures e == f
  {
    if exists i :: 0 <= i < |hs| && !Machine(hs, i) {
      MachineUnique(hs, e, f);
    } else {
      StitchUnique(hs, e, f);
    }
  }

  lemma LineageIsNotFaulty(parse: Parser, segments: seq<bytes>, hs: seq<Header>, e: SpliceError)
    requires IsLineage(parse, segments, hs)
    ensures !Faulty(parse, segments, e)
  {
    assert hs == Parsed(parse, segments);
    forall i | 0 <= i < |hs| - 1 ensures StitchError(hs, i).None? { assert Stitched(hs, i); }
  }

  lemma ExtendedLineage(parse: Parser, prefix: seq<bytes>, hs: seq<Header>, child: bytes, h: Header)
    requires IsLineage(parse, prefix, hs) && parse(child) == Ok(h)
    requires MachineError(hs + [h], |hs|).None? && StitchError(hs + [h], |hs| - 1).None?
    ensures IsLineage(parse, prefix + [child], hs + [h])
  {
    var all := hs + [h];
    forall i | 0 <= i < |all| ensures Machine(all, i) {
      if i < |hs| { assert Machine(hs, i); }
    }
    forall i | 0 <= i < |all| - 1 ensures Stitched(all, i) {
      if i < |hs| - 1 { assert Stitched(hs, i); }
    }
  }

  lemma ExtendedFault(parse: Parser, prefix: seq<bytes>, hs: seq<Header>, child: bytes, e: SpliceError)
    requires IsLineage(parse, prefix, hs)
    requires parse(child).Err? ==> e == BadSegment(|hs|, parse(child).error)
    requires parse(child).Ok? ==>
               var all := hs + [parse(child).value];
               if MachineError(all, |hs|).Some? then MachineError(all, |hs|) == Some(e)
               else StitchError(all, |hs| - 1) == Some(e)
    ensures Faulty(parse, prefix + [child], e)
  {
    var segments, n := prefix + [child], |hs|;
    assert forall i :: 0 <= i < n ==> segments[i] == prefix[i];
    if parse(child).Ok? {
      var all := hs + [parse(child).value];
      assert all == Parsed(parse, segments);
      forall j | 0 <= j < n ensures Machine(all, j) { assert Machine(hs, j); }
      forall j | 0 <= j < n - 1 ensures Stitched(all, j) { assert Stitched(hs, j); }
      if MachineError(all, n).Some? {
        assert !Machine(all, n);
      } else {
        assert Machine(all, n);
        assert StitchError(all, n - 1) == Some(e);
      }
      assert FaultyHeaders(all, e);
    } else {
      assert segments[n] == child;
    }
  }

  /** Extending a validated prefix by a child and validating the whole from scratch come to the same: the
      same headers, or the same error at the same place. */
  method ExtendOrNew(parse: Parser, prefix: seq<bytes>, child: bytes)
    returns (valid: bool, x: Result<seq<Header>, SpliceError>, y: Result<seq<Header>, SpliceError>)
    ensures valid <==> exists hs :: IsLineage(parse, prefix, hs)
    ensures valid ==> x == y
  {
    var p := New(parse, prefix);
    y := New(parse, prefix + [child]);
    if p.Err? {
      forall hs | IsLineage(parse, prefix, hs) ensures false { LineageIsNotFaulty(parse, prefix, hs, p.error); }
      return false, y, y;
    }
    valid := true;
    x := Extend(parse, p.value, child);
    if x.Ok? {
      ExtendedLineage(parse, prefix, p.value, child, parse(child).value);
      if y.Err? { LineageIsNotFaulty(parse, prefix + [child], x.value, y.error); }
      assert y.Ok? ==> x.value == y.value;
    } else {
      ExtendedFault(parse, prefix, p.value, child, x.error);
      if y.Ok? {
        LineageIsNotFaulty(parse, prefix + [child], y.value, x.error);
      } else {
        VerdictUnique(parse, prefix + [child], x.error, y.error);
      }
    }
  }
}
