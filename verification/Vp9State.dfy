/**
The VP9 state that frames inherit (vp9.c): loop-filter deltas and segmentation features, updated by some frames,
reset by others, and emitted with every frame.
*/
module Vp9State {
  import opened Arithmetic
  import opened Options
  import opened BitSyntax
  import opened Vp9Header
  import Vp9LayoutExact
  import Vp9Parser

  const REF_DELTAS := 4
  const MODE_DELTAS := 2
  const SEGMENTS := 8

  const DEFAULT_REF_DELTAS: seq<int> := [1, 0, -1, -1]
  const DEFAULT_MODE_DELTAS: seq<int> := [0, 0]
  const NO_FEATURE := Feature(None, None, None, false)
  const NO_SEGMENTS := SegmentData(false, [NO_FEATURE, NO_FEATURE, NO_FEATURE, NO_FEATURE,
                                           NO_FEATURE, NO_FEATURE, NO_FEATURE, NO_FEATURE])

  datatype State = State(initialised: bool, refDeltas: seq<int>, modeDeltas: seq<int>, segments: SegmentData)

  /** A frame whose header check or parse fails is rejected; `resets` is key, intra-only or error-resilient. */
  datatype Frame = Rejected | Accepted(resets: bool, fields: HeaderFields)

  predicate Shaped(fields: HeaderFields)
  {
    && |fields.loopFilter.refDeltas| == REF_DELTAS && |fields.loopFilter.modeDeltas| == MODE_DELTAS
    && (fields.segmentation.Some? ==> |fields.segmentation.value.features| == SEGMENTS)
    && (!fields.loopFilter.deltaUpdated ==> fields.loopFilter.refDeltas == NO_DELTAS.refDeltas)
    && (!fields.loopFilter.deltaUpdated ==> fields.loopFilter.modeDeltas == NO_DELTAS.modeDeltas)
  }

  predicate ShapedFrame(f: Frame)
  {
    f.Accepted? ==> Shaped(f.fields)
  }

  lemma ParsedIsShaped(h: Header, r: Range)
    ensures Shaped(FieldsOf(h, r))
  {
  }

  function ResetState(): State
  {
    State(true, DEFAULT_REF_DELTAS, DEFAULT_MODE_DELTAS, NO_SEGMENTS)
  }

  function Updated(was: seq<int>, deltas: seq<Option<int>>): (r: seq<int>)
    requires |deltas| == |was|
    ensures |r| == |was| && forall i | 0 <= i < |r| :: r[i] == if deltas[i].Some? then deltas[i].value else was[i]
  {
    seq(|was|, i requires 0 <= i < |was| => if deltas[i].Some? then deltas[i].value else was[i])
  }

  predicate ShapedState(s: State)
  {
    |s.refDeltas| == REF_DELTAS && |s.modeDeltas| == MODE_DELTAS && |s.segments.features| == SEGMENTS
  }

  function Next(s: State, f: Frame): (t: State)
    requires ShapedState(s) && ShapedFrame(f)
    ensures ShapedState(t) && (f.Accepted? ==> t.initialised)
  {
    if f == Rejected then s
    else
      var base := if !s.initialised || f.resets then ResetState() else s;
      State(true, Updated(base.refDeltas, f.fields.loopFilter.refDeltas),
            Updated(base.modeDeltas, f.fields.loopFilter.modeDeltas),
            if f.fields.segmentation.Some? then f.fields.segmentation.value else base.segments)
  }

  // ----- the state as the driver keeps it

  /** struct vp9_persistent_state. */
  class PersistentState {
    var initialised: bool
    const lfRefDeltas: array<int>
    const lfModeDeltas: array<int>
    var segAbsOrDelta: bool
    const segFeat: array<Feature>

    ghost predicate Valid()
    {
      && lfRefDeltas.Length == REF_DELTAS && lfModeDeltas.Length == MODE_DELTAS && segFeat.Length == SEGMENTS
      && lfRefDeltas != lfModeDeltas
    }

    ghost function Value(): (s: State)
      requires Valid()
      reads this, lfRefDeltas, lfModeDeltas, segFeat
      ensures ShapedState(s)
    {
      State(initialised, lfRefDeltas[..], lfModeDeltas[..], SegmentData(segAbsOrDelta, segFeat[..]))
    }

    /** The zeroed state of a new context. */
    constructor ()
      ensures Valid() && !initialised && fresh(lfRefDeltas) && fresh(lfModeDeltas) && fresh(segFeat)
    {
      initialised := false;
      lfRefDeltas := new int[REF_DELTAS](_ => 0);
      lfModeDeltas := new int[MODE_DELTAS](_ => 0);
      segAbsOrDelta := false;
      segFeat := new Feature[SEGMENTS](_ => NO_FEATURE);
    }

    /** vp9_state_reset. */
    method Reset()
      requires Valid()
      modifies this, lfRefDeltas, lfModeDeltas, segFeat
      ensures Value() == ResetState()
      ensures lfRefDeltas[..] == [1, 0, -1, -1] && lfModeDeltas[..] == [0, 0] && !segAbsOrDelta
      ensures forall k | 0 <= k < 8 :: segFeat[k] == Feature(None, None, None, false)
    {
      forall i | 0 <= i < REF_DELTAS {
        lfRefDeltas[i] := DEFAULT_REF_DELTAS[i];
      }
      forall i | 0 <= i < MODE_DELTAS {
        lfModeDeltas[i] := DEFAULT_MODE_DELTAS[i];
      }
      segAbsOrDelta := false;
      var i := 0;
      while i < SEGMENTS
        invariant 0 <= i <= SEGMENTS
        invariant forall k | 0 <= k < i :: segFeat[k] == NO_FEATURE
        invariant lfRefDeltas[..] == DEFAULT_REF_DELTAS && lfModeDeltas[..] == DEFAULT_MODE_DELTAS && !segAbsOrDelta
      {
        segFeat[i] := NO_FEATURE;
        i := i + 1;
      }
      initialised := true;
    }

    /** One of the update loops of fill_loop_filter. */
    method Update(to: array<int>, deltas: seq<Option<int>>)
      requires to.Length == |deltas|
      modifies to
      ensures to[..] == Updated(old(to[..]), deltas)
    {
      var i := 0;
      while i < to.Length
        invariant 0 <= i <= to.Length
        invariant forall k | 0 <= k < to.Length ::
          to[k] == if k < i && deltas[k].Some? then deltas[k].value else old(to[k])
      {
        if deltas[i].Some? {
          to[i] := deltas[i].value;
        }
        i := i + 1;
      }
    }

    /** fill_loop_filter: the deltas it emits. */
    method FillLoopFilter(parsed: LoopFilter) returns (refDeltas: seq<int>, modeDeltas: seq<int>)
      requires Valid() && |parsed.refDeltas| == REF_DELTAS && |parsed.modeDeltas| == MODE_DELTAS
      requires !parsed.deltaUpdated ==>
        parsed.refDeltas == NO_DELTAS.refDeltas && parsed.modeDeltas == NO_DELTAS.modeDeltas
      modifies lfRefDeltas, lfModeDeltas
      ensures lfRefDeltas[..] == refDeltas == Updated(old(lfRefDeltas[..]), parsed.refDeltas)
      ensures lfModeDeltas[..] == modeDeltas == Updated(old(lfModeDeltas[..]), parsed.modeDeltas)
    {
      if parsed.deltaUpdated {
        Update(lfRefDeltas, parsed.refDeltas);
        Update(lfModeDeltas, parsed.modeDeltas);
      }
      refDeltas, modeDeltas := lfRefDeltas[..], lfModeDeltas[..];
    }

    /** fill_segmentation: the features it emits. */
    method FillSegmentation(parsed: Option<SegmentData>) returns (segments: SegmentData)
      requires Valid() && (parsed.Some? ==> |parsed.value.features| == SEGMENTS)
      modifies this`segAbsOrDelta, segFeat
      ensures segments == SegmentData(segAbsOrDelta, segFeat[..])
      ensures segments == if parsed.Some? then parsed.value else SegmentData(old(segAbsOrDelta), old(segFeat[..]))
    {
      if parsed.Some? {
        segAbsOrDelta := parsed.value.absolute;
        var i := 0;
        while i < SEGMENTS
          invariant 0 <= i <= SEGMENTS && segAbsOrDelta == parsed.value.absolute
          invariant forall k | 0 <= k < i :: segFeat[k] == parsed.value.features[k]
        {
          segFeat[i] := parsed.value.features[i];
          i := i + 1;
        }
      }
      segments := SegmentData(segAbsOrDelta, segFeat[..]);
    }

    /**
    fill_vp9_frame, as far as it concerns the state; `matches` is its check of profile, depth and size, `resets`
    whether the client says key, intra-only or error-resilient.
    */
    method FillFrame(matches: bool, resets: bool, buffer: array?<byte>, size: nat, frameWidth: nat)
      returns (ok: bool, refDeltas: seq<int>, modeDeltas: seq<int>, segments: SegmentData)
      requires Valid() && (buffer != null ==> size <= buffer.Length)
      modifies this, lfRefDeltas, lfModeDeltas, segFeat
      ensures forall r | IsTileRange(frameWidth, r) ::
        var f := FrameOf(matches, resets, if buffer == null then None else Some(BitsOf(old(buffer[..size]))), r);
        ok == f.Accepted? && Value() == Next(old(Value()), f)
      ensures ok ==> refDeltas == lfRefDeltas[..] && modeDeltas == lfModeDeltas[..]
      ensures ok ==> segments == SegmentData(segAbsOrDelta, segFeat[..])
    {
      hide IsTileRange, ParseHeader, FieldsOf, BitsOf, Vp9LayoutExact.Decided;
      ok, refDeltas, modeDeltas, segments := false, [], [], NO_SEGMENTS;
      if !matches {
        return;
      }
      var rc, parsed := Vp9Parser.ParseUncompressedHeader(buffer, size, frameWidth);
      if rc < 0 {
        return;
      }
      ghost var r :| IsTileRange(frameWidth, r);
      ParsedIsShaped(ParseHeader(BitsOf(buffer[..size]), r).value.header, r);
      if !initialised || resets {
        Reset();
      }
      refDeltas, modeDeltas := FillLoopFilter(parsed.loopFilter);
      segments := FillSegmentation(parsed.segmentation);
      ok := true;
    }
  }

  function FrameOf(matches: bool, resets: bool, bits: Option<seq<bool>>, r: Range): (f: Frame)
    ensures ShapedFrame(f)
  {
    if !matches || bits == None || ParseHeader(bits.value, r) == None then Rejected
    else
      var h := ParseHeader(bits.value, r).value.header;
      ParsedIsShaped(h, r);
      Accepted(resets, FieldsOf(h, r))
  }

  // ----- what a frame inherits

  function After(s: State, frames: seq<Frame>): (t: State)
    requires ShapedState(s) && forall i | 0 <= i < |frames| :: ShapedFrame(frames[i])
    ensures ShapedState(t)
    decreases |frames|
  {
    if frames == [] then s else Next(After(s, frames[..|frames| - 1]), frames[|frames| - 1])
  }

  /** Frame k resets the state: every accepted frame that says so, and the first one accepted. */
  ghost predicate Resets(frames: seq<Frame>, k: int)
    requires 0 <= k < |frames|
  {
    frames[k].Accepted? && (frames[k].resets || forall j | 0 <= j < k :: frames[j] == Rejected)
  }

  /** What is inherited: each delta by itself, the segmentation as a whole. */
  datatype Item = RefDelta(i: nat) | ModeDelta(i: nat) | Segments

  datatype Content = Delta(x: int) | Features(data: SegmentData)

  predicate IsItem(item: Item)
  {
    match item
    case RefDelta(i) => i < REF_DELTAS
    case ModeDelta(i) => i < MODE_DELTAS
    case Segments => true
  }

  /** A frame's explicit update of an item. */
  function Says(f: Frame, item: Item): Option<Content>
    requires IsItem(item) && ShapedFrame(f)
  {
    if f == Rejected then None
    else
      match item
      case RefDelta(i) =>
        if f.fields.loopFilter.refDeltas[i].Some? then Some(Delta(f.fields.loopFilter.refDeltas[i].value)) else None
      case ModeDelta(i) =>
        if f.fields.loopFilter.modeDeltas[i].Some? then Some(Delta(f.fields.loopFilter.modeDeltas[i].value)) else None
      case Segments =>
        if f.fields.segmentation.Some? then Some(Features(f.fields.segmentation.value)) else None
  }

  function Held(s: State, item: Item): Content
    requires IsItem(item) && ShapedState(s)
  {
    match item
    case RefDelta(i) => Delta(s.refDeltas[i])
    case ModeDelta(i) => Delta(s.modeDeltas[i])
    case Segments => Features(s.segments)
  }

  function Default(item: Item): Content
    requires IsItem(item)
  {
    match item
    case RefDelta(i) => Delta(DEFAULT_REF_DELTAS[i])
    case ModeDelta(i) => Delta(DEFAULT_MODE_DELTAS[i])
    case Segments => Features(NO_SEGMENTS)
  }

  /** The defaults of the VP9 bitstream specification: 1, 0, -1 and -1 for the references, and no feature. */
  lemma DefaultsExact()
    ensures Default(RefDelta(0)) == Delta(1) && Default(RefDelta(1)) == Delta(0)
    ensures Default(RefDelta(2)) == Delta(-1) == Default(RefDelta(3))
    ensures Default(ModeDelta(0)) == Delta(0) == Default(ModeDelta(1))
    ensures Default(Segments) == Features(SegmentData(false, seq(8, _ => Feature(None, None, None, false))))
  {
    assert NO_SEGMENTS.features == seq(8, _ => Feature(None, None, None, false));
  }

  predicate AllShaped(frames: seq<Frame>)
  {
    forall i | 0 <= i < |frames| :: ShapedFrame(frames[i])
  }

  /** Frame k is the last that updates the item, and no later frame resets. */
  ghost predicate Governs(frames: seq<Frame>, item: Item, k: int)
    requires IsItem(item) && AllShaped(frames)
  {
    && 0 <= k < |frames| && Says(frames[k], item).Some?
    && forall j | k < j < |frames| :: Says(frames[j], item) == None && !Resets(frames, j)
  }

  ghost predicate SomeAccepted(frames: seq<Frame>)
  {
    exists k :: 0 <= k < |frames| && frames[k].Accepted?
  }

  lemma NextHolds(s: State, f: Frame, item: Item)
    requires ShapedState(s) && ShapedFrame(f) && IsItem(item)
    ensures Held(Next(s, f), item) ==
      if f == Rejected then Held(s, item)
      else if Says(f, item).Some? then Says(f, item).value
      else if !s.initialised || f.resets then Default(item)
      else Held(s, item)
  {
  }

  lemma {:induction false} InitialisedByFirst(s: State, frames: seq<Frame>)
    requires ShapedState(s) && !s.initialised && AllShaped(frames)
    ensures After(s, frames).initialised <==> SomeAccepted(frames)
    decreases |frames|
  {
    if frames != [] {
      var front := frames[..|frames| - 1];
      InitialisedByFirst(s, front);
      assert forall k | 0 <= k < |front| :: front[k] == frames[k];
      if SomeAccepted(frames) && !SomeAccepted(front) {
        assert frames[|frames| - 1].Accepted?;
      }
    }
  }

  lemma FrontGoverns(frames: seq<Frame>, item: Item, k: int)
    requires IsItem(item) && AllShaped(frames) && frames != []
    requires var n := |frames| - 1; Says(frames[n], item) == None && !Resets(frames, n)
    ensures AllShaped(frames[..|frames| - 1])
    ensures Governs(frames, item, k) <==> Governs(frames[..|frames| - 1], item, k)
  {
  }

  /**
  The main result: once a frame was accepted, what the driver emits for an item is the last explicit update since the
  last reset, that frame's own updates included, or the default if there was none.
  */
  lemma {:induction false} EmittedIsLastUpdate(s: State, frames: seq<Frame>, item: Item)
    requires ShapedState(s) && !s.initialised && AllShaped(frames) && IsItem(item) && SomeAccepted(frames)
    ensures forall k | Governs(frames, item, k) :: Held(After(s, frames), item) == Says(frames[k], item).value
    ensures (forall k :: !Governs(frames, item, k)) ==> Held(After(s, frames), item) == Default(item)
    decreases |frames|
  {
    hide Next, Held, Says, Default;
    var n := |frames| - 1;
    var front, f := frames[..n], frames[n];
    InitialisedByFirst(s, front);
    NextHolds(After(s, front), f, item);
    RejectedSaysNothing(item);
    if Says(f, item).Some? {
      LastGoverns(frames, item);
      assert Governs(frames, item, n);
    } else if Resets(frames, n) {
      ResetsFresh(s, frames);
      NoneGoverns(frames, item);
    } else {
      ResetsFresh(s, frames);
      forall k
        ensures Governs(frames, item, k) <==> Governs(front, item, k)
      {
        FrontGoverns(frames, item, k);
      }
      EmittedIsLastUpdate(s, front, item);
    }
  }

  lemma RejectedSaysNothing(item: Item)
    requires IsItem(item)
    ensures Says(Rejected, item) == None
  {
  }

  lemma LastGoverns(frames: seq<Frame>, item: Item)
    requires IsItem(item) && AllShaped(frames) && frames != [] && Says(frames[|frames| - 1], item).Some?
    ensures forall k :: Governs(frames, item, k) <==> k == |frames| - 1
  {
  }

  lemma NoneGoverns(frames: seq<Frame>, item: Item)
    requires IsItem(item) && AllShaped(frames) && frames != []
    requires Says(frames[|frames| - 1], item) == None && Resets(frames, |frames| - 1)
    ensures forall k :: !Governs(frames, item, k)
  {
  }

  /** The driver resets on a frame exactly when the frame resets, or is the first accepted. */
  lemma ResetsFresh(s: State, frames: seq<Frame>)
    requires ShapedState(s) && !s.initialised && AllShaped(frames) && frames != []
    ensures var n := |frames| - 1;
      Resets(frames, n) <==> frames[n].Accepted? && (frames[n].resets || !After(s, frames[..n]).initialised)
    ensures var n := |frames| - 1; SomeAccepted(frames) && !Resets(frames, n) ==> SomeAccepted(frames[..n])
  {
    var n := |frames| - 1;
    var front := frames[..n];
    InitialisedByFirst(s, front);
    assert forall k | 0 <= k < n :: front[k] == frames[k];
    if SomeAccepted(front) {
      var k :| 0 <= k < |front| && front[k].Accepted?;
      assert frames[k] != Rejected;
    } else {
      forall j | 0 <= j < n
        ensures frames[j] == Rejected
      {
        assert !front[j].Accepted?;
      }
    }
  }
}
