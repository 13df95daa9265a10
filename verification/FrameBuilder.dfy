// Building the replay timeline: fold the log, project every state, and stop as soon as the
// timeline's text would pass the size limit.

module FrameBuilder {
  import opened Wrappers
  import opened Sequences
  import opened Domain
  import opened Projection
  import opened ReplayFrames
  import opened ReplayFold
  import opened ReplayFoldProofs
  import opened ReplayMachine
  import opened FrameBytes
  import opened FrameAuxiliary

  /** Whether an event is well formed for a mode, as the log parser checks it. */
  type EventCheck = (GameEvent, GameMode) -> bool

  /** The mode a log seems to be of: its first deal to three or four seats decides. */
  function InferMode(events: seq<GameEvent>): Option<GameMode> {
    match First(events, (e: GameEvent) => e.StartKyoku? && (|e.startScores| == 3 || |e.startScores| == 4))
    case None => None
    case Some(k) => Some(if |events[k].startScores| == 3 then ThreePlayerRedEast else FourPlayerRedEast)
  }

  // ----- One state as the administrator sees it -----------------------------------------------

  predicate TableAllowed(s: FoldState)
    requires FoldFits(s)
  {
    && TilesAllowed(s.doraIndicators, s.mode)
    && forall i :: 0 <= i < s.mode.SeatCount() ==>
         && TilesAllowed(s.hands[i], s.mode) && TilesAllowed(s.discards[i], s.mode)
         && forall k :: 0 <= k < |s.melds[i]| ==> TilesAllowed(s.melds[i][k].tiles, s.mode)
  }

  function TableOf(s: FoldState): TableState
    requires FoldFits(s)
  {
    TableState(s.mode,
      seq(s.mode.SeatCount(), i requires 0 <= i < s.mode.SeatCount() =>
        TablePlayerState(i, s.participants[i], s.scores[i], s.hands[i], s.discards[i], s.melds[i], s.riichi[i],
                         s.riichiDiscardIndex[i])),
      s.doraIndicators, None, None, None)
  }

  /** The sticks shown stay within what the log can have put there. */
  predicate SticksFit(s: FoldState) { s.round.Some? ==> s.round.value.kyotaku < 0x1_0000_0000 }

  function ProjectionOf(s: FoldState): Option<AudienceProjection>
    requires FoldFits(s) && SticksFit(s)
  {
    if !TableAllowed(s) then None
    else
      var view := ProjectTable(TableOf(s), ReplayAdmin, 0);
      match s.round
      case None => Some(view)
      case Some(r) =>
        Some(view.(round := Some(RoundData(r.round, r.kyoku, r.dealer, r.honba, None)), kyotaku := Some(r.kyotaku)))
  }

  lemma StickCountGrowsByOne(s: FoldState, e: GameEvent, bound: nat)
    requires FoldFits(s) && ApplyEvent(s, e).Some? && bound >= 255
    requires s.round.Some? ==> s.round.value.kyotaku <= bound
    ensures var s1 := ApplyEvent(s, e).value; s1.round.Some? ==> s1.round.value.kyotaku <= bound + 1
  {
    hide FoldFits, RemoveTile, RemoveTiles, Without, ChiAccepted, SameTypeMeldAccepted, AddedKanTarget, NorthIn;
  }

  /** A log adds at most one stick per event to the 255 a deal can start with. */
  lemma {:induction false} SticksAreBounded(mode: GameMode, events: seq<GameEvent>)
    requires Fold(mode, events).Some?
    ensures var s := Fold(mode, events).value; s.round.Some? ==> s.round.value.kyotaku <= 255 + |events|
  {
    hide ApplyEvent, FoldFits;
    if events != [] {
      var rest := events[..|events| - 1];
      SticksAreBounded(mode, rest);
      StickCountGrowsByOne(Fold(mode, rest).value, events[|events| - 1], 255 + |rest|);
    }
  }

  // ----- The timeline ---------------------------------------------------------------------------

  /** The frame after the last event of a non-empty log. */
  function FrameAfter(mode: GameMode, events: seq<GameEvent>, aux: seq<AuxiliaryRecord>): Option<ReplayFrame>
    requires 0 < |events| <= MAX_REPLAY_EVENTS
  {
    var last := |events| - 1;
    if Fold(mode, events).None? then None
    else
      SticksAreBounded(mode, events);
      match ProjectionOf(Fold(mode, events).value)
      case None => None
      case Some(view) => Some(ReplayFrame(last, events[last], view, AuxiliaryAt(aux, last), None, None))
  }

  function FramesOf(mode: GameMode, events: seq<GameEvent>, aux: seq<AuxiliaryRecord>)
    : (r: Option<seq<ReplayFrame>>)
    requires |events| <= MAX_REPLAY_EVENTS
    ensures r.Some? ==> |r.value| == |events|
  {
    if events == [] then Some([])
    else
      match FramesOf(mode, events[..|events| - 1], aux)
      case None => None
      case Some(before) =>
        match FrameAfter(mode, events, aux)
        case None => None
        case Some(f) => Some(before + [f])
  }

  predicate Admissible(events: seq<GameEvent>, aux: seq<AuxiliaryRecord>, mode: GameMode, valid: EventCheck) {
    && InferMode(events).Some? && InferMode(events).value.SeatCount() == mode.SeatCount()
    && (forall i :: 0 <= i < |events| ==> valid(events[i], mode))
    && InRange(aux, |events|)
  }

  /** Some beginning of the timeline can be built but is too long to encode. */
  predicate SomePrefixTooLarge(mode: GameMode, events: seq<GameEvent>, aux: seq<AuxiliaryRecord>, chunking: Chunking)
    requires |events| <= MAX_REPLAY_EVENTS
  {
    exists i :: 0 <= i <= |events| && PrefixTooLarge(mode, events, aux, chunking, i)
  }

  predicate PrefixTooLarge(mode: GameMode, events: seq<GameEvent>, aux: seq<AuxiliaryRecord>, chunking: Chunking,
                           i: nat)
    requires i <= |events| <= MAX_REPLAY_EVENTS
  {
    var frames := FramesOf(mode, events[..i], aux);
    frames.Some? && !EncodeFits(frames.value, chunking)
  }

  lemma {:induction false} FramesOfPrefix(mode: GameMode, events: seq<GameEvent>, aux: seq<AuxiliaryRecord>, i: nat)
    requires i <= |events| <= MAX_REPLAY_EVENTS && FramesOf(mode, events, aux).Some?
    ensures FramesOf(mode, events[..i], aux) == Some(FramesOf(mode, events, aux).value[..i])
    decreases |events|
  {
    hide FrameAfter;
    if i == |events| {
      assert events[..i] == events;
      var frames := FramesOf(mode, events, aux).value;
      assert frames[..i] == frames;
    } else {
      assert events[..|events| - 1][..i] == events[..i];
      FramesOfPrefix(mode, events[..|events| - 1], aux, i);
      var before := FramesOf(mode, events[..|events| - 1], aux).value;
      assert FramesOf(mode, events, aux).value[..i] == before[..i];
    }
  }

  /** A timeline that fits has no beginning that does not. */
  lemma FittingHasNoLargePrefix(mode: GameMode, events: seq<GameEvent>, aux: seq<AuxiliaryRecord>, chunking: Chunking)
    requires |events| <= MAX_REPLAY_EVENTS && FramesOf(mode, events, aux).Some?
    ensures SomePrefixTooLarge(mode, events, aux, chunking)
      <==> !EncodeFits(FramesOf(mode, events, aux).value, chunking)
  {
    hide FramesOf;
    var frames := FramesOf(mode, events, aux).value;
    if exists i :: 0 <= i <= |events| && PrefixTooLarge(mode, events, aux, chunking, i) {
      var i :| 0 <= i <= |events| && PrefixTooLarge(mode, events, aux, chunking, i);
      FramesOfPrefix(mode, events, aux, i);
      EncodedSizeGrows(frames, SizeOf(chunking), i);
    }
    if !EncodeFits(frames, chunking) {
      assert events[..|events|] == events;
      assert PrefixTooLarge(mode, events, aux, chunking, |events|);
    }
  }

  lemma FailedHasNoLongerPrefix(mode: GameMode, events: seq<GameEvent>, aux: seq<AuxiliaryRecord>,
                                chunking: Chunking, k: nat)
    requires k < |events| <= MAX_REPLAY_EVENTS
    requires FramesOf(mode, events[..k], aux).Some? && FramesOf(mode, events[..k + 1], aux).None?
    requires EncodeFits(FramesOf(mode, events[..k], aux).value, chunking)
    ensures !SomePrefixTooLarge(mode, events, aux, chunking)
  {
    hide FramesOf, EncodeFits;
    if SomePrefixTooLarge(mode, events, aux, chunking) {
      var i :| 0 <= i <= |events| && PrefixTooLarge(mode, events, aux, chunking, i);
      if i > k {
        assert events[..i][..k + 1] == events[..k + 1];
        FramesOfPrefix(mode, events[..i], aux, k + 1);
      } else {
        assert events[..k][..i] == events[..i];
        assert PrefixTooLarge(mode, events[..k], aux, chunking, i);
        FittingHasNoLargePrefix(mode, events[..k], aux, chunking);
      }
    }
  }

  /** A frame is a JSON object: its text is at least the two braces. */
  ghost predicate WritesObjects(chunking: Chunking) { forall f :: |Flatten(chunking(f))| >= 2 }

  /** The whole timeline can be built and encoded. */
  predicate TimelineFits(mode: GameMode, events: seq<GameEvent>, aux: seq<AuxiliaryRecord>, chunking: Chunking)
    requires |events| <= MAX_REPLAY_EVENTS
  {
    FramesOf(mode, events, aux).Some? && EncodeFits(FramesOf(mode, events, aux).value, chunking)
  }

  lemma NextFold(mode: GameMode, events: seq<GameEvent>, i: nat)
    requires i < |events| && Fold(mode, events[..i]).Some?
    ensures Fold(mode, events[..i + 1]) == ApplyEvent(Fold(mode, events[..i]).value, events[i])
  {
    hide ApplyEvent, FoldFits;
    assert events[..i + 1][..i] == events[..i];
    if ApplyEvent(Fold(mode, events[..i]).value, events[i]).Some? {
      ApplyKeepsFit(Fold(mode, events[..i]).value, events[i]);
    }
  }

  /** One more event: the timeline grows by its frame, or cannot be built any further. */
  lemma NextFrames(mode: GameMode, events: seq<GameEvent>, aux: seq<AuxiliaryRecord>, i: nat)
    requires i < |events| <= MAX_REPLAY_EVENTS && FramesOf(mode, events[..i], aux).Some?
    ensures var frame := FrameAfter(mode, events[..i + 1], aux);
      FramesOf(mode, events[..i + 1], aux)
        == if frame.None? then None else Some(FramesOf(mode, events[..i], aux).value + [frame.value])
  {
    hide FrameAfter;
    assert events[..i + 1][..i] == events[..i];
  }

  lemma FailureIsFinal(mode: GameMode, events: seq<GameEvent>, aux: seq<AuxiliaryRecord>, k: nat)
    requires k <= |events| <= MAX_REPLAY_EVENTS && FramesOf(mode, events[..k], aux).None?
    ensures FramesOf(mode, events, aux).None?
  {
    hide FramesOf;
    if FramesOf(mode, events, aux).Some? { FramesOfPrefix(mode, events, aux, k); }
  }

  /** The text of one more frame passes what is left of the limit exactly when the whole list is too long. */
  method MeasureFrame(frames: seq<ReplayFrame>, frame: ReplayFrame, serializedSize: Usize, chunking: Chunking)
    returns (r: Result<Usize, ReplayError>)
    requires WritesObjects(chunking)
    requires serializedSize == EncodedSize(frames, SizeOf(chunking)) <= MAX_REPLAY_FRAME_BYTES
    ensures var total := EncodedSize(frames + [frame], SizeOf(chunking));
      if total <= MAX_REPLAY_FRAME_BYTES then r == Ok(total) else r == Err(ReplayTooLarge)
  {
    assert (frames + [frame])[..|frames|] == frames;
    var withSeparator := CheckedAddUsize(serializedSize, if frames == [] then 0 else 1);
    if withSeparator.None? { return Err(ReplayTooLarge); }
    var remaining: Usize :=
      if withSeparator.value > MAX_REPLAY_FRAME_BYTES then 0 else MAX_REPLAY_FRAME_BYTES - withSeparator.value;
    var frameSize := SerializedLen(chunking(frame), remaining);
    if frameSize.Err? { return frameSize; }
    var total := CheckedAddUsize(withSeparator.value, frameSize.value);
    return if total.None? then Err(ReplayTooLarge) else Ok(total.value);
  }

  method BuildChecked(events: seq<GameEvent>, aux: seq<AuxiliaryRecord>, byLine: map<nat, seq<AuxiliaryRecord>>,
                      mode: GameMode, chunking: Chunking) returns (r: Result<seq<ReplayFrame>, ReplayError>)
    requires |events| <= MAX_REPLAY_EVENTS && WritesObjects(chunking)
    requires forall k :: 0 <= k < |events| ==> AuxiliaryAt(aux, k) == if k in byLine then byLine[k] else []
    ensures r.Ok? <==> TimelineFits(mode, events, aux, chunking)
    ensures r.Ok? ==> r.value == FramesOf(mode, events, aux).value
    ensures r == Err(ReplayTooLarge) <==> SomePrefixTooLarge(mode, events, aux, chunking)
  {
    hide ApplyEvent, FoldFits, Fold, FramesOf, EncodedSize, AuxiliaryAt, ProjectionOf, SomePrefixTooLarge;
    var state := new ReplayState(mode);
    var frames: seq<ReplayFrame>, serializedSize: Usize := [], 2;
    EmptyTimeline(mode, events, aux, SizeOf(chunking));
    for i := 0 to |events|
      invariant Fold(mode, events[..i]) == Some(state.State())
      invariant FramesOf(mode, events[..i], aux) == Some(frames)
      invariant serializedSize == EncodedSize(frames, SizeOf(chunking)) <= MAX_REPLAY_FRAME_BYTES
    {
      NextFold(mode, events, i);
      NextFrames(mode, events, aux, i);
      var applied := state.Apply(events[i]);
      if applied.Err? {
        StopsHere(mode, events, aux, chunking, i);
        return Err(InvalidEvent);
      }
      SticksAreBounded(mode, events[..i + 1]);
      var view := ProjectState(state);
      if view.None? {
        StopsHere(mode, events, aux, chunking, i);
        return Err(InvalidEvent);
      }
      var frame := ReplayFrame(i, events[i], view.value, if i in byLine then byLine[i] else [], None, None);
      var measured := MeasureFrame(frames, frame, serializedSize, chunking);
      if measured.Err? {
        LargeFromHere(mode, events, aux, chunking, i + 1);
        return Err(ReplayTooLarge);
      }
      serializedSize := measured.value;
      frames := frames + [frame];
    }
    assert events[..|events|] == events;
    FittingHasNoLargePrefix(mode, events, aux, chunking);
    return Ok(frames);
  }

  /** Projects the state of a running fold. */
  method ProjectState(state: ReplayState) returns (r: Option<AudienceProjection>)
    requires FoldFits(state.State()) && SticksFit(state.State())
    ensures r == ProjectionOf(state.State())
  {
    var s := FoldState(state.mode, state.participants, state.scores, state.hands, state.discards, state.melds,
                       state.riichi, state.riichiPending, state.riichiDiscardIndex, state.doraIndicators,
                       state.kyokuActive, state.round);
    r := ProjectionOf(s);
  }

  lemma EmptyTimeline(mode: GameMode, events: seq<GameEvent>, aux: seq<AuxiliaryRecord>, size: ReplayFrame -> nat)
    ensures Fold(mode, events[..0]) == Some(NewState(mode))
    ensures FramesOf(mode, events[..0], aux) == Some([]) && EncodedSize([], size) == 2
  {
    assert events[..0] == [];
  }

  lemma StopsHere(mode: GameMode, events: seq<GameEvent>, aux: seq<AuxiliaryRecord>, chunking: Chunking, k: nat)
    requires k < |events| <= MAX_REPLAY_EVENTS
    requires FramesOf(mode, events[..k], aux).Some? && FramesOf(mode, events[..k + 1], aux).None?
    requires EncodeFits(FramesOf(mode, events[..k], aux).value, chunking)
    ensures !TimelineFits(mode, events, aux, chunking) && !SomePrefixTooLarge(mode, events, aux, chunking)
  {
    FailureIsFinal(mode, events, aux, k + 1);
    FailedHasNoLongerPrefix(mode, events, aux, chunking, k);
  }

  lemma LargeFromHere(mode: GameMode, events: seq<GameEvent>, aux: seq<AuxiliaryRecord>, chunking: Chunking, k: nat)
    requires k <= |events| <= MAX_REPLAY_EVENTS && PrefixTooLarge(mode, events, aux, chunking, k)
    ensures !TimelineFits(mode, events, aux, chunking) && SomePrefixTooLarge(mode, events, aux, chunking)
  {
    if FramesOf(mode, events, aux).Some? { FittingHasNoLargePrefix(mode, events, aux, chunking); }
  }

  /**
   * Builds the timeline. It is refused as too large exactly when encoding the frames built would
   * be, wherever the serializer cuts its writes; the frames it does build are those of the fold.
   */
  method BuildReplayFrames(events: seq<GameEvent>, aux: seq<AuxiliaryRecord>, mode: GameMode, valid: EventCheck,
                           chunking: Chunking) returns (r: Result<seq<ReplayFrame>, ReplayError>)
    requires WritesObjects(chunking)
    ensures |events| > MAX_REPLAY_EVENTS || |aux| > MAX_REPLAY_EVENTS ==> r == Err(ReplayTooLarge)
    ensures |events| <= MAX_REPLAY_EVENTS && |aux| <= MAX_REPLAY_EVENTS ==>
      && (r.Ok? <==> (Admissible(events, aux, mode, valid) && TimelineFits(mode, events, aux, chunking)))
      && (r.Ok? ==> r.value == FramesOf(mode, events, aux).value)
      && (r == Err(ReplayTooLarge) <==>
          (Admissible(events, aux, mode, valid) && SomePrefixTooLarge(mode, events, aux, chunking)))
  {
    if |events| > MAX_REPLAY_EVENTS || |aux| > MAX_REPLAY_EVENTS { return Err(ReplayTooLarge); }
    var inferred := InferMode(events);
    if inferred.None? || inferred.value.SeatCount() != mode.SeatCount() { return Err(InvalidEvent); }
    if exists i :: 0 <= i < |events| && !valid(events[i], mode) { return Err(InvalidEvent); }
    var byLine := GroupAuxiliary(aux, |events|);
    if byLine.None? { return Err(InvalidEvent); }
    r := BuildChecked(events, aux, byLine.value, mode, chunking);
  }
}
