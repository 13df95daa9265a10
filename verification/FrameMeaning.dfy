// What every frame of a built timeline shows, in terms of the log alone.

module FrameMeaning {
  import opened Wrappers
  import opened Domain
  import opened Projection
  import opened ReplayFrames
  import opened ReplayFold
  import opened ReplayFoldProofs
  import opened ReplayFoldMeaning
  import opened ReplayHands
  import opened FrameAuxiliary
  import opened FrameBuilder
  import opened RecordChecks

  /** A seat in a frame shows all of the folded seat. */
  predicate PlayerShows(p: VisiblePlayer, s: FoldState, k: nat)
    requires FoldFits(s) && k < s.mode.SeatCount()
  {
    && p.seat == k && p.participant == s.participants[k] && p.score == s.scores[k]
    && p.hand == Some(s.hands[k]) && p.concealedCount == |s.hands[k]| && p.discards == s.discards[k]
    && p.melds == s.melds[k] && p.riichi == s.riichi[k] && p.riichiDiscardIndex == s.riichiDiscardIndex[k]
  }

  predicate RoundShows(v: AudienceProjection, round: Option<RoundInfo>) {
    match round
    case None => v.round.None? && v.kyotaku.None?
    case Some(r) =>
      && v.round.Some? && v.kyotaku.Some? && v.kyotaku.value == r.kyotaku
      && v.round.value.round == r.round && v.round.value.kyoku == r.kyoku && v.round.value.dealer == r.dealer
      && v.round.value.honba == r.honba && v.round.value.remainingWall.None?
  }

  /** A view shows a folded state to the replay's reader, in full. */
  predicate ViewShows(v: AudienceProjection, s: FoldState)
    requires FoldFits(s)
  {
    && v.audience == ReplayAdmin && v.mode == s.mode && v.decision.None? && v.kyokuResults.None?
    && v.doraIndicators == s.doraIndicators && RoundShows(v, s.round)
    && |v.players| == s.mode.SeatCount()
    && forall k :: 0 <= k < |v.players| ==> PlayerShows(v.players[k], s, k)
  }

  lemma ProjectedShows(s: FoldState)
    requires FoldFits(s) && SticksFit(s) && ProjectionOf(s).Some?
    ensures ViewShows(ProjectionOf(s).value, s)
  {
    hide TableAllowed;
    var v := ProjectionOf(s).value;
    forall k | 0 <= k < |v.players|
      ensures PlayerShows(v.players[k], s, k)
    {
      ProjectedPlayerShows(s, k);
    }
  }

  lemma ProjectedPlayerShows(s: FoldState, k: nat)
    requires FoldFits(s) && k < s.mode.SeatCount()
    ensures PlayerShows(ViewPlayer(TableOf(s).players[k], ReplayAdmin), s, k)
  {
  }

  /** Frame `i` is the event there, with its side records, on the state folded up to and including it. */
  lemma {:induction false} FramesShowTheFold(mode: GameMode, log: seq<GameEvent>, aux: seq<AuxiliaryRecord>, i: nat)
    requires i < |log| <= MAX_REPLAY_EVENTS && FramesOf(mode, log, aux).Some?
    ensures Fold(mode, log[..i + 1]).Some?
    ensures var f := FramesOf(mode, log, aux).value[i];
      && f.eventIndex == i && f.visibleEvent == log[i] && f.auxiliaryEvents == AuxiliaryAt(aux, i)
      && f.result.None? && f.settlement.None? && ViewShows(f.visibleState, Fold(mode, log[..i + 1]).value)
    decreases |log|
  {
    hide FrameAfter, ViewShows, Fold, AuxiliaryAt;
    var last := |log| - 1;
    if i == last {
      assert log[..i + 1] == log;
      LastFrameShows(mode, log, aux);
    } else {
      assert log[..last][..i + 1] == log[..i + 1];
      FramesShowTheFold(mode, log[..last], aux, i);
    }
  }

  lemma LastFrameShows(mode: GameMode, log: seq<GameEvent>, aux: seq<AuxiliaryRecord>)
    requires 0 < |log| <= MAX_REPLAY_EVENTS && FrameAfter(mode, log, aux).Some?
    ensures Fold(mode, log).Some?
    ensures var f := FrameAfter(mode, log, aux).value;
      && f.eventIndex == |log| - 1 && f.visibleEvent == log[|log| - 1]
      && f.auxiliaryEvents == AuxiliaryAt(aux, |log| - 1)
      && f.result.None? && f.settlement.None? && ViewShows(f.visibleState, Fold(mode, log).value)
  {
    hide Fold, ViewShows, AuxiliaryAt, ProjectionOf;
    SticksAreBounded(mode, log);
    ProjectedShows(Fold(mode, log).value);
  }

  /** Seat `k` as frame `i` of a hand shows it. */
  predicate SeatInFrame(p: VisiblePlayer, log: seq<GameEvent>, start: nat, i: nat, k: nat)
    requires start <= i < |log| && log[start].StartKyoku? && k < 4
    requires k < |ScoresShown(log, start, i + 1)| && k < |log[start].startHands|
  {
    && p.seat == k && p.participant.displayName == NameRead(log, i + 1, k)
    && p.score == ScoresShown(log, start, i + 1)[k]
    && p.hand == Some(HandRead(log, start, i + 1, k)) && p.concealedCount == |HandRead(log, start, i + 1, k)|
    && p.discards == Discarded(log, start + 1, i + 1, k) && p.melds == MeldsRead(log, start, i + 1, k)
    && (p.riichi <==> Declared(log, start + 1, i + 1, k))
  }

  /**
   * Every frame of a hand shows the wind, number, dealer and honba the hand was dealt with, the
   * sticks on the table by then, the indicators turned over, and each seat's name, score, tiles,
   * discards, melds and riichi, all as the log up to that event says.
   */
  lemma FramesShowTheHand(mode: GameMode, log: seq<GameEvent>, aux: seq<AuxiliaryRecord>, start: nat, i: nat)
    requires i < |log| <= MAX_REPLAY_EVENTS && FramesOf(mode, log, aux).Some? && InOneHand(log, start, i + 1)
    ensures var v := FramesOf(mode, log, aux).value[i].visibleState;
      && v.mode == mode && v.round.Some? && v.kyotaku.Some?
      && v.round.value.round == log[start].bakaze && v.round.value.kyoku == log[start].kyoku
      && v.round.value.dealer == log[start].oya && v.round.value.honba == log[start].honba
      && v.kyotaku.value == SticksRead(log, start, i + 1)
      && v.doraIndicators == [log[start].doraMarker] + Indicators(log, start + 1, i + 1)
      && |v.players| == |log[start].startHands| == |ScoresShown(log, start, i + 1)| == mode.SeatCount()
      && forall k :: 0 <= k < |v.players| ==> SeatInFrame(v.players[k], log, start, i, k)
  {
    hide FramesOf, Fold, NameRead, ScoresShown, HandRead, MeldsRead, Discarded, Declared, SticksRead, Indicators;
    var v := FramesOf(mode, log, aux).value[i].visibleState;
    FramesShowTheFold(mode, log, aux, i);
    FoldShowsTheRound(mode, log, start, i + 1);
    FoldShowsTheHand(mode, log, start, i + 1);
    FoldShowsTiles(mode, log, start, i + 1, 0);
    forall k | 0 <= k < |v.players|
      ensures SeatInFrame(v.players[k], log, start, i, k)
    {
      FrameSeat(mode, log, start, i, k, v.players[k]);
    }
  }

  lemma FrameSeat(mode: GameMode, log: seq<GameEvent>, start: nat, i: nat, k: nat, p: VisiblePlayer)
    requires i < |log| && InOneHand(log, start, i + 1) && Fold(mode, log[..i + 1]).Some? && k < mode.SeatCount()
    requires PlayerShows(p, Fold(mode, log[..i + 1]).value, k)
    ensures k < |ScoresShown(log, start, i + 1)| && k < |log[start].startHands| && SeatInFrame(p, log, start, i, k)
  {
    hide Fold, NameRead, ScoresShown, HandRead, MeldsRead, Discarded, Declared;
    FoldShowsTheHand(mode, log, start, i + 1);
    assert SeatShows(Fold(mode, log[..i + 1]).value, log, start, i + 1, k);
    FoldShowsTiles(mode, log, start, i + 1, k);
    FoldShowsThePlayers(mode, log, i + 1, k);
  }

  // ----- Which logs have a timeline ---------------------------------------------------------------------

  /** Everything the table shows is a tile of the mode. */
  predicate TableInPlay(s: FoldState)
    requires FoldFits(s)
  {
    && AllInPlay(s.doraIndicators, s.mode)
    && forall i :: 0 <= i < s.mode.SeatCount() ==>
         && AllInPlay(s.hands[i], s.mode) && AllInPlay(s.discards[i], s.mode)
         && forall k :: 0 <= k < |s.melds[i]| ==> AllInPlay(s.melds[i][k].tiles, s.mode)
  }

  lemma TableInPlayIff(s: FoldState)
    requires FoldFits(s)
    ensures TableAllowed(s) <==> TableInPlay(s)
  {
    hide AllInPlay, TilesAllowed;
    AllInPlayIff(s.doraIndicators, s.mode);
    forall i | 0 <= i < s.mode.SeatCount()
      ensures TilesAllowed(s.hands[i], s.mode) <==> AllInPlay(s.hands[i], s.mode)
      ensures TilesAllowed(s.discards[i], s.mode) <==> AllInPlay(s.discards[i], s.mode)
      ensures forall k :: 0 <= k < |s.melds[i]| ==>
        (TilesAllowed(s.melds[i][k].tiles, s.mode) <==> AllInPlay(s.melds[i][k].tiles, s.mode))
    {
      AllInPlayIff(s.hands[i], s.mode);
      AllInPlayIff(s.discards[i], s.mode);
      forall k | 0 <= k < |s.melds[i]|
        ensures TilesAllowed(s.melds[i][k].tiles, s.mode) <==> AllInPlay(s.melds[i][k].tiles, s.mode)
      {
        AllInPlayIff(s.melds[i][k].tiles, s.mode);
      }
    }
  }

  /** The log folds up to and including event `i`, onto a table of the mode's tiles. */
  predicate ShowableAt(mode: GameMode, log: seq<GameEvent>, i: nat)
    requires i < |log|
  {
    Fold(mode, log[..i + 1]).Some? && TableInPlay(Fold(mode, log[..i + 1]).value)
  }

  /** A log has a timeline exactly when every beginning of it folds onto a table that can be shown. */
  lemma {:induction false} TimelineIff(mode: GameMode, log: seq<GameEvent>, aux: seq<AuxiliaryRecord>)
    requires |log| <= MAX_REPLAY_EVENTS
    ensures FramesOf(mode, log, aux).Some? <==> forall i :: 0 <= i < |log| ==> ShowableAt(mode, log, i)
  {
    hide FrameAfter, ShowableAt;
    if log != [] {
      var last := |log| - 1;
      TimelineIff(mode, log[..last], aux);
      forall i | 0 <= i < last
        ensures ShowableAt(mode, log[..last], i) <==> ShowableAt(mode, log, i)
      {
        SameBeginning(mode, log, i);
      }
      LastShowableIff(mode, log, aux);
    }
  }

  lemma SameBeginning(mode: GameMode, log: seq<GameEvent>, i: nat)
    requires i < |log| - 1
    ensures ShowableAt(mode, log[..|log| - 1], i) <==> ShowableAt(mode, log, i)
  {
    assert log[..|log| - 1][..i + 1] == log[..i + 1];
  }

  lemma LastShowableIff(mode: GameMode, log: seq<GameEvent>, aux: seq<AuxiliaryRecord>)
    requires 0 < |log| <= MAX_REPLAY_EVENTS
    ensures FrameAfter(mode, log, aux).Some? <==> ShowableAt(mode, log, |log| - 1)
  {
    hide Fold, TableInPlay, TableAllowed;
    assert log[..|log|] == log;
    if Fold(mode, log).Some? {
      SticksAreBounded(mode, log);
      TableInPlayIff(Fold(mode, log).value);
    }
  }

  /** The first deal to three or four seats tells how many play; a log without one is of no mode. */
  lemma InferredModeMeans(events: seq<GameEvent>)
    ensures InferMode(events).Some? <==>
      exists k :: 0 <= k < |events| && events[k].StartKyoku? && 3 <= |events[k].startScores| <= 4
    ensures InferMode(events).Some? ==>
      exists k :: 0 <= k < |events| && events[k].StartKyoku?
        && InferMode(events).value.SeatCount() == |events[k].startScores|
        && forall j :: 0 <= j < k && events[j].StartKyoku? ==> !(3 <= |events[j].startScores| <= 4)
  {
  }

  /** A log is admitted exactly when it is of as many seats as asked for and its events and side records pass. */
  lemma AdmissibleMeans(events: seq<GameEvent>, aux: seq<AuxiliaryRecord>, mode: GameMode, valid: EventCheck)
    ensures Admissible(events, aux, mode, valid) <==>
      && InferMode(events).Some? && InferMode(events).value.SeatCount() == mode.SeatCount()
      && (forall e <- events :: valid(e, mode)) && forall r <- aux :: r.lineIndex < |events|
  {
    hide InferMode;
    if forall e <- events :: valid(e, mode) {
      forall i | 0 <= i < |events|
        ensures valid(events[i], mode)
      {
        assert events[i] in events;
      }
    }
    if forall r <- aux :: r.lineIndex < |events| {
      forall i | 0 <= i < |aux|
        ensures aux[i].lineIndex < |events|
      {
        assert aux[i] in aux;
      }
    }
  }
}
