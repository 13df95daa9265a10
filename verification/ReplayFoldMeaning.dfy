// What a folded table says about the hand in play, read off the log alone.

module ReplayFoldMeaning {
  import opened Wrappers
  import opened Checked
  import opened Domain
  import opened Projection
  import opened ReplayFold
  import opened ReplayFoldProofs

  predicate DiscardBy(e: GameEvent, i: nat) { e.Dahai? && e.actor == i }

  predicate ReachBy(e: GameEvent, i: nat) { e.Reach? && e.actor == i }

  predicate MeldBy(e: GameEvent, i: nat) { (e.OpenPon? || e.OpenChi? || e.OpenKan? || e.ClosedKan?) && e.actor == i }

  predicate DeclaredBy(e: GameEvent, i: nat) { (e.Reach? || e.ReachAccepted?) && e.actor == i }

  /** The tiles a seat discarded at positions [lo, hi), in order. */
  function Discarded(log: seq<GameEvent>, lo: nat, hi: nat, i: nat): seq<Tile>
    requires lo <= hi <= |log|
    decreases hi
  {
    if lo == hi then []
    else Discarded(log, lo, hi - 1, i) + if DiscardBy(log[hi - 1], i) then [log[hi - 1].discarded] else []
  }

  /** The indicators turned over at positions [lo, hi), in order. */
  function Indicators(log: seq<GameEvent>, lo: nat, hi: nat): seq<Tile>
    requires lo <= hi <= |log|
    decreases hi
  {
    if lo == hi then []
    else Indicators(log, lo, hi - 1) + if log[hi - 1].Dora? then [log[hi - 1].newMarker] else []
  }

  function MeldsBy(log: seq<GameEvent>, lo: nat, hi: nat, i: nat): nat
    requires lo <= hi <= |log|
    decreases hi
  {
    if lo == hi then 0 else MeldsBy(log, lo, hi - 1, i) + if MeldBy(log[hi - 1], i) then 1 else 0
  }

  /** The scores dealt with, or the last ones a hand end announced. */
  function ScoresShown(log: seq<GameEvent>, start: nat, hi: nat): seq<I32>
    requires start < hi <= |log| && log[start].StartKyoku?
    decreases hi
  {
    if hi == start + 1 then log[start].startScores
    else if IsTerminal(log[hi - 1]) && log[hi - 1].scores.Some? then log[hi - 1].scores.value
    else ScoresShown(log, start, hi - 1)
  }

  predicate Declared(log: seq<GameEvent>, lo: nat, hi: nat, i: nat)
    requires hi <= |log|
  {
    exists k :: lo <= k < hi && DeclaredBy(log[k], i)
  }

  predicate NoDiscard(log: seq<GameEvent>, lo: nat, hi: nat, i: nat)
    requires hi <= |log|
  {
    forall k :: lo <= k < hi ==> !DiscardBy(log[k], i)
  }

  /** The seat has declared and not discarded since. */
  predicate Waiting(log: seq<GameEvent>, start: nat, t: nat, i: nat)
    requires t <= |log|
  {
    exists r :: start < r < t && ReachBy(log[r], i) && NoDiscard(log, r + 1, t, i)
  }

  /** Discard number `k` of the hand, at position `d`, is the first one after a declaration. */
  predicate MarkedAt(log: seq<GameEvent>, start: nat, d: nat, i: nat, k: nat)
    requires start < d < |log|
  {
    DiscardBy(log[d], i) && Waiting(log, start, d, i) && |Discarded(log, start + 1, d, i)| == k
  }

  predicate Marked(log: seq<GameEvent>, start: nat, t: nat, i: nat, k: nat)
    requires t <= |log|
  {
    exists d :: start < d < t && MarkedAt(log, start, d, i, k)
  }

  // ----- One event --------------------------------------------------------------------------------

  /** What a discard, a meld and an added kan leave of the parts a table shows. */
  predicate Leaves(s: FoldState, s1: FoldState, i: nat, discards: seq<Tile>, melds: nat)
    requires FoldFits(s) && i < s.mode.SeatCount()
  {
    && FoldFits(s1) && s1.mode == s.mode && s1.riichi == s.riichi && s1.scores == s.scores
    && s1.doraIndicators == s.doraIndicators
    && s1.discards[i] == discards && |s1.melds[i]| == melds
  }

  predicate LeavesMarks(s: FoldState, s1: FoldState) {
    s1.riichiPending == s.riichiPending && s1.riichiDiscardIndex == s.riichiDiscardIndex
  }

  lemma DiscardLeaves(s: FoldState, actor: Seat, tile: Tile, i: nat)
    requires FoldFits(s) && actor < s.mode.SeatCount() && i < s.mode.SeatCount() && DiscardTile(s, actor, tile).Some?
    ensures var s1 := DiscardTile(s, actor, tile).value;
      && Leaves(s, s1, i, if actor == i then s.discards[i] + [tile] else s.discards[i], |s.melds[i]|)
      && s1.riichiPending[i] == (actor != i && s.riichiPending[i])
      && s1.riichiDiscardIndex[i]
        == if actor == i && s.riichiPending[i] then Some(|s.discards[i]|) else s.riichiDiscardIndex[i]
  {
    hide RemoveTile;
  }

  lemma MeldLeaves(s: FoldState, actor: Seat, consumed: seq<Tile>, meld: MeldState, i: nat)
    requires FoldFits(s) && actor < s.mode.SeatCount() && i < s.mode.SeatCount()
    requires TakeMeld(s, actor, consumed, meld).Some?
    ensures var s1 := TakeMeld(s, actor, consumed, meld).value;
      Leaves(s, s1, i, s.discards[i], |s.melds[i]| + if actor == i then 1 else 0) && LeavesMarks(s, s1)
  {
    hide RemoveTiles;
  }

  lemma AddedKanLeaves(s: FoldState, actor: Seat, called: Tile, i: nat)
    requires FoldFits(s) && actor < s.mode.SeatCount() && i < s.mode.SeatCount() && AddKan(s, actor, called).Some?
    ensures var s1 := AddKan(s, actor, called).value;
      Leaves(s, s1, i, s.discards[i], |s.melds[i]|) && LeavesMarks(s, s1)
  {
    hide RemoveTile, AddedKanTarget;
  }

  predicate MovesTiles(e: GameEvent) {
    e.Dahai? || e.OpenPon? || e.OpenChi? || e.OpenKan? || e.AddedKan? || e.ClosedKan?
  }

  lemma TilesMoved(s: FoldState, e: GameEvent, i: nat)
    requires FoldFits(s) && ApplyEvent(s, e).Some? && MovesTiles(e) && i < s.mode.SeatCount()
    ensures var s1 := ApplyEvent(s, e).value;
      && Leaves(s, s1, i, s.discards[i] + (if DiscardBy(e, i) then [e.discarded] else []),
                |s.melds[i]| + if MeldBy(e, i) then 1 else 0)
      && s1.riichiPending[i] == (if DiscardBy(e, i) then false else s.riichiPending[i])
      && s1.riichiDiscardIndex[i] ==
           (if DiscardBy(e, i) && s.riichiPending[i] then Some(|s.discards[i]|) else s.riichiDiscardIndex[i])
  {
    hide DiscardTile, TakeMeld, AddKan, ChiAccepted, SameTypeMeldAccepted, Leaves;
    match e {
      case Dahai(actor, tile) =>
        DiscardLeaves(s, actor, tile, i);
        assert s.discards[i] + [] == s.discards[i];
      case OpenPon(actor, target, called, consumed) => CallLeaves(s, e, actor, target, called, consumed, i);
      case OpenChi(actor, target, called, consumed) => CallLeaves(s, e, actor, target, called, consumed, i);
      case OpenKan(actor, target, called, consumed) => CallLeaves(s, e, actor, target, called, consumed, i);
      case AddedKan(actor, called, _) =>
        AddedKanLeaves(s, actor, called, i);
        assert s.discards[i] + [] == s.discards[i];
      case ClosedKan(actor, consumed) =>
        MeldLeaves(s, actor, consumed, MeldState(consumed, false, None, None), i);
        assert s.discards[i] + [] == s.discards[i];
    }
  }

  lemma CallLeaves(s: FoldState, e: GameEvent, actor: Seat, target: Seat, called: Tile, consumed: seq<Tile>, i: nat)
    requires FoldFits(s) && ApplyEvent(s, e).Some? && i < s.mode.SeatCount()
    requires e == OpenPon(actor, target, called, consumed) || e == OpenChi(actor, target, called, consumed)
      || e == OpenKan(actor, target, called, consumed)
    ensures var s1 := ApplyEvent(s, e).value;
      && Leaves(s, s1, i, s.discards[i] + [], |s.melds[i]| + if actor == i then 1 else 0) && LeavesMarks(s, s1)
  {
    hide TakeMeld, ChiAccepted, SameTypeMeldAccepted, Leaves;
    MeldLeaves(s, actor, consumed, MeldState(consumed + [called], true, Some(target), Some(called)), i);
    assert s.discards[i] + [] == s.discards[i];
  }

  lemma OthersLeave(s: FoldState, e: GameEvent, i: nat)
    requires FoldFits(s) && ApplyEvent(s, e).Some? && !MovesTiles(e) && !e.StartKyoku? && i < s.mode.SeatCount()
    ensures var s1 := ApplyEvent(s, e).value;
      && FoldFits(s1) && s1.mode == s.mode && s1.discards == s.discards && s1.melds == s.melds
      && s1.riichi[i] == (s.riichi[i] || DeclaredBy(e, i))
      && s1.doraIndicators == s.doraIndicators + (if e.Dora? then [e.newMarker] else [])
      && s1.scores == (if IsTerminal(e) && e.scores.Some? then e.scores.value else s.scores)
      && s1.riichiPending[i] == (s.riichiPending[i] || ReachBy(e, i))
      && s1.riichiDiscardIndex == s.riichiDiscardIndex
  {
    hide Without, NorthIn, NameSeats, StartHand, DiscardTile, TakeMeld, CallTile, AddKan;
  }

  lemma EventShows(s: FoldState, e: GameEvent, i: nat)
    requires FoldFits(s) && ApplyEvent(s, e).Some? && !e.StartKyoku? && i < s.mode.SeatCount()
    ensures var s1 := ApplyEvent(s, e).value;
      && FoldFits(s1) && s1.mode == s.mode
      && s1.discards[i] == s.discards[i] + (if DiscardBy(e, i) then [e.discarded] else [])
      && |s1.melds[i]| == |s.melds[i]| + (if MeldBy(e, i) then 1 else 0)
      && s1.riichi[i] == (s.riichi[i] || DeclaredBy(e, i))
      && s1.doraIndicators == s.doraIndicators + (if e.Dora? then [e.newMarker] else [])
      && s1.scores == (if IsTerminal(e) && e.scores.Some? then e.scores.value else s.scores)
  {
    hide ApplyEvent;
    if MovesTiles(e) { TilesMoved(s, e, i); } else { OthersLeave(s, e, i); }
  }

  lemma EventMarks(s: FoldState, e: GameEvent, i: nat)
    requires FoldFits(s) && ApplyEvent(s, e).Some? && !e.StartKyoku? && i < s.mode.SeatCount()
    ensures var s1 := ApplyEvent(s, e).value;
      && FoldFits(s1) && s1.mode == s.mode
      && s1.riichiPending[i] == (if DiscardBy(e, i) then false else s.riichiPending[i] || ReachBy(e, i))
      && s1.riichiDiscardIndex[i] ==
           (if DiscardBy(e, i) && s.riichiPending[i] then Some(|s.discards[i]|) else s.riichiDiscardIndex[i])
  {
    hide ApplyEvent;
    if MovesTiles(e) { TilesMoved(s, e, i); } else { OthersLeave(s, e, i); }
  }

  lemma DealShows(s: FoldState, e: GameEvent)
    requires FoldFits(s) && ApplyEvent(s, e).Some? && e.StartKyoku?
    ensures var s1 := ApplyEvent(s, e).value;
      && s1.discards == Repeat(s.mode.SeatCount(), []) && s1.melds == Repeat(s.mode.SeatCount(), [])
      && s1.riichi == Repeat(s.mode.SeatCount(), false) && s1.riichiPending == Repeat(s.mode.SeatCount(), false)
      && s1.riichiDiscardIndex == Repeat(s.mode.SeatCount(), None)
      && s1.doraIndicators == [e.doraMarker] && s1.scores == e.startScores && s1.mode == s.mode
  {
  }

  // ----- A hand, so far ---------------------------------------------------------------------------

  predicate SeatShows(s: FoldState, log: seq<GameEvent>, start: nat, t: nat, i: nat)
    requires FoldFits(s) && i < s.mode.SeatCount() && start < t <= |log|
  {
    && s.discards[i] == Discarded(log, start + 1, t, i)
    && |s.melds[i]| == MeldsBy(log, start + 1, t, i)
    && (s.riichi[i] <==> Declared(log, start + 1, t, i))
  }

  ghost predicate MarkShows(s: FoldState, log: seq<GameEvent>, start: nat, t: nat, i: nat)
    requires FoldFits(s) && i < s.mode.SeatCount() && start < t <= |log|
  {
    && (s.riichiPending[i] <==> Waiting(log, start, t, i))
    && (s.riichiDiscardIndex[i].Some? ==> Marked(log, start, t, i, s.riichiDiscardIndex[i].value))
    && (s.riichiDiscardIndex[i].None? ==> forall k: nat :: !Marked(log, start, t, i, k))
  }

  predicate InOneHand(log: seq<GameEvent>, start: nat, t: nat) {
    start < t <= |log| && log[start].StartKyoku? && forall k :: start < k < t ==> !log[k].StartKyoku?
  }

  lemma FoldBefore(mode: GameMode, log: seq<GameEvent>, t: nat)
    requires 0 < t <= |log| && Fold(mode, log[..t]).Some?
    ensures Fold(mode, log[..t - 1]).Some?
    ensures FoldFits(Fold(mode, log[..t - 1]).value) && Fold(mode, log[..t - 1]).value.mode == mode
    ensures ApplyEvent(Fold(mode, log[..t - 1]).value, log[t - 1]) == Fold(mode, log[..t])
  {
    hide ApplyEvent, FoldFits;
    assert log[..t][..t - 1] == log[..t - 1] && log[..t][t - 1] == log[t - 1];
  }

  /**
   * Anywhere in a hand the folded table shows exactly what the log says happened in it: each
   * seat's discards in order, its melds and whether it declared riichi, the indicators turned over
   * and the scores last announced.
   */
  lemma {:induction false} FoldShowsTheHand(mode: GameMode, log: seq<GameEvent>, start: nat, t: nat)
    requires InOneHand(log, start, t) && Fold(mode, log[..t]).Some?
    ensures var s := Fold(mode, log[..t]).value;
      && s.doraIndicators == [log[start].doraMarker] + Indicators(log, start + 1, t)
      && s.scores == ScoresShown(log, start, t)
      && forall i :: 0 <= i < mode.SeatCount() ==> SeatShows(s, log, start, t, i)
    decreases t
  {
    hide ApplyEvent, Fold, FoldFits, DeclaredBy, DiscardBy, MeldBy;
    FoldBefore(mode, log, t);
    var before, after := Fold(mode, log[..t - 1]).value, Fold(mode, log[..t]).value;
    if t == start + 1 {
      DealShows(before, log[start]);
      HandJustDealt(after, log, start, t);
    } else {
      FoldShowsTheHand(mode, log, start, t - 1);
      EventShows(before, log[t - 1], 0);
      forall i | 0 <= i < mode.SeatCount()
        ensures SeatShows(after, log, start, t, i)
      {
        EventShows(before, log[t - 1], i);
        assert SeatShows(before, log, start, t - 1, i);
      }
    }
  }

  lemma HandJustDealt(s: FoldState, log: seq<GameEvent>, start: nat, t: nat)
    requires FoldFits(s) && start < t == start + 1 <= |log|
    requires s.discards == Repeat(s.mode.SeatCount(), []) && s.melds == Repeat(s.mode.SeatCount(), [])
    requires s.riichi == Repeat(s.mode.SeatCount(), false)
    ensures forall i :: 0 <= i < s.mode.SeatCount() ==> SeatShows(s, log, start, t, i)
  {
  }

  /**
   * Anywhere in a hand a seat's riichi mark is pending exactly from its declaration to its next
   * discard, and stands, if at all, on the first discard after a declaration.
   */
  lemma {:induction false} RiichiMarkMeans(mode: GameMode, log: seq<GameEvent>, start: nat, t: nat, i: nat)
    requires InOneHand(log, start, t) && Fold(mode, log[..t]).Some? && i < mode.SeatCount()
    ensures MarkShows(Fold(mode, log[..t]).value, log, start, t, i)
    decreases t
  {
    hide ApplyEvent, Fold, FoldFits, DiscardBy, ReachBy, Discarded, Waiting, Marked;
    FoldBefore(mode, log, t);
    var before, after := Fold(mode, log[..t - 1]).value, Fold(mode, log[..t]).value;
    if t == start + 1 {
      DealShows(before, log[start]);
      NothingMarkedYet(log, start, t, i);
    } else {
      RiichiMarkMeans(mode, log, start, t - 1, i);
      FoldShowsTheHand(mode, log, start, t - 1);
      assert SeatShows(before, log, start, t - 1, i);
      EventMarks(before, log[t - 1], i);
      MarkMoves(before, after, log, start, t, i);
    }
  }

  lemma MarkMoves(s: FoldState, s1: FoldState, log: seq<GameEvent>, start: nat, t: nat, i: nat)
    requires FoldFits(s) && FoldFits(s1) && s1.mode == s.mode && i < s.mode.SeatCount()
    requires start + 1 < t <= |log| && MarkShows(s, log, start, t - 1, i)
    requires s.discards[i] == Discarded(log, start + 1, t - 1, i)
    requires s1.riichiPending[i]
      == (if DiscardBy(log[t - 1], i) then false else s.riichiPending[i] || ReachBy(log[t - 1], i))
    requires s1.riichiDiscardIndex[i] ==
      (if DiscardBy(log[t - 1], i) && s.riichiPending[i] then Some(|s.discards[i]|) else s.riichiDiscardIndex[i])
    ensures MarkShows(s1, log, start, t, i)
  {
    hide DiscardBy, ReachBy, Discarded, Waiting, Marked;
    WaitingStep(log, start, t, i);
    var mark := s1.riichiDiscardIndex[i];
    if mark.Some? {
      MarkedStep(log, start, t, i, mark.value);
    } else {
      forall k: nat
        ensures !Marked(log, start, t, i, k)
      {
        MarkedStep(log, start, t, i, k);
      }
    }
  }

  lemma NothingMarkedYet(log: seq<GameEvent>, start: nat, t: nat, i: nat)
    requires start < t == start + 1 <= |log|
    ensures !Waiting(log, start, t, i) && forall k: nat :: !Marked(log, start, t, i, k)
  {
  }

  lemma WaitingStep(log: seq<GameEvent>, start: nat, t: nat, i: nat)
    requires start + 1 < t <= |log|
    ensures Waiting(log, start, t, i) <==>
      !DiscardBy(log[t - 1], i) && (Waiting(log, start, t - 1, i) || ReachBy(log[t - 1], i))
  {
    var last := t - 1;
    if Waiting(log, start, t, i) {
      var r :| start < r < t && ReachBy(log[r], i) && NoDiscard(log, r + 1, t, i);
      if r < last { assert NoDiscard(log, r + 1, last, i) && !DiscardBy(log[last], i); }
    }
    if !DiscardBy(log[last], i) {
      if Waiting(log, start, last, i) {
        var r :| start < r < last && ReachBy(log[r], i) && NoDiscard(log, r + 1, last, i);
        assert NoDiscard(log, r + 1, t, i);
      } else if ReachBy(log[last], i) {
        assert NoDiscard(log, last + 1, t, i);
      }
    }
  }

  lemma MarkedStep(log: seq<GameEvent>, start: nat, t: nat, i: nat, k: nat)
    requires start + 1 < t <= |log|
    ensures Marked(log, start, t, i, k) <==> Marked(log, start, t - 1, i, k) || MarkedAt(log, start, t - 1, i, k)
  {
    hide MarkedAt;
  }
}
