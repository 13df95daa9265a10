// The replay state as the server folds it: lists per seat, updated event by event.

module ReplayMachine {
  import opened Wrappers
  import opened Checked
  import opened Domain
  import opened Projection
  import opened ReplayFrames
  import opened ReplayFold

  class ReplayState {
    const mode: GameMode
    var participants: seq<Participant>
    var scores: seq<I32>
    var hands: seq<seq<Tile>>
    var discards: seq<seq<Tile>>
    var melds: seq<seq<MeldState>>
    var riichi: seq<bool>
    var riichiPending: seq<bool>
    var riichiDiscardIndex: seq<Option<nat>>
    var doraIndicators: seq<Tile>
    var kyokuActive: bool
    var round: Option<RoundInfo>

    ghost function State(): FoldState
      reads this
    {
      FoldState(mode, participants, scores, hands, discards, melds, riichi, riichiPending, riichiDiscardIndex,
                doraIndicators, kyokuActive, round)
    }

    constructor (mode: GameMode)
      ensures State() == NewState(mode)
    {
      var s := NewState(mode);
      this.mode := mode;
      participants, scores, hands := s.participants, s.scores, s.hands;
      discards, melds, riichi := s.discards, s.melds, s.riichi;
      riichiPending, riichiDiscardIndex := s.riichiPending, s.riichiDiscardIndex;
      doraIndicators, kyokuActive, round := s.doraIndicators, false, None;
    }

    /** Takes one tile out of a hand, or fails if it is not there. */
    method RemoveRequiredTile(seat: Seat, wanted: Tile) returns (ok: bool)
      requires seat < |hands|
      modifies this`hands
      ensures ok <==> RemoveTile(old(hands[seat]), wanted).Some?
      ensures hands == if ok then old(hands)[seat := RemoveTile(old(hands[seat]), wanted).value] else old(hands)
    {
      hide RemoveTile;
      var hand := RemoveTile(hands[seat], wanted);
      if hand.None? { return false; }
      hands := hands[seat := hand.value];
      return true;
    }

    /** Takes a list of tiles out of a hand one by one; stops, part way, at the first one missing. */
    method RemoveRequiredTiles(seat: Seat, wanted: seq<Tile>) returns (ok: bool)
      requires seat < |hands|
      modifies this`hands
      ensures ok <==> RemoveTiles(old(hands[seat]), wanted).Some?
      ensures ok ==> hands == old(hands)[seat := RemoveTiles(old(hands[seat]), wanted).value]
      ensures |hands| == |old(hands)|
    {
      hide RemoveTile, RemoveTiles;
      ghost var hand := hands[seat];
      NothingRemoved(hand, wanted);
      for i := 0 to |wanted|
        invariant |hands| == |old(hands)|
        invariant RemoveTiles(hand, wanted[..i]).Some?
        invariant hands == old(hands)[seat := RemoveTiles(hand, wanted[..i]).value]
      {
        RemovingOneMore(hand, wanted, i);
        var removed := RemoveRequiredTile(seat, wanted[i]);
        if !removed {
          MissingTileFails(hand, wanted, i + 1);
          return false;
        }
      }
      assert wanted[..|wanted|] == wanted;
      return true;
    }

    method ApplyStartKyoku(e: GameEvent) returns (ok: bool)
      requires FoldFits(State()) && e.StartKyoku?
      modifies this
      ensures ok <==> StartHand(old(State()), e).Some?
      ensures ok ==> State() == StartHand(old(State()), e).value
    {
      hide FoldFits, Repeat;
      var n := mode.SeatCount();
      if kyokuActive || |e.startScores| != n || |e.startHands| != n { return false; }
      round := Some(RoundInfo(e.bakaze, e.kyoku, e.oya, e.honba, e.kyotaku));
      scores, hands := e.startScores, e.startHands;
      discards, melds, riichi := Repeat(n, []), Repeat(n, []), Repeat(n, false);
      riichiPending, riichiDiscardIndex := Repeat(n, false), Repeat(n, None);
      doraIndicators := [e.doraMarker];
      kyokuActive := true;
      return true;
    }

    method ApplyDiscard(actor: Seat, tile: Tile) returns (ok: bool)
      requires FoldFits(State()) && actor < mode.SeatCount()
      modifies this
      ensures ok <==> DiscardTile(old(State()), actor, tile).Some?
      ensures ok ==> State() == DiscardTile(old(State()), actor, tile).value
    {
      hide RemoveTile;
      ok := RemoveRequiredTile(actor, tile);
      if !ok { return; }
      if riichiPending[actor] {
        riichiDiscardIndex := riichiDiscardIndex[actor := Some(|discards[actor]|)];
        riichiPending := riichiPending[actor := false];
      }
      discards := discards[actor := discards[actor] + [tile]];
    }

    method ApplyMeld(actor: Seat, consumed: seq<Tile>, meld: MeldState) returns (ok: bool)
      requires FoldFits(State()) && actor < mode.SeatCount()
      modifies this
      ensures ok <==> TakeMeld(old(State()), actor, consumed, meld).Some?
      ensures ok ==> State() == TakeMeld(old(State()), actor, consumed, meld).value
    {
      hide RemoveTiles;
      ok := RemoveRequiredTiles(actor, consumed);
      if !ok { return; }
      melds := melds[actor := melds[actor] + [meld]];
    }

    method ApplyCall(actor: Seat, target: Seat, called: Tile, consumed: seq<Tile>, chi: bool) returns (ok: bool)
      requires FoldFits(State())
      modifies this
      ensures var accepted := if chi then ChiAccepted(called, consumed) else SameTypeMeldAccepted(called, consumed);
        var after := CallTile(old(State()), actor, target, called, consumed, accepted);
        (ok <==> after.Some?) && (ok ==> State() == after.value)
    {
      hide ChiAccepted, SameTypeMeldAccepted, TakeMeld;
      if actor == target { return false; }
      if chi && !ChiAccepted(called, consumed) { return false; }
      if !chi && !SameTypeMeldAccepted(called, consumed) { return false; }
      if actor >= mode.SeatCount() { return false; }
      ok := ApplyMeld(actor, consumed, MeldState(consumed + [called], true, Some(target), Some(called)));
    }

    method ApplyAddedKan(actor: Seat, called: Tile) returns (ok: bool)
      requires FoldFits(State()) && actor < mode.SeatCount()
      modifies this
      ensures ok <==> AddKan(old(State()), actor, called).Some?
      ensures ok ==> State() == AddKan(old(State()), actor, called).value
    {
      hide RemoveTile, AddedKanTarget;
      ok := RemoveRequiredTile(actor, called);
      if !ok { return; }
      var k := AddedKanTarget(melds[actor], called);
      if k.None? { return false; }
      var meld := melds[actor][k.value];
      meld := meld.(tiles := meld.tiles + [called]);
      meld := meld.(calledTile := Some(called));
      melds := melds[actor := melds[actor][k.value := meld]];
    }

    method SetAllScores(supplied: Option<seq<I32>>) returns (ok: bool)
      modifies this`scores
      ensures ok <==> SetScores(old(State()), supplied).Some?
      ensures ok ==> State() == SetScores(old(State()), supplied).value
    {
      if supplied.None? { return true; }
      if |supplied.value| != mode.SeatCount() { return false; }
      scores := supplied.value;
      return true;
    }

    /** A drawn tile, a riichi mark or a removed North: one seat's own lists. */
    method ApplyOwn(e: GameEvent) returns (ok: bool)
      requires FoldFits(State()) && kyokuActive && (e.Tsumo? || e.Reach? || e.ReachAccepted? || e.Kita?)
      modifies this
      ensures ok <==> ApplyEvent(old(State()), e).Some?
      ensures ok ==> State() == ApplyEvent(old(State()), e).value
    {
      hide FoldFits, StartHand, DiscardTile, TakeMeld, CallTile, AddKan, ChiAccepted, SameTypeMeldAccepted, SetScores;
      FitsHasSeats(State());
      if e.actor >= mode.SeatCount() { return false; }
      var actor := e.actor;
      ok := true;
      if e.Tsumo? {
        hands := hands[actor := hands[actor] + [e.drawn]];
      } else if e.Kita? {
        var k := NorthIn(hands[actor]);
        ok := k.Some?;
        if ok { hands := hands[actor := Without(hands[actor], k.value)]; }
      } else {
        riichi := riichi[actor := true];
        if e.Reach? {
          riichiPending := riichiPending[actor := true];
        } else if round.Some? {
          round := Some(round.value.(kyotaku := round.value.kyotaku + 1));
        }
      }
    }

    /** A win or a draw: new scores when given, the pot taken or the shown hands taken over. */
    method ApplyEnding(e: GameEvent) returns (ok: bool)
      requires FoldFits(State()) && kyokuActive && (e.Hora? || e.Ryukyoku?)
      modifies this
      ensures ok <==> ApplyEvent(old(State()), e).Some?
      ensures ok ==> State() == ApplyEvent(old(State()), e).value
    {
      hide FoldFits, StartHand, DiscardTile, TakeMeld, CallTile, AddKan, ChiAccepted, SameTypeMeldAccepted, SetScores;
      if e.Hora? {
        ok := SetAllScores(e.scores);
        if ok {
          TookScores(old(State()), e.scores);
          if round.Some? { round := Some(round.value.(kyotaku := 0)); }
        }
      } else {
        if e.revealedHands.Some? && |e.revealedHands.value| != mode.SeatCount() { return false; }
        if e.revealedHands.Some? { hands := e.revealedHands.value; }
        ok := SetAllScores(e.scores);
      }
    }

    /** The events that move tiles between a hand and the discards or melds. */
    method ApplyTiles(e: GameEvent) returns (ok: bool)
      requires FoldFits(State()) && kyokuActive
      requires e.Dahai? || e.OpenPon? || e.OpenChi? || e.OpenKan? || e.AddedKan? || e.ClosedKan?
      modifies this
      ensures ok <==> ApplyEvent(old(State()), e).Some?
      ensures ok ==> State() == ApplyEvent(old(State()), e).value
    {
      hide FoldFits, StartHand, DiscardTile, TakeMeld, CallTile, AddKan, ChiAccepted, SameTypeMeldAccepted, SetScores;
      if e.OpenPon? || e.OpenKan? || e.OpenChi? {
        ok := ApplyCall(e.actor, e.target, e.called, e.consumed, e.OpenChi?);
        return;
      }
      if e.ClosedKan? && (e.consumed == []
        || exists i :: 0 <= i < |e.consumed| && TileType(e.consumed[i]) != TileType(e.consumed[0])) { return false; }
      if e.actor >= mode.SeatCount() { return false; }
      if e.Dahai? {
        ok := ApplyDiscard(e.actor, e.discarded);
      } else if e.AddedKan? {
        ok := ApplyAddedKan(e.actor, e.called);
      } else {
        ok := ApplyMeld(e.actor, e.consumed, MeldState(e.consumed, false, None, None));
      }
    }

    /**
     * Applies one event. It succeeds exactly when the event fits, and then leaves exactly the
     * specified state; what a refused event leaves behind is not specified, as the fold stops there.
     */
    method Apply(e: GameEvent) returns (r: Result<(), ReplayError>)
      requires FoldFits(State())
      modifies this
      ensures r.Ok? <==> ApplyEvent(old(State()), e).Some?
      ensures r.Err? ==> r.error == InvalidEvent
      ensures r.Ok? ==> State() == ApplyEvent(old(State()), e).value
    {
      hide FoldFits, StartHand, DiscardTile, TakeMeld, CallTile, AddKan, ChiAccepted, SameTypeMeldAccepted, SetScores;
      if !kyokuActive && !AllowedOutsideHands(e) { return Err(InvalidEvent); }
      var ok := true;
      if e.StartGame? {
        if e.names.Some? { participants := NameSeats(participants, e.names.value); }
      } else if e.StartKyoku? {
        ok := ApplyStartKyoku(e);
      } else if e.Tsumo? || e.Reach? || e.ReachAccepted? || e.Kita? {
        ok := ApplyOwn(e);
      } else if e.Hora? || e.Ryukyoku? {
        ok := ApplyEnding(e);
      } else if e.Dora? {
        doraIndicators := doraIndicators + [e.newMarker];
      } else if e.EndKyoku? {
        kyokuActive := false;
      } else if !e.EndGame? {
        ok := ApplyTiles(e);
      }
      return if ok then Ok(()) else Err(InvalidEvent);
    }
  }

  lemma FitsHasSeats(s: FoldState)
    requires FoldFits(s)
    ensures var n := s.mode.SeatCount();
      |s.hands| == n && |s.riichi| == n && |s.riichiPending| == n && |s.melds| == n
  {
  }

  lemma TookScores(s: FoldState, supplied: Option<seq<I32>>)
    requires SetScores(s, supplied).Some?
    ensures SetScores(s, supplied).value == s.(scores := SetScores(s, supplied).value.scores)
  {
  }

  lemma NothingRemoved(hand: seq<Tile>, wanted: seq<Tile>)
    ensures RemoveTiles(hand, wanted[..0]) == Some(hand)
  {
    assert wanted[..0] == [];
  }

  lemma RemovingOneMore(hand: seq<Tile>, wanted: seq<Tile>, i: nat)
    requires i < |wanted|
    ensures var before := RemoveTiles(hand, wanted[..i]);
      RemoveTiles(hand, wanted[..i + 1]) == if before.None? then None else RemoveTile(before.value, wanted[i])
  {
    assert wanted[..i + 1][..i] == wanted[..i];
  }

  lemma {:induction false} MissingTileFails(hand: seq<Tile>, wanted: seq<Tile>, k: nat)
    requires k <= |wanted| && RemoveTiles(hand, wanted[..k]).None?
    ensures RemoveTiles(hand, wanted).None?
    decreases |wanted|
  {
    if k == |wanted| {
      assert wanted[..k] == wanted;
    } else {
      assert wanted[..|wanted| - 1][..k] == wanted[..k];
      MissingTileFails(hand, wanted[..|wanted| - 1], k);
    }
  }
}
