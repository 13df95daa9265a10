// The fold's state machine in place, its invariants, and where every tile went.

module ReplayFoldProofs {
  import opened Wrappers
  import opened Domain
  import opened Projection
  import opened ReplayFold
  import opened Settlement
  import opened TileRuns

  // ----- Every accepted event keeps the shape -------------------------------------------------

  /** Lists keep one entry per seat and a riichi mark always points at an existing discard. */
  lemma ApplyKeepsFit(s: FoldState, e: GameEvent)
    requires FoldFits(s) && ApplyEvent(s, e).Some?
    ensures FoldFits(ApplyEvent(s, e).value) && ApplyEvent(s, e).value.mode == s.mode
  {
    hide RemoveTile, RemoveTiles, Without, ChiAccepted, SameTypeMeldAccepted, AddedKanTarget, NorthIn;
  }

  /** The whole fold, front to back. */
  function Fold(mode: GameMode, events: seq<GameEvent>): (r: Option<FoldState>)
    ensures r.Some? ==> FoldFits(r.value) && r.value.mode == mode
  {
    if events == [] then Some(NewState(mode))
    else
      var last := |events| - 1;
      match Fold(mode, events[..last])
      case None => None
      case Some(s) =>
        if ApplyEvent(s, events[last]).Some? then ApplyKeepsFit(s, events[last]); ApplyEvent(s, events[last]) else None
  }

  // ----- Where every tile went ------------------------------------------------------------------

  /** Per seat: tiles dealt, drawn and called since the hand was dealt; Norths set aside; hands shown over. */
  datatype Tally = Tally(credits: seq<multiset<Tile>>, setAside: seq<multiset<Tile>>, kitas: seq<nat>, replaced: bool)

  function Credit(t: Tally, seat: nat, tile: Tile): Tally
    requires seat < |t.credits|
  {
    t.(credits := t.credits[seat := t.credits[seat] + multiset{tile}])
  }

  /** What an event adds to the tally; the tile a Kita sets aside is the first North in hand. */
  function TallyEvent(t: Tally, s: FoldState, e: GameEvent): Tally
    requires FoldFits(s) && ApplyEvent(s, e).Some?
    requires |t.credits| == |t.setAside| == |t.kitas| == s.mode.SeatCount()
  {
    match e
    case StartKyoku(_, _, _, _, _, _, _, hands) =>
      Tally(seq(|hands|, i requires 0 <= i < |hands| => multiset(hands[i])),
            Repeat(|hands|, multiset{}), Repeat(|hands|, 0), false)
    case Tsumo(actor, tile) => Credit(t, actor, tile)
    case OpenPon(actor, _, called, _) => Credit(t, actor, called)
    case OpenChi(actor, _, called, _) => Credit(t, actor, called)
    case OpenKan(actor, _, called, _) => Credit(t, actor, called)
    case Ryukyoku(_, hands, _, _) => t.(replaced := t.replaced || hands.Some?)
    case Kita(actor) =>
      var hand := s.hands[actor];
      t.(setAside := t.setAside[actor := t.setAside[actor] + multiset{hand[NorthIn(hand).value]}],
         kitas := t.kitas[actor := t.kitas[actor] + 1])
    case _ => t
  }

  function MeldTiles(melds: seq<MeldState>): multiset<Tile> {
    if melds == [] then multiset{} else MeldTiles(melds[..|melds| - 1]) + multiset(melds[|melds| - 1].tiles)
  }

  /** Everything a seat holds: hand, discards and melds. */
  function Holdings(s: FoldState, seat: nat): multiset<Tile>
    requires FoldFits(s) && seat < s.mode.SeatCount()
  {
    multiset(s.hands[seat]) + multiset(s.discards[seat]) + MeldTiles(s.melds[seat])
  }

  predicate AllNorth(m: multiset<Tile>) { forall t :: t in m ==> TileType(t) == NORTH_TYPE }

  /** The books of one seat: holdings plus set-aside Norths are exactly the credited tiles. */
  predicate Balanced(s: FoldState, t: Tally, i: nat)
    requires FoldFits(s) && i < s.mode.SeatCount()
    requires |t.credits| == |t.setAside| == |t.kitas| == s.mode.SeatCount()
  {
    && AllNorth(t.setAside[i]) && |t.setAside[i]| == t.kitas[i]
    && (!t.replaced ==> Holdings(s, i) + t.setAside[i] == t.credits[i])
  }

  predicate Accounted(s: FoldState, t: Tally)
    requires FoldFits(s)
  {
    && |t.credits| == |t.setAside| == |t.kitas| == s.mode.SeatCount()
    && forall i :: 0 <= i < s.mode.SeatCount() ==> Balanced(s, t, i)
  }

  lemma MeldsSnoc(melds: seq<MeldState>, m: MeldState)
    ensures MeldTiles(melds + [m]) == MeldTiles(melds) + multiset(m.tiles)
  {
    assert (melds + [m])[..|melds|] == melds;
  }

  lemma {:induction false} MeldsUpdate(melds: seq<MeldState>, k: nat, m: MeldState, tile: Tile)
    requires k < |melds| && m.tiles == melds[k].tiles + [tile]
    ensures MeldTiles(melds[k := m]) == MeldTiles(melds) + multiset{tile}
    decreases |melds|
  {
    var last := |melds| - 1;
    var front, end := MeldTiles(melds[..last]), multiset(melds[last].tiles);
    if k == last {
      assert melds[k := m][..last] == melds[..last];
      assert multiset(m.tiles) == end + multiset{tile};
      OneMoreInFront(front, end, tile);
    } else {
      assert melds[k := m][..last] == melds[..last][k := m];
      MeldsUpdate(melds[..last], k, m, tile);
      OneMoreInFront(front, end, tile);
    }
  }

  lemma OneMoreInFront(front: multiset<Tile>, end: multiset<Tile>, tile: Tile)
    ensures front + multiset{tile} + end == front + end + multiset{tile} == front + (end + multiset{tile})
  {
  }

  /** A seat an event does not name keeps its holdings. */
  predicate SeatUntouched(s: FoldState, s1: FoldState, i: nat)
    requires FoldFits(s) && FoldFits(s1) && s1.mode == s.mode && i < s.mode.SeatCount()
  {
    s1.hands[i] == s.hands[i] && s1.discards[i] == s.discards[i] && s1.melds[i] == s.melds[i]
  }

  lemma DiscardMovesATile(s: FoldState, actor: Seat, tile: Tile)
    requires FoldFits(s) && actor < s.mode.SeatCount() && DiscardTile(s, actor, tile).Some?
    ensures FoldFits(DiscardTile(s, actor, tile).value)
    ensures Holdings(DiscardTile(s, actor, tile).value, actor) == Holdings(s, actor)
  {
    hide RemoveTile;
  }

  lemma MeldMovesTiles(s: FoldState, actor: Seat, consumed: seq<Tile>, meld: MeldState, extra: seq<Tile>)
    requires FoldFits(s) && actor < s.mode.SeatCount() && TakeMeld(s, actor, consumed, meld).Some?
    requires meld.tiles == consumed + extra
    ensures FoldFits(TakeMeld(s, actor, consumed, meld).value)
    ensures Holdings(TakeMeld(s, actor, consumed, meld).value, actor) == Holdings(s, actor) + multiset(extra)
  {
    hide RemoveTiles, MeldTiles;
    MeldsSnoc(s.melds[actor], meld);
    assert multiset(meld.tiles) == multiset(consumed) + multiset(extra);
  }

  lemma AddKanMovesATile(s: FoldState, actor: Seat, called: Tile)
    requires FoldFits(s) && actor < s.mode.SeatCount() && AddKan(s, actor, called).Some?
    ensures FoldFits(AddKan(s, actor, called).value)
    ensures Holdings(AddKan(s, actor, called).value, actor) == Holdings(s, actor)
  {
    hide RemoveTile, AddedKanTarget, MeldTiles;
    var k := AddedKanTarget(s.melds[actor], called).value;
    var meld := s.melds[actor][k].(tiles := s.melds[actor][k].tiles + [called], calledTile := Some(called));
    MeldsUpdate(s.melds[actor], k, meld, called);
  }

  /** The seat an event acts for keeps its books. */
  lemma ActorBalanced(s: FoldState, t: Tally, e: GameEvent)
    requires FoldFits(s) && ApplyEvent(s, e).Some? && Accounted(s, t)
    requires e.Tsumo? || e.Dahai? || e.AddedKan? || e.ClosedKan?
    ensures e.actor < s.mode.SeatCount()
    ensures FoldFits(ApplyEvent(s, e).value)
    ensures Balanced(ApplyEvent(s, e).value, TallyEvent(t, s, e), e.actor)
  {
    hide MeldTiles, DiscardTile, TakeMeld, AddKan, AllNorth, CallTile, StartHand;
    assert Balanced(s, t, e.actor);
    match e {
      case Tsumo(actor, tile) =>
        assert multiset(s.hands[actor] + [tile]) == multiset(s.hands[actor]) + multiset{tile};
      case Dahai(actor, tile) => DiscardMovesATile(s, actor, tile);
      case AddedKan(actor, called, _) => AddKanMovesATile(s, actor, called);
      case ClosedKan(actor, consumed) =>
        assert consumed == consumed + [];
        MeldMovesTiles(s, actor, consumed, MeldState(consumed, false, None, None), []);
    }
  }

  lemma CallerBalanced(s: FoldState, t: Tally, e: GameEvent)
    requires FoldFits(s) && ApplyEvent(s, e).Some? && Accounted(s, t)
    requires e.OpenPon? || e.OpenChi? || e.OpenKan?
    ensures e.actor < s.mode.SeatCount()
    ensures FoldFits(ApplyEvent(s, e).value)
    ensures Balanced(ApplyEvent(s, e).value, TallyEvent(t, s, e), e.actor)
  {
    hide MeldTiles, TakeMeld, ChiAccepted, SameTypeMeldAccepted, AllNorth;
    assert Balanced(s, t, e.actor);
    MeldMovesTiles(s, e.actor, e.consumed,
                   MeldState(e.consumed + [e.called], true, Some(e.target), Some(e.called)), [e.called]);
  }

  lemma KitaBalanced(s: FoldState, t: Tally, e: GameEvent)
    requires FoldFits(s) && ApplyEvent(s, e).Some? && Accounted(s, t) && e.Kita?
    ensures e.actor < s.mode.SeatCount() && FoldFits(ApplyEvent(s, e).value)
    ensures Balanced(ApplyEvent(s, e).value, TallyEvent(t, s, e), e.actor)
  {
    hide MeldTiles, NorthIn, Without;
    assert Balanced(s, t, e.actor);
  }

  lemma OthersUntouched(s: FoldState, e: GameEvent, i: nat)
    requires FoldFits(s) && ApplyEvent(s, e).Some? && i < s.mode.SeatCount() && FoldFits(ApplyEvent(s, e).value)
    requires !e.StartKyoku? && !(e.Ryukyoku? && e.revealedHands.Some?)
    requires (e.Tsumo? || e.Dahai? || e.OpenPon? || e.OpenChi? || e.OpenKan? || e.AddedKan? || e.ClosedKan? || e.Kita?)
      ==> e.actor != i
    ensures ApplyEvent(s, e).value.mode == s.mode && SeatUntouched(s, ApplyEvent(s, e).value, i)
  {
    hide RemoveTile, RemoveTiles, Without, ChiAccepted, SameTypeMeldAccepted, AddedKanTarget, NorthIn;
  }

  lemma DealBalanced(s: FoldState, t: Tally, e: GameEvent, i: nat)
    requires FoldFits(s) && ApplyEvent(s, e).Some? && e.StartKyoku? && i < s.mode.SeatCount()
    requires |t.credits| == |t.setAside| == |t.kitas| == s.mode.SeatCount()
    ensures FoldFits(ApplyEvent(s, e).value) && Balanced(ApplyEvent(s, e).value, TallyEvent(t, s, e), i)
  {
    var s1 := ApplyEvent(s, e).value;
    assert s1.melds[i] == [] && s1.discards[i] == [];
    assert MeldTiles([]) == multiset{};
  }

  /** Every event an accepted log contains keeps the books of every seat. */
  lemma ApplyKeepsAccounts(s: FoldState, t: Tally, e: GameEvent)
    requires FoldFits(s) && ApplyEvent(s, e).Some? && Accounted(s, t)
    ensures FoldFits(ApplyEvent(s, e).value) && Accounted(ApplyEvent(s, e).value, TallyEvent(t, s, e))
  {
    hide Balanced, ApplyEvent, TallyEvent;
    ApplyKeepsFit(s, e);
    var s1, t1 := ApplyEvent(s, e).value, TallyEvent(t, s, e);
    TallyKeepsSeats(s, t, e);
    forall i | 0 <= i < s.mode.SeatCount()
      ensures Balanced(s1, t1, i)
    {
      SeatBalanced(s, t, e, i);
    }
  }

  lemma TallyKeepsSeats(s: FoldState, t: Tally, e: GameEvent)
    requires FoldFits(s) && ApplyEvent(s, e).Some?
    requires |t.credits| == |t.setAside| == |t.kitas| == s.mode.SeatCount()
    ensures var t1 := TallyEvent(t, s, e); |t1.credits| == |t1.setAside| == |t1.kitas| == s.mode.SeatCount()
  {
    hide DiscardTile, TakeMeld, AddKan;
  }

  lemma SeatBalanced(s: FoldState, t: Tally, e: GameEvent, i: nat)
    requires FoldFits(s) && ApplyEvent(s, e).Some? && Accounted(s, t) && i < s.mode.SeatCount()
    requires FoldFits(ApplyEvent(s, e).value) && ApplyEvent(s, e).value.mode == s.mode
    ensures var t1 := TallyEvent(t, s, e);
      |t1.credits| == |t1.setAside| == |t1.kitas| == s.mode.SeatCount() && Balanced(ApplyEvent(s, e).value, t1, i)
  {
    hide AllNorth, DiscardTile, TakeMeld, AddKan, StartHand, CallTile, MeldTiles;
    TallyKeepsSeats(s, t, e);
    assert Balanced(s, t, i);
    if e.StartKyoku? {
      DealBalanced(s, t, e, i);
    } else if e.Kita? && e.actor == i {
      KitaBalanced(s, t, e);
    } else if (e.Tsumo? || e.Dahai? || e.AddedKan? || e.ClosedKan?) && e.actor == i {
      ActorBalanced(s, t, e);
    } else if (e.OpenPon? || e.OpenChi? || e.OpenKan?) && e.actor == i {
      CallerBalanced(s, t, e);
    } else if !(e.Ryukyoku? && e.revealedHands.Some?) {
      OthersUntouched(s, e, i);
    }
  }

  /** The tally of a whole accepted log. */
  function TallyOf(mode: GameMode, events: seq<GameEvent>): (t: Tally)
    requires Fold(mode, events).Some?
    ensures |t.credits| == |t.setAside| == |t.kitas| == mode.SeatCount()
  {
    if events == [] then
      var n := mode.SeatCount();
      Tally(Repeat(n, multiset{}), Repeat(n, multiset{}), Repeat(n, 0), false)
    else
      var last := |events| - 1;
      var s := Fold(mode, events[..last]).value;
      TallyKeepsSeats(s, TallyOf(mode, events[..last]), events[last]);
      TallyEvent(TallyOf(mode, events[..last]), s, events[last])
  }

  /**
   * For every log the fold accepts, until hands are laid open at a draw, each seat's hand,
   * discards and melds together with the Norths it set aside are exactly the tiles it was dealt,
   * drew and called; one North per Kita.
   */
  lemma {:induction false} EveryTileIsAccounted(mode: GameMode, events: seq<GameEvent>)
    requires Fold(mode, events).Some?
    ensures Accounted(Fold(mode, events).value, TallyOf(mode, events))
  {
    if events == [] {
      assert MeldTiles([]) == multiset{};
    } else {
      hide ApplyEvent, Accounted, TallyEvent;
      var last := |events| - 1;
      EveryTileIsAccounted(mode, events[..last]);
      ApplyKeepsAccounts(Fold(mode, events[..last]).value, TallyOf(mode, events[..last]), events[last]);
    }
  }

  // ----- The fold's pot is the validator's pot -----------------------------------------------

  /** While no win has taken it, the pot shown in a hand is the one the validator counts. */
  lemma {:induction false} FoldedPotIsCounted(mode: GameMode, log: seq<GameEvent>, start: nat, t: nat)
    requires start < t <= |log| && log[start].StartKyoku? && Fold(mode, log[..t]).Some?
    requires forall k :: start < k < t ==> !log[k].Hora? && !log[k].StartKyoku?
    ensures var s := Fold(mode, log[..t]).value;
      s.round.Some? && s.round.value.kyotaku == PotAt(log, start, t)
    decreases t
  {
    hide DiscardTile, TakeMeld, AddKan, CallTile, FoldFits;
    var k := t - 1;
    assert log[..t][..k] == log[..k] && log[..t][k] == log[k];
    if k > start { FoldedPotIsCounted(mode, log, start, k); }
    PotStep(mode, log, start, k);
  }

  lemma PotStep(mode: GameMode, log: seq<GameEvent>, start: nat, k: nat)
    requires start <= k < |log| && log[start].StartKyoku? && Fold(mode, log[..k + 1]).Some?
    requires k > start ==> !log[k].Hora? && !log[k].StartKyoku?
    ensures Fold(mode, log[..k]).Some?
    ensures var before, after := Fold(mode, log[..k]).value.round, Fold(mode, log[..k + 1]).value.round;
      after == if k == start then after else if log[k].ReachAccepted? then AddStick(before) else before
    ensures k == start ==>
      var after := Fold(mode, log[..k + 1]).value.round; after.Some? && after.value.kyotaku == log[start].kyotaku
  {
    hide RemoveTile, RemoveTiles, Without, ChiAccepted, SameTypeMeldAccepted, AddedKanTarget, NorthIn, FoldFits;
    assert log[..k + 1][..k] == log[..k] && log[..k + 1][k] == log[k];
  }

  // ----- Called sequences ------------------------------------------------------------------------

  lemma ChiAcceptedMeans(called: Tile, consumed: seq<Tile>)
    ensures ChiAccepted(called, consumed) <==> NumberRun(Sorted(TypesOf(consumed + [called])))
  {
    hide Sorted, TypesOf;
  }

  /**
   * A called sequence is accepted exactly when its types are three consecutive number-tile types.
   * The suit comparison in the check adds nothing.
   */
  lemma ChiAcceptedIff(called: Tile, consumed: seq<Tile>)
    ensures ChiAccepted(called, consumed) <==>
      exists low: nat :: low + 2 < 27 && IsRun(TypesOf(consumed + [called]), low)
  {
    hide Sorted, TypesOf, ChiAccepted, IsRun;
    var types := TypesOf(consumed + [called]);
    ChiAcceptedMeans(called, consumed);
    if NumberRun(Sorted(types)) { SortedTripleIsRun(types, Sorted(types)); }
    if exists low: nat :: low + 2 < 27 && IsRun(types, low) {
      var low: nat :| low + 2 < 27 && IsRun(types, low);
      RunSortsToRun(types, low);
    }
  }

  /** An accepted sequence is a run of one suit exactly when its lowest type is at most a seven. */
  lemma AcceptedChiIsOneSuitIff(called: Tile, consumed: seq<Tile>)
    requires ChiAccepted(called, consumed)
    ensures Sorted(TypesOf(consumed + [called])) != []
    ensures SameSuitRun(TypesOf(consumed + [called])) <==> Sorted(TypesOf(consumed + [called]))[0] % 9 <= 6
  {
    hide Sorted, TypesOf, ChiAccepted, IsRun;
    var types := TypesOf(consumed + [called]);
    var sorted := Sorted(types);
    ChiAcceptedMeans(called, consumed);
    SortedTripleIsRun(types, sorted);
    if SameSuitRun(types) {
      var low: nat :| IsRun(types, low) && low / 9 == (low + 2) / 9 && low + 2 < 27;
      RunSortsToRun(types, low);
    }
  }

  /** Eight and nine of characters with one of circles pass the check though they span two suits. */
  lemma ChiAcrossSuitsIsAccepted()
    ensures ChiAccepted(36, [28, 32])
    ensures !SameSuitRun(TypesOf([28, 32] + [36]))
  {
    var types := TypesOf([28, 32] + [36]);
    assert types == [7, 8, 9];
    assert multiset(types) == multiset{7, 7 + 1, 7 + 2};
    RunSortsToRun(types, 7);
    AcceptedChiIsOneSuitIff(36, [28, 32]);
  }

  /** So the fold takes that call wherever the caller holds the two tiles, and shows the meld. */
  lemma FoldTakesChiAcrossSuits(s: FoldState, actor: Seat, target: Seat)
    requires FoldFits(s) && s.kyokuActive && actor < s.mode.SeatCount() && actor != target
    requires 28 in s.hands[actor] && 32 in s.hands[actor]
    ensures var e := OpenChi(actor, target, 36, [28, 32]);
      && ApplyEvent(s, e).Some?
      && ApplyEvent(s, e).value.melds[actor] ==
           s.melds[actor] + [MeldState([28, 32, 36], true, Some(target), Some(36))]
  {
    hide RemoveTile, ChiAccepted, SameTypeMeldAccepted;
    ChiAcrossSuitsIsAccepted();
    var hand, eight: Tile, nine: Tile := s.hands[actor], 28, 32;
    assert [eight, nine][..1] == [eight];
    assert RemoveTiles(hand, [eight]) == RemoveTile(hand, eight);
    var rest := RemoveTile(hand, eight).value;
    assert nine in multiset(rest) + multiset{eight};
    assert RemoveTiles(hand, [eight, nine]) == RemoveTile(rest, nine);
    assert [eight, nine] + [36] == [28, 32, 36];
  }
}
