// Hands, melds, names and round of a folded table, read off the log alone; and what a log must be to fold.

module ReplayHands {
  import opened Wrappers
  import opened Domain
  import opened Projection
  import opened ReplayFold
  import opened ReplayFoldProofs
  import opened ReplayFoldMeaning
  import opened TileRuns

  // ----- Taking tiles away, from the front -------------------------------------------------------------

  /** The hand without the first copy of a tile. */
  function DropFirst(hand: seq<Tile>, wanted: Tile): seq<Tile> {
    if hand == [] then []
    else if hand[0] == wanted then hand[1..]
    else [hand[0]] + DropFirst(hand[1..], wanted)
  }

  /** One tile after another. */
  function DropAll(hand: seq<Tile>, wanted: seq<Tile>): seq<Tile>
    decreases |wanted|
  {
    if wanted == [] then hand else DropFirst(DropAll(hand, wanted[..|wanted| - 1]), wanted[|wanted| - 1])
  }

  function DropNorth(hand: seq<Tile>): seq<Tile> {
    if hand == [] then []
    else if TileType(hand[0]) == NORTH_TYPE then hand[1..]
    else [hand[0]] + DropNorth(hand[1..])
  }

  lemma {:induction false} FirstIsDropped(hand: seq<Tile>, wanted: Tile, k: nat)
    requires k < |hand| && hand[k] == wanted && forall j :: 0 <= j < k ==> hand[j] != wanted
    ensures DropFirst(hand, wanted) == hand[..k] + hand[k + 1..]
  {
    if k == 0 {
      assert hand[..0] + hand[1..] == hand[1..];
    } else {
      FirstIsDropped(hand[1..], wanted, k - 1);
      assert hand[..k] + hand[k + 1..] == [hand[0]] + (hand[1..][..k - 1] + hand[1..][k..]);
    }
  }

  lemma {:induction false} NorthIsDropped(hand: seq<Tile>, k: nat)
    requires k < |hand| && TileType(hand[k]) == NORTH_TYPE
    requires forall j :: 0 <= j < k ==> TileType(hand[j]) != NORTH_TYPE
    ensures DropNorth(hand) == hand[..k] + hand[k + 1..]
  {
    if k == 0 {
      assert hand[..0] + hand[1..] == hand[1..];
    } else {
      NorthIsDropped(hand[1..], k - 1);
      assert hand[..k] + hand[k + 1..] == [hand[0]] + (hand[1..][..k - 1] + hand[1..][k..]);
    }
  }

  lemma RemovingDrops(hand: seq<Tile>, wanted: Tile)
    requires RemoveTile(hand, wanted).Some?
    ensures RemoveTile(hand, wanted).value == DropFirst(hand, wanted)
  {
    var k :| 0 <= k < |hand| && hand[k] == wanted && (forall j :: 0 <= j < k ==> hand[j] != wanted)
      && RemoveTile(hand, wanted).value == hand[..k] + hand[k + 1..];
    FirstIsDropped(hand, wanted, k);
  }

  lemma {:induction false} RemovingDropsAll(hand: seq<Tile>, wanted: seq<Tile>)
    requires RemoveTiles(hand, wanted).Some?
    ensures RemoveTiles(hand, wanted).value == DropAll(hand, wanted)
    decreases |wanted|
  {
    hide RemoveTile;
    if wanted != [] {
      var last := |wanted| - 1;
      RemovingDropsAll(hand, wanted[..last]);
      RemovingDrops(RemoveTiles(hand, wanted[..last]).value, wanted[last]);
    }
  }

  /** Tiles can be taken exactly when the hand holds them, as often as they are wanted. */
  lemma {:induction false} RemovableIff(hand: seq<Tile>, wanted: seq<Tile>)
    ensures RemoveTiles(hand, wanted).Some? <==> multiset(wanted) <= multiset(hand)
    decreases |wanted|
  {
    hide RemoveTile;
    if wanted != [] {
      var last := |wanted| - 1;
      var front := RemoveTiles(hand, wanted[..last]);
      RemovableIff(hand, wanted[..last]);
      assert wanted == wanted[..last] + [wanted[last]];
      if front.Some? {
        assert multiset(front.value) + multiset(wanted[..last]) == multiset(hand);
        assert wanted[last] in multiset(front.value) <==> multiset(wanted) <= multiset(hand) by {
          OneMoreFits(multiset(front.value), multiset(wanted[..last]), wanted[last]);
        }
      }
    }
  }

  lemma OneMoreFits(rest: multiset<Tile>, taken: multiset<Tile>, x: Tile)
    ensures x in rest <==> taken + multiset{x} <= rest + taken
  {
    if x !in rest { assert (taken + multiset{x})[x] > (rest + taken)[x]; }
  }

  // ----- Which events fold ------------------------------------------------------------------------------

  predicate AllOfType(tiles: seq<Tile>, t: nat) { forall i :: 0 <= i < |tiles| ==> TileType(tiles[i]) == t }

  predicate OpenTriplet(m: MeldState, t: nat) { m.isOpen && |m.tiles| == 3 && AllOfType(m.tiles, t) }

  /** A seat of the table holding these tiles. */
  predicate Holds(s: FoldState, actor: Seat, tiles: seq<Tile>)
    requires FoldFits(s)
  {
    actor < s.mode.SeatCount() && multiset(tiles) <= multiset(s.hands[actor])
  }

  predicate FitsTheTable<T>(s: FoldState, list: Option<seq<T>>) { list.Some? ==> |list.value| == s.mode.SeatCount() }

  /** What an event needs of the table; outside hands only games and hands start, and games end. */
  predicate EventFits(s: FoldState, e: GameEvent)
    requires FoldFits(s)
  {
    var n := s.mode.SeatCount();
    match e
    case StartGame(_) => true
    case EndGame => true
    case StartKyoku(_, _, _, _, _, scores, _, hands) => !s.kyokuActive && |scores| == n && |hands| == n
    case Tsumo(actor, _) => s.kyokuActive && actor < n
    case Dahai(actor, tile) => s.kyokuActive && Holds(s, actor, [tile])
    case OpenPon(actor, target, called, consumed) => s.kyokuActive && CallFits(s, actor, target, called, consumed)
    case OpenKan(actor, target, called, consumed) => s.kyokuActive && CallFits(s, actor, target, called, consumed)
    case OpenChi(actor, target, called, consumed) =>
      && s.kyokuActive && actor != target && Holds(s, actor, consumed)
      && exists low: nat :: low + 2 < 27 && IsRun(TypesOf(consumed + [called]), low)
    case AddedKan(actor, called, _) =>
      && s.kyokuActive && Holds(s, actor, [called])
      && exists k :: 0 <= k < |s.melds[actor]| && OpenTriplet(s.melds[actor][k], TileType(called))
    case ClosedKan(actor, consumed) =>
      s.kyokuActive && consumed != [] && AllOfType(consumed, TileType(consumed[0])) && Holds(s, actor, consumed)
    case Dora(_) => s.kyokuActive
    case Reach(actor) => s.kyokuActive && actor < n
    case ReachAccepted(actor) => s.kyokuActive && actor < n
    case Hora(_, _, _, _, scores) => s.kyokuActive && FitsTheTable(s, scores)
    case Ryukyoku(_, hands, _, scores) => s.kyokuActive && FitsTheTable(s, hands) && FitsTheTable(s, scores)
    case Kita(actor) =>
      && s.kyokuActive && actor < n
      && exists k :: 0 <= k < |s.hands[actor]| && TileType(s.hands[actor][k]) == NORTH_TYPE
    case EndKyoku => s.kyokuActive
  }

  predicate CallFits(s: FoldState, actor: Seat, target: Seat, called: Tile, consumed: seq<Tile>)
    requires FoldFits(s)
  {
    && actor != target && 2 <= |consumed| <= 3 && AllOfType(consumed, TileType(called))
    && Holds(s, actor, consumed)
  }

  lemma OneTileHeld(hand: seq<Tile>, tile: Tile)
    ensures RemoveTile(hand, tile).Some? <==> multiset([tile]) <= multiset(hand)
  {
    hide RemoveTile;
    assert multiset([tile]) == multiset{tile};
    if tile in hand { assert tile in multiset(hand); }
  }

  lemma CallFitsIff(s: FoldState, e: GameEvent)
    requires FoldFits(s) && s.kyokuActive && (e.OpenPon? || e.OpenKan? || e.OpenChi?)
    ensures ApplyEvent(s, e).Some? <==> EventFits(s, e)
  {
    hide ChiAccepted, RemoveTiles, IsRun, TypesOf;
    if e.actor < s.mode.SeatCount() { RemovableIff(s.hands[e.actor], e.consumed); }
    ChiAcceptedIff(e.called, e.consumed);
  }

  lemma KanFitsIff(s: FoldState, e: GameEvent)
    requires FoldFits(s) && s.kyokuActive && (e.AddedKan? || e.ClosedKan?)
    ensures ApplyEvent(s, e).Some? <==> EventFits(s, e)
  {
    hide RemoveTiles, RemoveTile;
    if e.actor < s.mode.SeatCount() {
      var hand := s.hands[e.actor];
      if e.ClosedKan? {
        RemovableIff(hand, e.consumed);
      } else {
        OneTileHeld(hand, e.called);
        var k := AddedKanTarget(s.melds[e.actor], e.called);
        assert k.Some? ==> OpenTriplet(s.melds[e.actor][k.value], TileType(e.called));
      }
    }
  }

  lemma SimpleFitsIff(s: FoldState, e: GameEvent)
    requires FoldFits(s)
    requires !(e.OpenPon? || e.OpenKan? || e.OpenChi? || e.AddedKan? || e.ClosedKan?)
    ensures ApplyEvent(s, e).Some? <==> EventFits(s, e)
  {
    hide RemoveTile, TakeMeld, AddKan, CallTile, Without, NameSeats, Repeat;
    if e.Dahai? && e.actor < s.mode.SeatCount() { OneTileHeld(s.hands[e.actor], e.discarded); }
  }

  /** The fold takes an event exactly when it fits the table. */
  lemma EventTakenIff(s: FoldState, e: GameEvent)
    requires FoldFits(s)
    ensures ApplyEvent(s, e).Some? <==> EventFits(s, e)
  {
    hide EventFits;
    if e.OpenPon? || e.OpenKan? || e.OpenChi? {
      if s.kyokuActive { CallFitsIff(s, e); } else { OutsideHands(s, e); }
    } else if e.AddedKan? || e.ClosedKan? {
      if s.kyokuActive { KanFitsIff(s, e); } else { OutsideHands(s, e); }
    } else {
      SimpleFitsIff(s, e);
    }
  }

  lemma OutsideHands(s: FoldState, e: GameEvent)
    requires FoldFits(s) && !s.kyokuActive
    requires e.OpenPon? || e.OpenKan? || e.OpenChi? || e.AddedKan? || e.ClosedKan?
    ensures ApplyEvent(s, e).None? && !EventFits(s, e)
  {
  }

  // ----- Hands and melds, read off the log ------------------------------------------------------------

  /** What an event makes of seat `i`'s concealed tiles. */
  function HandAfter(hand: seq<Tile>, e: GameEvent, i: nat): seq<Tile> {
    match e
    case Tsumo(actor, tile) => if actor == i then hand + [tile] else hand
    case Dahai(actor, tile) => if actor == i then DropFirst(hand, tile) else hand
    case OpenPon(actor, _, _, consumed) => if actor == i then DropAll(hand, consumed) else hand
    case OpenChi(actor, _, _, consumed) => if actor == i then DropAll(hand, consumed) else hand
    case OpenKan(actor, _, _, consumed) => if actor == i then DropAll(hand, consumed) else hand
    case AddedKan(actor, called, _) => if actor == i then DropFirst(hand, called) else hand
    case ClosedKan(actor, consumed) => if actor == i then DropAll(hand, consumed) else hand
    case Kita(actor) => if actor == i then DropNorth(hand) else hand
    case Ryukyoku(_, hands, _, _) => if hands.Some? && i < |hands.value| then hands.value[i] else hand
    case _ => hand
  }

  /** The first open triplet of a type becomes a kan. */
  function Extended(melds: seq<MeldState>, called: Tile): seq<MeldState> {
    if melds == [] then []
    else if OpenTriplet(melds[0], TileType(called)) then
      [melds[0].(tiles := melds[0].tiles + [called], calledTile := Some(called))] + melds[1..]
    else [melds[0]] + Extended(melds[1..], called)
  }

  function MeldsAfter(melds: seq<MeldState>, e: GameEvent, i: nat): seq<MeldState> {
    match e
    case OpenPon(actor, target, called, consumed) => Called(melds, i, actor, target, called, consumed)
    case OpenChi(actor, target, called, consumed) => Called(melds, i, actor, target, called, consumed)
    case OpenKan(actor, target, called, consumed) => Called(melds, i, actor, target, called, consumed)
    case AddedKan(actor, called, _) => if actor == i then Extended(melds, called) else melds
    case ClosedKan(actor, consumed) => if actor == i then melds + [MeldState(consumed, false, None, None)] else melds
    case _ => melds
  }

  /** An open meld shows the caller's own tiles, then the called one, and whom it came from. */
  function Called(melds: seq<MeldState>, i: nat, actor: Seat, target: Seat, called: Tile, consumed: seq<Tile>)
    : seq<MeldState>
  {
    if actor == i then melds + [MeldState(consumed + [called], true, Some(target), Some(called))] else melds
  }

  function HandRead(log: seq<GameEvent>, start: nat, t: nat, i: nat): seq<Tile>
    requires start < t <= |log| && log[start].StartKyoku? && i < |log[start].startHands|
    decreases t
  {
    if t == start + 1 then log[start].startHands[i] else HandAfter(HandRead(log, start, t - 1, i), log[t - 1], i)
  }

  function MeldsRead(log: seq<GameEvent>, start: nat, t: nat, i: nat): seq<MeldState>
    requires start < t <= |log|
    decreases t
  {
    if t == start + 1 then [] else MeldsAfter(MeldsRead(log, start, t - 1, i), log[t - 1], i)
  }

  /** Sticks on the table: those dealt with and every accepted riichi since, all gone at a win. */
  function SticksRead(log: seq<GameEvent>, start: nat, t: nat): nat
    requires start < t <= |log| && log[start].StartKyoku?
    decreases t
  {
    if t == start + 1 then log[start].kyotaku
    else
      var before := SticksRead(log, start, t - 1);
      if log[t - 1].Hora? then 0 else if log[t - 1].ReachAccepted? then before + 1 else before
  }

  lemma {:induction false} KanExtends(melds: seq<MeldState>, called: Tile, k: nat)
    requires k < |melds| && OpenTriplet(melds[k], TileType(called))
    requires forall j :: 0 <= j < k ==> !OpenTriplet(melds[j], TileType(called))
    ensures Extended(melds, called) ==
      melds[k := melds[k].(tiles := melds[k].tiles + [called], calledTile := Some(called))]
  {
    var after := melds[k := melds[k].(tiles := melds[k].tiles + [called], calledTile := Some(called))];
    if k == 0 {
      assert after == [after[0]] + melds[1..];
    } else {
      KanExtends(melds[1..], called, k - 1);
      assert after == [melds[0]] + after[1..];
      assert after[1..] == melds[1..][k - 1 := after[k]];
    }
  }

  lemma KanTargetIsFirst(melds: seq<MeldState>, called: Tile)
    requires AddedKanTarget(melds, called).Some?
    ensures var k := AddedKanTarget(melds, called).value;
      Extended(melds, called) ==
        melds[k := melds[k].(tiles := melds[k].tiles + [called], calledTile := Some(called))]
  {
    var k := AddedKanTarget(melds, called).value;
    assert OpenTriplet(melds[k], TileType(called));
    forall j | 0 <= j < k
      ensures !OpenTriplet(melds[j], TileType(called))
    {
    }
    KanExtends(melds, called, k);
  }

  predicate SeatMoves(s: FoldState, s1: FoldState, e: GameEvent, i: nat)
    requires FoldFits(s) && i < s.mode.SeatCount()
  {
    && FoldFits(s1) && s1.mode == s.mode
    && s1.hands[i] == HandAfter(s.hands[i], e, i) && s1.melds[i] == MeldsAfter(s.melds[i], e, i)
  }

  lemma MeldMoves(s: FoldState, actor: Seat, consumed: seq<Tile>, meld: MeldState, i: nat)
    requires FoldFits(s) && actor < s.mode.SeatCount() && i < s.mode.SeatCount()
    requires TakeMeld(s, actor, consumed, meld).Some?
    ensures var s1 := TakeMeld(s, actor, consumed, meld).value;
      && FoldFits(s1) && s1.mode == s.mode
      && s1.hands[i] == (if actor == i then DropAll(s.hands[i], consumed) else s.hands[i])
      && s1.melds[i] == (if actor == i then s.melds[i] + [meld] else s.melds[i])
  {
    hide RemoveTiles, DropAll;
    RemovingDropsAll(s.hands[actor], consumed);
  }

  lemma KanMoves(s: FoldState, actor: Seat, called: Tile, i: nat)
    requires FoldFits(s) && actor < s.mode.SeatCount() && i < s.mode.SeatCount() && AddKan(s, actor, called).Some?
    ensures var s1 := AddKan(s, actor, called).value;
      && FoldFits(s1) && s1.mode == s.mode
      && s1.hands[i] == (if actor == i then DropFirst(s.hands[i], called) else s.hands[i])
      && s1.melds[i] == (if actor == i then Extended(s.melds[i], called) else s.melds[i])
  {
    hide RemoveTile, AddedKanTarget, DropFirst, Extended;
    RemovingDrops(s.hands[actor], called);
    KanTargetIsFirst(s.melds[actor], called);
  }

  lemma DiscardMoves(s: FoldState, actor: Seat, tile: Tile, i: nat)
    requires FoldFits(s) && actor < s.mode.SeatCount() && i < s.mode.SeatCount() && DiscardTile(s, actor, tile).Some?
    ensures var s1 := DiscardTile(s, actor, tile).value;
      && FoldFits(s1) && s1.mode == s.mode && s1.melds[i] == s.melds[i]
      && s1.hands[i] == (if actor == i then DropFirst(s.hands[i], tile) else s.hands[i])
  {
    hide RemoveTile, DropFirst;
    RemovingDrops(s.hands[actor], tile);
  }

  lemma KitaMoves(s: FoldState, e: GameEvent, i: nat)
    requires FoldFits(s) && ApplyEvent(s, e).Some? && e.Kita? && i < s.mode.SeatCount()
    ensures SeatMoves(s, ApplyEvent(s, e).value, e, i)
  {
    hide DropNorth;
    var hand := s.hands[e.actor];
    var k := NorthIn(hand).value;
    NorthIsDropped(hand, k);
  }

  lemma OthersMove(s: FoldState, e: GameEvent, i: nat)
    requires FoldFits(s) && ApplyEvent(s, e).Some? && i < s.mode.SeatCount()
    requires !MovesTiles(e) && !e.Kita? && !e.StartKyoku?
    ensures SeatMoves(s, ApplyEvent(s, e).value, e, i)
  {
    hide NameSeats, TakeMeld, AddKan, DiscardTile, CallTile, StartHand;
  }

  lemma EventMoves(s: FoldState, e: GameEvent, i: nat)
    requires FoldFits(s) && ApplyEvent(s, e).Some? && !e.StartKyoku? && i < s.mode.SeatCount()
    ensures SeatMoves(s, ApplyEvent(s, e).value, e, i)
  {
    hide TakeMeld, AddKan, DiscardTile, ChiAccepted, SameTypeMeldAccepted, DropAll, DropFirst, Extended;
    if e.Kita? {
      KitaMoves(s, e, i);
    } else if !MovesTiles(e) {
      OthersMove(s, e, i);
    } else {
      match e {
        case Dahai(actor, tile) => DiscardMoves(s, actor, tile, i);
        case AddedKan(actor, called, _) => KanMoves(s, actor, called, i);
        case ClosedKan(actor, consumed) => MeldMoves(s, actor, consumed, MeldState(consumed, false, None, None), i);
        case OpenPon(actor, target, called, consumed) =>
          MeldMoves(s, actor, consumed, MeldState(consumed + [called], true, Some(target), Some(called)), i);
        case OpenChi(actor, target, called, consumed) =>
          MeldMoves(s, actor, consumed, MeldState(consumed + [called], true, Some(target), Some(called)), i);
        case OpenKan(actor, target, called, consumed) =>
          MeldMoves(s, actor, consumed, MeldState(consumed + [called], true, Some(target), Some(called)), i);
      }
    }
  }

  lemma DealMoves(s: FoldState, e: GameEvent, i: nat)
    requires FoldFits(s) && ApplyEvent(s, e).Some? && e.StartKyoku? && i < s.mode.SeatCount()
    ensures |e.startHands| == s.mode.SeatCount()
    ensures var s1 := ApplyEvent(s, e).value;
      FoldFits(s1) && s1.mode == s.mode && s1.hands[i] == e.startHands[i] && s1.melds[i] == []
  {
  }

  /** Anywhere in a hand each seat's concealed tiles, in order, and its melds are those the log says. */
  lemma {:induction false} FoldShowsTiles(mode: GameMode, log: seq<GameEvent>, start: nat, t: nat, i: nat)
    requires InOneHand(log, start, t) && Fold(mode, log[..t]).Some? && i < mode.SeatCount()
    ensures |log[start].startHands| == mode.SeatCount()
    ensures var s := Fold(mode, log[..t]).value;
      s.hands[i] == HandRead(log, start, t, i) && s.melds[i] == MeldsRead(log, start, t, i)
    decreases t
  {
    hide ApplyEvent, Fold, FoldFits, HandAfter, MeldsAfter;
    FoldBefore(mode, log, t);
    var before := Fold(mode, log[..t - 1]).value;
    if t == start + 1 {
      DealMoves(before, log[start], i);
    } else {
      FoldShowsTiles(mode, log, start, t - 1, i);
      EventMoves(before, log[t - 1], i);
    }
  }

  // ----- The round -------------------------------------------------------------------------------------

  predicate RoundStays(s: FoldState, s1: FoldState, e: GameEvent) {
    s.round.Some? ==>
      && s1.round.Some?
      && s1.round.value.round == s.round.value.round && s1.round.value.kyoku == s.round.value.kyoku
      && s1.round.value.dealer == s.round.value.dealer && s1.round.value.honba == s.round.value.honba
      && s1.round.value.kyotaku ==
           if e.Hora? then 0 else if e.ReachAccepted? then s.round.value.kyotaku + 1 else s.round.value.kyotaku
  }

  lemma EventKeepsRound(s: FoldState, e: GameEvent)
    requires FoldFits(s) && ApplyEvent(s, e).Some? && !e.StartKyoku?
    ensures RoundStays(s, ApplyEvent(s, e).value, e)
  {
    hide RemoveTile, RemoveTiles, Without, ChiAccepted, SameTypeMeldAccepted, AddedKanTarget, NorthIn, FoldFits;
  }

  lemma DealShowsRound(s: FoldState, e: GameEvent)
    requires FoldFits(s) && ApplyEvent(s, e).Some? && e.StartKyoku?
    ensures var r := ApplyEvent(s, e).value.round;
      && r.Some? && r.value.round == e.bakaze && r.value.kyoku == e.kyoku && r.value.dealer == e.oya
      && r.value.honba == e.honba && r.value.kyotaku == e.kyotaku
  {
    hide Repeat;
  }

  /** Anywhere in a hand the table shows the wind, number, dealer and honba it was dealt with, and its sticks. */
  lemma {:induction false} FoldShowsTheRound(mode: GameMode, log: seq<GameEvent>, start: nat, t: nat)
    requires InOneHand(log, start, t) && Fold(mode, log[..t]).Some?
    ensures var r := Fold(mode, log[..t]).value.round;
      && r.Some? && r.value.round == log[start].bakaze && r.value.kyoku == log[start].kyoku
      && r.value.dealer == log[start].oya && r.value.honba == log[start].honba
      && r.value.kyotaku == SticksRead(log, start, t)
    decreases t
  {
    hide ApplyEvent, Fold, FoldFits;
    FoldBefore(mode, log, t);
    var before := Fold(mode, log[..t - 1]).value;
    if t == start + 1 {
      DealShowsRound(before, log[start]);
    } else {
      FoldShowsTheRound(mode, log, start, t - 1);
      EventKeepsRound(before, log[t - 1]);
    }
  }

  // ----- The players ------------------------------------------------------------------------------------

  /** The name last announced for a seat, or the one it has until then. */
  function NameRead(log: seq<GameEvent>, t: nat, i: nat): string
    requires t <= |log| && i < 10
    decreases t
  {
    if t == 0 then "Seat " + ['0' + i as char]
    else if log[t - 1].StartGame? && log[t - 1].names.Some? && i < |log[t - 1].names.value| then
      log[t - 1].names.value[i]
    else NameRead(log, t - 1, i)
  }

  lemma EventNames(s: FoldState, e: GameEvent, i: nat)
    requires FoldFits(s) && ApplyEvent(s, e).Some? && i < s.mode.SeatCount()
    ensures var s1 := ApplyEvent(s, e).value;
      && FoldFits(s1) && s1.mode == s.mode
      && s1.participants[i].id == s.participants[i].id && s1.participants[i].kind == s.participants[i].kind
      && s1.participants[i].displayName ==
           if e.StartGame? && e.names.Some? && i < |e.names.value| then e.names.value[i]
           else s.participants[i].displayName
  {
    hide RemoveTile, RemoveTiles, Without, ChiAccepted, SameTypeMeldAccepted, AddedKanTarget, NorthIn, FoldFits;
    ApplyKeepsFit(s, e);
    EventKeepsPlayers(s, e);
    FitsSeats(s);
  }

  lemma FitsSeats(s: FoldState)
    requires FoldFits(s)
    ensures |s.participants| == s.mode.SeatCount()
  {
  }

  lemma EventKeepsPlayers(s: FoldState, e: GameEvent)
    requires FoldFits(s) && ApplyEvent(s, e).Some?
    ensures ApplyEvent(s, e).value.participants ==
      if e.StartGame? && e.names.Some? then NameSeats(s.participants, e.names.value) else s.participants
  {
    hide RemoveTile, RemoveTiles, Without, ChiAccepted, SameTypeMeldAccepted, AddedKanTarget, NorthIn, FoldFits;
    hide NameSeats, Repeat;
  }

  /** Players are the replay's own, seat by seat, under the names the log gives them. */
  lemma {:induction false} FoldShowsThePlayers(mode: GameMode, log: seq<GameEvent>, t: nat, i: nat)
    requires t <= |log| && Fold(mode, log[..t]).Some? && i < mode.SeatCount()
    ensures var p := Fold(mode, log[..t]).value.participants[i];
      p.id == "seat" + ['0' + i as char] && p.kind.BuiltInBot? && p.displayName == NameRead(log, t, i)
    decreases t
  {
    hide ApplyEvent, FoldFits;
    if t == 0 {
      NewPlayers(mode, i);
      assert log[..0] == [];
    } else {
      FoldBefore(mode, log, t);
      FoldShowsThePlayers(mode, log, t - 1, i);
      EventNames(Fold(mode, log[..t - 1]).value, log[t - 1], i);
    }
  }

  lemma NewPlayers(mode: GameMode, i: nat)
    requires i < mode.SeatCount()
    ensures var p := NewState(mode).participants[i];
      p.id == "seat" + ['0' + i as char] && p.kind.BuiltInBot? && p.displayName == "Seat " + ['0' + i as char]
  {
  }
}
