// Folding the canonical log into table states, one event at a time.

module ReplayFold {
  import opened Wrappers
  import opened Sequences
  import opened Checked
  import opened Domain
  import opened Projection
  import opened TileRuns

  datatype RoundInfo = RoundInfo(round: Wind, kyoku: U8, dealer: Seat, honba: U8, kyotaku: nat)

  datatype FoldState = FoldState(
    mode: GameMode,
    participants: seq<Participant>,
    scores: seq<I32>,
    hands: seq<seq<Tile>>,
    discards: seq<seq<Tile>>,
    melds: seq<seq<MeldState>>,
    riichi: seq<bool>,
    riichiPending: seq<bool>,
    riichiDiscardIndex: seq<Option<nat>>,
    doraIndicators: seq<Tile>,
    kyokuActive: bool,
    round: Option<RoundInfo>)

  /**
   * One entry per seat in every list, a riichi mark only on an existing discard, and both it and a
   * pending one only where riichi was declared.
   */
  predicate FoldFits(s: FoldState) {
    var n := s.mode.SeatCount();
    && |s.participants| == n && |s.scores| == n && |s.hands| == n && |s.discards| == n && |s.melds| == n
    && |s.riichi| == n && |s.riichiPending| == n && |s.riichiDiscardIndex| == n
    && (forall i :: 0 <= i < n && s.riichiDiscardIndex[i].Some? ==>
          s.riichiDiscardIndex[i].value < |s.discards[i]| && s.riichi[i])
    && (forall i :: 0 <= i < n && s.riichiPending[i] ==> s.riichi[i])
  }

  function Repeat<T>(n: nat, x: T): (r: seq<T>)
    ensures |r| == n && forall i :: 0 <= i < n ==> r[i] == x
  {
    seq(n, i => x)
  }

  function SeatName(i: nat): string
    requires i < 10
  {
    "seat" + ['0' + i as char]
  }

  function NewState(mode: GameMode): (s: FoldState)
    ensures FoldFits(s)
  {
    var n := mode.SeatCount();
    FoldState(mode,
      seq(n, i requires 0 <= i < n => Participant(SeatName(i), "Seat " + ['0' + i as char], BuiltInBot)),
      Repeat(n, 25_000), Repeat(n, []), Repeat(n, []), Repeat(n, []), Repeat(n, false), Repeat(n, false),
      Repeat(n, None), [], false, None)
  }

  // ----- Hands and melds --------------------------------------------------------------------------

  function Without(hand: seq<Tile>, k: nat): (r: seq<Tile>)
    requires k < |hand|
    ensures multiset(r) + multiset{hand[k]} == multiset(hand)
  {
    assert hand == hand[..k] + [hand[k]] + hand[k + 1..];
    hand[..k] + hand[k + 1..]
  }

  /** The hand less its first copy of a tile. */
  function RemoveTile(hand: seq<Tile>, wanted: Tile): (r: Option<seq<Tile>>)
    ensures r.Some? <==> wanted in hand
    ensures r.Some? ==> multiset(r.value) + multiset{wanted} == multiset(hand)
  {
    match First(hand, (t: Tile) => t == wanted)
    case None => None
    case Some(k) => Some(Without(hand, k))
  }

  /** The hand less every tile of a list, one after another. */
  function RemoveTiles(hand: seq<Tile>, wanted: seq<Tile>): (r: Option<seq<Tile>>)
    ensures r.Some? ==> multiset(r.value) + multiset(wanted) == multiset(hand)
  {
    if wanted == [] then Some(hand)
    else
      var last := |wanted| - 1;
      assert wanted == wanted[..last] + [wanted[last]];
      match RemoveTiles(hand, wanted[..last])
      case None => None
      case Some(rest) => RemoveTile(rest, wanted[last])
  }

  /**
   * The check on a called sequence: three sorted, consecutive number-tile types. Its last clause
   * compares the first type's suit with itself, as the replay builder does.
   */
  predicate ChiAccepted(called: Tile, consumed: seq<Tile>) {
    var types := Sorted(TypesOf(consumed + [called]));
    && |types| == 3
    && (forall i :: 0 <= i < |types| ==> types[i] < 27)
    && (forall i :: 0 <= i < |types| - 1 ==> types[i + 1] == types[i] + 1)
    && types[0] / 9 == types[0] / 9
  }

  predicate SameTypeMeldAccepted(called: Tile, consumed: seq<Tile>) {
    && (|consumed| + 1 == 3 || |consumed| + 1 == 4)
    && forall i :: 0 <= i < |consumed| ==> TileType(consumed[i]) == TileType(called)
  }

  /** Where an added kan goes: the first open triplet of the called tile's type. */
  function AddedKanTarget(melds: seq<MeldState>, called: Tile): (r: Option<nat>)
    ensures r.Some? ==> r.value < |melds| && melds[r.value].isOpen && |melds[r.value].tiles| == 3
  {
    First(melds, (m: MeldState) => m.isOpen && |m.tiles| == 3
      && forall i :: 0 <= i < |m.tiles| ==> TileType(m.tiles[i]) == TileType(called))
  }

  // ----- One event --------------------------------------------------------------------------------

  function NameSeats(participants: seq<Participant>, names: seq<string>): (r: seq<Participant>)
    ensures |r| == |participants|
  {
    seq(|participants|, i requires 0 <= i < |participants| =>
      if i < |names| then participants[i].(displayName := names[i]) else participants[i])
  }

  function StartHand(s: FoldState, e: GameEvent): Option<FoldState>
    requires e.StartKyoku?
  {
    var n := s.mode.SeatCount();
    if s.kyokuActive || |e.startScores| != n || |e.startHands| != n then None
    else Some(s.(
      round := Some(RoundInfo(e.bakaze, e.kyoku, e.oya, e.honba, e.kyotaku)),
      scores := e.startScores, hands := e.startHands,
      discards := Repeat(n, []), melds := Repeat(n, []), riichi := Repeat(n, false),
      riichiPending := Repeat(n, false), riichiDiscardIndex := Repeat(n, None),
      doraIndicators := [e.doraMarker], kyokuActive := true))
  }

  function DiscardTile(s: FoldState, actor: Seat, tile: Tile): Option<FoldState>
    requires FoldFits(s) && actor < s.mode.SeatCount()
  {
    match RemoveTile(s.hands[actor], tile)
    case None => None
    case Some(hand) =>
      var s1 :=
        if s.riichiPending[actor] then
          s.(riichiDiscardIndex := s.riichiDiscardIndex[actor := Some(|s.discards[actor]|)],
             riichiPending := s.riichiPending[actor := false])
        else s;
      Some(s1.(hands := s.hands[actor := hand], discards := s.discards[actor := s.discards[actor] + [tile]]))
  }

  function TakeMeld(s: FoldState, actor: Seat, consumed: seq<Tile>, meld: MeldState): Option<FoldState>
    requires FoldFits(s) && actor < s.mode.SeatCount()
  {
    match RemoveTiles(s.hands[actor], consumed)
    case None => None
    case Some(hand) =>
      Some(s.(hands := s.hands[actor := hand], melds := s.melds[actor := s.melds[actor] + [meld]]))
  }

  function CallTile(s: FoldState, actor: Seat, target: Seat, called: Tile, consumed: seq<Tile>, accepted: bool)
    : Option<FoldState>
    requires FoldFits(s)
  {
    if actor == target || !accepted || actor >= s.mode.SeatCount() then None
    else TakeMeld(s, actor, consumed, MeldState(consumed + [called], true, Some(target), Some(called)))
  }

  function AddKan(s: FoldState, actor: Seat, called: Tile): Option<FoldState>
    requires FoldFits(s) && actor < s.mode.SeatCount()
  {
    match RemoveTile(s.hands[actor], called)
    case None => None
    case Some(hand) =>
      match AddedKanTarget(s.melds[actor], called)
      case None => None
      case Some(k) =>
        var meld := s.melds[actor][k].(tiles := s.melds[actor][k].tiles + [called], calledTile := Some(called));
        Some(s.(hands := s.hands[actor := hand], melds := s.melds[actor := s.melds[actor][k := meld]]))
  }

  function NorthIn(hand: seq<Tile>): (r: Option<nat>)
    ensures r.Some? ==> r.value < |hand| && TileType(hand[r.value]) == NORTH_TYPE
  {
    First(hand, (t: Tile) => TileType(t) == NORTH_TYPE)
  }

  function SetScores(s: FoldState, scores: Option<seq<I32>>): Option<FoldState> {
    match scores
    case None => Some(s)
    case Some(v) => if |v| != s.mode.SeatCount() then None else Some(s.(scores := v))
  }

  function AddStick(round: Option<RoundInfo>): Option<RoundInfo> {
    match round
    case None => None
    case Some(r) => Some(r.(kyotaku := r.kyotaku + 1))
  }

  function TakePot(round: Option<RoundInfo>): Option<RoundInfo> {
    match round
    case None => None
    case Some(r) => Some(r.(kyotaku := 0))
  }

  predicate AllowedOutsideHands(e: GameEvent) { e.StartGame? || e.StartKyoku? || e.EndGame? }

  /** The state after an event, or nothing if the log is not a game. */
  function ApplyEvent(s: FoldState, e: GameEvent): Option<FoldState>
    requires FoldFits(s)
  {
    if !s.kyokuActive && !AllowedOutsideHands(e) then None
    else match e
      case StartGame(names) =>
        Some(if names.Some? then s.(participants := NameSeats(s.participants, names.value)) else s)
      case StartKyoku(_, _, _, _, _, _, _, _) => StartHand(s, e)
      case Tsumo(actor, tile) =>
        if actor >= s.mode.SeatCount() then None
        else Some(s.(hands := s.hands[actor := s.hands[actor] + [tile]]))
      case Dahai(actor, tile) => if actor >= s.mode.SeatCount() then None else DiscardTile(s, actor, tile)
      case OpenPon(actor, target, called, consumed) =>
        CallTile(s, actor, target, called, consumed, SameTypeMeldAccepted(called, consumed))
      case OpenChi(actor, target, called, consumed) =>
        CallTile(s, actor, target, called, consumed, ChiAccepted(called, consumed))
      case OpenKan(actor, target, called, consumed) =>
        CallTile(s, actor, target, called, consumed, SameTypeMeldAccepted(called, consumed))
      case AddedKan(actor, called, _) => if actor >= s.mode.SeatCount() then None else AddKan(s, actor, called)
      case ClosedKan(actor, consumed) =>
        if consumed == [] || (exists i :: 0 <= i < |consumed| && TileType(consumed[i]) != TileType(consumed[0]))
          || actor >= s.mode.SeatCount() then None
        else TakeMeld(s, actor, consumed, MeldState(consumed, false, None, None))
      case Dora(marker) => Some(s.(doraIndicators := s.doraIndicators + [marker]))
      case Reach(actor) =>
        if actor >= s.mode.SeatCount() then None
        else Some(s.(riichi := s.riichi[actor := true], riichiPending := s.riichiPending[actor := true]))
      case ReachAccepted(actor) =>
        if actor >= s.mode.SeatCount() then None
        else Some(s.(riichi := s.riichi[actor := true], round := AddStick(s.round)))
      case Hora(_, _, _, _, scores) =>
        match SetScores(s, scores) {
          case None => None
          case Some(s1) => Some(s1.(round := TakePot(s1.round)))
        }
      case Ryukyoku(_, hands, _, scores) =>
        if hands.Some? && |hands.value| != s.mode.SeatCount() then None
        else SetScores(if hands.Some? then s.(hands := hands.value) else s, scores)
      case Kita(actor) =>
        if actor >= s.mode.SeatCount() then None
        else match NorthIn(s.hands[actor]) {
          case None => None
          case Some(k) => Some(s.(hands := s.hands[actor := Without(s.hands[actor], k)]))
        }
      case EndKyoku => Some(s.(kyokuActive := false))
      case EndGame => Some(s)
  }
}
