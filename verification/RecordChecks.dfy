// The checks on hands, records, rosters and results, each spelled out in full.

module RecordChecks {
  import opened Checked
  import opened Domain
  import opened EventLog
  import opened TileRuns
  import opened WinValues
  import opened WinHands
  import opened Results
  import opened Settlement
  import opened ReplayBoundary
  import opened ReplayFrames
  import opened ReplayJoin

  // ----- A completed hand ------------------------------------------------------------------------------

  /** Four-player tables use every tile, three-player ones none from the second to the eighth type. */
  predicate InPlay(t: Tile, mode: GameMode) { mode.SeatCount() == 3 ==> t < 4 || t >= 32 }

  predicate AllInPlay(tiles: seq<Tile>, mode: GameMode) { forall i :: 0 <= i < |tiles| ==> InPlay(tiles[i], mode) }

  lemma InPlayIff(t: Tile, mode: GameMode)
    ensures TileAllowed(t, mode) <==> InPlay(t, mode)
  {
  }

  lemma AllInPlayIff(tiles: seq<Tile>, mode: GameMode)
    ensures TilesAllowed(tiles, mode) <==> AllInPlay(tiles, mode)
  {
    hide TileAllowed, InPlay;
    forall i | 0 <= i < |tiles|
      ensures TileAllowed(tiles[i], mode) <==> InPlay(tiles[i], mode)
    {
      InPlayIff(tiles[i], mode);
    }
  }

  /** Three tiles or four, all of one type, or at a four-player table a run of one suit. */
  ghost predicate MeldTilesStand(meld: ResultMeld, mode: GameMode) {
    match meld.kind
    case SequenceMeld => mode.SeatCount() == 4 && SameSuitRun(TypesOf(meld.tiles))
    case TripletMeld => |meld.tiles| == 3 && OneType(meld.tiles)
    case OpenKanMeld => |meld.tiles| == 4 && OneType(meld.tiles)
    case ClosedKanMeld => |meld.tiles| == 4 && OneType(meld.tiles)
    case AddedKanMeld => |meld.tiles| == 4 && OneType(meld.tiles)
  }

  predicate OneType(tiles: seq<Tile>) {
    forall i, j :: 0 <= i < |tiles| && 0 <= j < |tiles| ==> TileType(tiles[i]) == TileType(tiles[j])
  }

  /** A closed kan comes from nobody; every other meld is open, with one of its tiles from another seat. */
  predicate MeldSourceStands(meld: ResultMeld, seat: Seat, seats: nat) {
    if meld.kind.ClosedKanMeld? then !meld.isOpen && meld.fromWho.None? && meld.calledTile.None?
    else
      && meld.isOpen && meld.fromWho.Some? && meld.calledTile.Some?
      && meld.fromWho.value != seat && meld.fromWho.value < seats && meld.calledTile.value in meld.tiles
  }

  ghost predicate MeldStands(meld: ResultMeld, seat: Seat, mode: GameMode, seats: nat) {
    AllInPlay(meld.tiles, mode) && MeldTilesStand(meld, mode) && MeldSourceStands(meld, seat, seats)
  }

  lemma {:induction false} SortedHolds(s: seq<nat>)
    ensures multiset(Sorted(s)) == multiset(s)
  {
  }

  lemma OneTypeIff(tiles: seq<Tile>)
    ensures OneType(tiles) <==>
      var kinds := Sorted(TypesOf(tiles)); forall i :: 0 <= i < |kinds| ==> kinds[i] == kinds[0]
  {
    hide Sorted;
    var types := TypesOf(tiles);
    var kinds := Sorted(types);
    SortedHolds(types);
    if OneType(tiles) {
      forall i | 0 <= i < |kinds|
        ensures kinds[i] == kinds[0]
      {
        assert kinds[i] in multiset(types) && kinds[0] in multiset(types);
      }
    }
    if forall i :: 0 <= i < |kinds| ==> kinds[i] == kinds[0] {
      forall i | 0 <= i < |tiles|
        ensures kinds != [] && TileType(tiles[i]) == kinds[0]
      {
        assert types[i] in multiset(kinds);
      }
    }
  }

  lemma MeldFitsIff(meld: ResultMeld, seat: Seat, mode: GameMode, seats: nat)
    ensures MeldFits(meld, seat, mode, seats) <==> MeldStands(meld, seat, mode, seats)
  {
    hide Sorted, TypesOf, SameSuitRun, OneType, TileAllowed, InPlay;
    AllInPlayIff(meld.tiles, mode);
    OneTypeIff(meld.tiles);
    if meld.kind.SequenceMeld? { AcceptedSequenceIff(meld, mode); }
    if meld.calledTile.Some? { InPlayIff(meld.calledTile.value, mode); }
  }

  /** Fourteen tiles with melds counted as three, no tile twice, and the winning one where it is said to be. */
  ghost predicate HandStands(h: WinHand, seat: Seat, mode: GameMode, seats: nat) {
    && |h.melds| <= 4 && |h.concealed| == 14 - 3 * |h.melds|
    && AllInPlay(h.concealed, mode)
    && h.winningTileIndex < |h.concealed| && h.winningTile == h.concealed[h.winningTileIndex]
    && (forall i, j :: 0 <= i < j < |AllTiles(h.concealed, h.melds)| ==>
          AllTiles(h.concealed, h.melds)[i] != AllTiles(h.concealed, h.melds)[j])
    && (forall i :: 0 <= i < |h.melds| ==> MeldStands(h.melds[i], seat, mode, seats))
    && h.complete
  }

  /** What a hand is worth: its yaku, all known, make up the evaluation, and the points are the table's. */
  predicate WorthStands(h: WinHand) {
    && (forall i :: 0 <= i < |h.yaku| ==> h.yaku[i].named) && OfOneKind(h.yaku, h.evaluation) && h.yaku != []
    && (match h.evaluation
        case Ordinary(han, fu, limit) =>
          && Count(h.yaku, h.evaluation) == han && FuFits(fu)
          && (limit.Some? ==> LimitDue(limit.value, han, fu))
        case Yakuman(times) => Count(h.yaku, h.evaluation) == times <= 19)
    && (h.winPoints == h.points.dealer || h.winPoints == h.points.other)
  }

  lemma CountIsPositive(yaku: seq<YakuValue>, e: WinEvaluation)
    requires yaku != [] && OfOneKind(yaku, e)
    ensures Count(yaku, e) > 0
  {
    assert KindFits(yaku[|yaku| - 1], e);
  }

  lemma WorthIff(h: WinHand)
    ensures ValuesFit(h.yaku, h.evaluation) && PointsFit(h.evaluation, h.points, h.winPoints) <==> WorthStands(h)
  {
    hide LimitOf, LimitDue;
    YakuTotalIff(h.yaku, h.evaluation);
    if h.yaku != [] && OfOneKind(h.yaku, h.evaluation) { CountIsPositive(h.yaku, h.evaluation); }
    if h.evaluation.Ordinary? && h.evaluation.han > 0 && FuFits(h.evaluation.fu) && h.evaluation.limit.Some? {
      StatedLimitIff(h.evaluation.han, h.evaluation.fu, h.evaluation.limit.value);
    }
  }

  /** A hand is accepted exactly when its tiles stand and it is worth what it says. */
  lemma HandFitsIff(h: WinHand, seat: Seat, mode: GameMode, seats: nat)
    ensures HandFits(h, seat, mode, seats) <==> HandStands(h, seat, mode, seats) && WorthStands(h)
  {
    hide MeldFits, MeldStands, WorthStands, ValuesFit, PointsFit, TileAllowed, InPlay;
    WorthIff(h);
    AllInPlayIff(h.concealed, mode);
    InPlayIff(h.winningTile, mode);
    forall i | 0 <= i < |h.melds|
      ensures MeldFits(h.melds[i], seat, mode, seats) <==> MeldStands(h.melds[i], seat, mode, seats)
    {
      MeldFitsIff(h.melds[i], seat, mode, seats);
    }
  }

  /** Paid is what the table says for the winner's role, once the dealer is known. */
  lemma PaymentIff(win: WinResult, dealer: Seat)
    ensures PaymentFits(win, dealer) <==>
      && Lookable(win.hand.evaluation)
      && win.hand.winPoints == if win.seat == dealer then win.hand.points.dealer else win.hand.points.other
  {
    hide Lookable;
  }

  // ----- A record and a roster ---------------------------------------------------------------------------

  /** A record of a hand by these players, spelled out. */
  ghost predicate RecordStands(r: KyokuResultRecord, roster: seq<Participant>) {
    var changes, wins := r.settlement.changes, r.wins;
    && r.version == 1 && r.kyokuSequence > 0 && |roster| == |changes| == r.mode.SeatCount()
    && (forall i :: 0 <= i < |roster| ==>
          && roster[i].id != "" && changes[i].participantId == roster[i].id && changes[i].seat == i
          && changes[i].after - changes[i].before == changes[i].delta)
    && (forall i, j :: 0 <= i < j < |roster| ==> roster[i].id != roster[j].id)
    && (wins == [] ==>
          && r.settlement.drawReason.Some? && r.drawEventDeltaAdjustment.Some?
          && |r.drawEventDeltaAdjustment.value| == |roster|)
    && (wins != [] ==> r.settlement.drawReason.None? && r.drawEventDeltaAdjustment.None?)
    && (forall k :: 0 <= k < |wins| ==>
          && wins[k].seat < |roster| && wins[k].target < |roster| && wins[k].winner == roster[wins[k].seat].id
          && (wins[k].tsumo <==> wins[k].target == wins[k].seat) && wins[k].eventIndex < r.endEventIndex
          && wins[k].hand.winPoints > 0)
    && (forall k, l :: 0 <= k < l < |wins| ==> wins[k].eventIndex < wins[l].eventIndex && wins[k].seat != wins[l].seat)
    && (forall k :: 0 <= k < |wins| ==>
          HandStands(wins[k].hand, wins[k].seat, r.mode, |roster|) && WorthStands(wins[k].hand))
  }

  lemma HandsFitIff(r: KyokuResultRecord)
    ensures HandsFit(r.wins, r.mode) <==>
      forall k :: 0 <= k < |r.wins| ==>
        HandStands(r.wins[k].hand, r.wins[k].seat, r.mode, r.mode.SeatCount()) && WorthStands(r.wins[k].hand)
  {
    hide HandFits, HandStands, WorthStands;
    forall k | 0 <= k < |r.wins|
      ensures HandFits(r.wins[k].hand, r.wins[k].seat, r.mode, r.mode.SeatCount()) <==>
        HandStands(r.wins[k].hand, r.wins[k].seat, r.mode, r.mode.SeatCount()) && WorthStands(r.wins[k].hand)
    {
      HandFitsIff(r.wins[k].hand, r.wins[k].seat, r.mode, r.mode.SeatCount());
    }
  }

  lemma SettlementFitsIff(changes: seq<ScoreChange>, roster: seq<Participant>)
    ensures SettlementFits(changes, roster) <==>
      && |changes| == |roster|
      && (forall i :: 0 <= i < |roster| ==>
            && roster[i].id != "" && changes[i].participantId == roster[i].id && changes[i].seat == i
            && changes[i].after - changes[i].before == changes[i].delta)
      && forall i, j :: 0 <= i < j < |roster| ==> roster[i].id != roster[j].id
  {
    if |changes| == |roster| {
      forall i | 0 <= i < |roster|
        ensures ChangeFits(changes[i], i, roster[i]) <==>
          && roster[i].id != "" && changes[i].participantId == roster[i].id && changes[i].seat == i
          && changes[i].after - changes[i].before == changes[i].delta
      {
        SeatChangeIff(changes[i], i, roster[i]);
      }
    }
  }

  lemma SeatChangeIff(c: ScoreChange, i: nat, p: Participant)
    ensures ChangeFits(c, i, p) <==>
      p.id != "" && c.participantId == p.id && c.seat == i && c.after - c.before == c.delta
  {
  }

  /** A stored record is accepted exactly when it stands. */
  lemma RecordValidIff(r: KyokuResultRecord, roster: seq<Participant>)
    ensures RecordValid(r, roster) <==> RecordStands(r, roster)
  {
    hide HandsFit, HandStands, WorthStands, SettlementFits;
    HandsFitIff(r);
    SettlementFitsIff(r.settlement.changes, roster);
    if RecordStands(r, roster) {
      forall k | 0 <= k < |r.wins|
        ensures WinFits(r.wins[k], roster, r.endEventIndex)
      {
      }
    }
    if RecordValid(r, roster) {
      forall k | 0 <= k < |r.wins|
        ensures WinFits(r.wins[k], roster, r.endEventIndex)
      {
      }
    }
  }

  // ----- Records beside the log ---------------------------------------------------------------------------

  /** Record `p` is of the hand begun at `start`: it ends with the hand, before `next`, and its wins are the hand's. */
  predicate StandsAt(log: seq<GameEvent>, mode: GameMode, start: nat, next: nat, r: KyokuResultRecord, p: nat) {
    && r.kyokuSequence == p + 1 && r.mode == mode
    && start < r.endEventIndex < next && r.endEventIndex < |log| && log[r.endEventIndex] == EndKyoku
    && (forall k :: 0 <= k < |r.wins| ==>
          start < r.wins[k].eventIndex < r.endEventIndex && log[r.wins[k].eventIndex].Hora?)
    && forall k, l :: 0 <= k < l < |r.wins| ==> r.wins[k].eventIndex < r.wins[l].eventIndex
  }

  lemma {:induction false} EventsRise(wins: seq<WinResult>, k: nat, l: nat)
    requires k < l < |wins| && forall n :: 0 <= n < |wins| - 1 ==> wins[n].eventIndex < wins[n + 1].eventIndex
    ensures wins[k].eventIndex < wins[l].eventIndex
    decreases l
  {
    if k < l - 1 { EventsRise(wins, k, l - 1); }
  }

  lemma {:induction false} RisingFits(wins: seq<WinResult>, start: nat, k: nat)
    requires k < |wins| && (forall n :: 0 <= n < |wins| ==> start < wins[n].eventIndex)
    requires forall n, l :: 0 <= n < l < |wins| ==> wins[n].eventIndex < wins[l].eventIndex
    ensures start + 1 + k <= wins[k].eventIndex
  {
    if k > 0 { RisingFits(wins, start, k - 1); }
  }

  lemma StandsAtIff(log: seq<GameEvent>, mode: GameMode, starts: seq<nat>, r: KyokuResultRecord, p: nat)
    requires p < |starts|
    ensures RecordInPlace(log, mode, starts, r, p) <==>
      StandsAt(log, mode, starts[p], if p + 1 < |starts| then starts[p + 1] else |log|, r, p)
  {
    if RecordInPlace(log, mode, starts, r, p) {
      forall k, l | 0 <= k < l < |r.wins|
        ensures r.wins[k].eventIndex < r.wins[l].eventIndex
      {
        EventsRise(r.wins, k, l);
      }
    }
    if StandsAt(log, mode, starts[p], if p + 1 < |starts| then starts[p + 1] else |log|, r, p) && r.wins != [] {
      RisingFits(r.wins, starts[p], |r.wins| - 1);
    }
  }

  /** Where hand `p` gives way to the next one, or the timeline ends. */
  function Until(starts: seq<nat>, p: nat, length: nat): nat { if p + 1 < |starts| then starts[p + 1] else length }

  predicate StandsInFrames(frames: seq<ReplayFrame>, records: seq<KyokuResultRecord>, p: nat)
    requires p < |records| && |records| == |StartsOf(LogOf(frames))|
  {
    var starts := StartsOf(LogOf(frames));
    StandsAt(LogOf(frames), frames[starts[p]].visibleState.mode, starts[p], Until(starts, p, |frames|), records[p], p)
  }

  lemma StandsInFramesIff(frames: seq<ReplayFrame>, records: seq<KyokuResultRecord>, p: nat)
    requires p < |records| && |records| == |StartsOf(LogOf(frames))|
    ensures var starts := StartsOf(LogOf(frames));
      StandsInFrames(frames, records, p) <==>
      RecordInPlace(LogOf(frames), ModesAt(frames, starts)[p], starts, records[p], p)
  {
    hide StartsOf, RecordInPlace, StandsAt;
    var starts := StartsOf(LogOf(frames));
    StandsAtIff(LogOf(frames), ModesAt(frames, starts)[p], starts, records[p], p);
  }

  /** Records fit a timeline exactly when there is one for every hand, in order, each standing in its own. */
  lemma PlacedIff(frames: seq<ReplayFrame>, records: seq<KyokuResultRecord>)
    ensures Placed(frames, records) <==>
      && records != [] && |records| == |StartsOf(LogOf(frames))|
      && forall p :: 0 <= p < |records| ==> StandsInFrames(frames, records, p)
  {
    hide StartsOf, RecordInPlace, StandsInFrames;
    if |records| == |StartsOf(LogOf(frames))| {
      forall p | 0 <= p < |records|
        ensures var starts := StartsOf(LogOf(frames));
          StandsInFrames(frames, records, p) <==>
          RecordInPlace(LogOf(frames), ModesAt(frames, starts)[p], starts, records[p], p)
      {
        StandsInFramesIff(frames, records, p);
      }
    }
  }

  /** The win a record has for a `Hora`: same winner, same discarder, and the tile's type if it was told. */
  predicate WinTold(e: GameEvent, k: nat, w: WinResult) {
    && e.Hora? && w.eventIndex == k && w.seat == e.actor && w.target == e.winTarget
    && (e.winTile.Some? ==> e.winTile.value / 4 == w.hand.winningTile / 4)
  }

  /** The draw, or the win, this event is. */
  predicate EventTold(e: GameEvent, k: nat, r: KyokuResultRecord) {
    if r.wins == [] then e.Ryukyoku? && e.reason == r.settlement.drawReason
    else exists n :: 0 <= n < |r.wins| && WinTold(e, k, r.wins[n])
  }

  /**
   * A record and the terminal events of its hand match exactly when either it has no wins and there
   * is one draw with its reason, or there are as many wins as announcements and each has its own.
   */
  lemma TerminalsMatchIff(log: seq<GameEvent>, terminal: seq<nat>, r: KyokuResultRecord)
    requires TerminalsIn(log, terminal)
    ensures TerminalsMatch(log, terminal, r) <==>
      && |terminal| == (if r.wins == [] then 1 else |r.wins|)
      && forall i :: 0 <= i < |terminal| ==> EventTold(log[terminal[i]], terminal[i], r)
  {
    hide TerminalMatches, EventTold;
    forall i | 0 <= i < |terminal|
      ensures TerminalMatches(log[terminal[i]], terminal[i], r) <==> EventTold(log[terminal[i]], terminal[i], r)
    {
      TerminalMatchIff(log[terminal[i]], terminal[i], r);
    }
  }

  lemma TerminalMatchIff(e: GameEvent, index: nat, r: KyokuResultRecord)
    requires IsTerminal(e)
    ensures TerminalMatches(e, index, r) <==> EventTold(e, index, r)
  {
    if e.Hora? {
      if HoraMatches(e, index, r.wins) {
        var k :| 0 <= k < |r.wins| && r.wins[k].eventIndex == index && r.wins[k].seat == e.actor
          && r.wins[k].target == e.winTarget
          && (e.winTile.Some? ==> TileType(e.winTile.value) == TileType(r.wins[k].hand.winningTile));
        assert WinTold(e, index, r.wins[k]);
      }
      if exists k :: 0 <= k < |r.wins| && WinTold(e, index, r.wins[k]) {
        var k :| 0 <= k < |r.wins| && WinTold(e, index, r.wins[k]);
        assert HoraMatches(e, index, r.wins);
      }
    }
  }

  // ----- Results and rosters -------------------------------------------------------------------------------

  /** Some character of the name is not white space, as Unicode has it. */
  predicate HasName(name: string) {
    exists i :: 0 <= i < |name| &&
      !(var n := name[i] as int;
        || 9 <= n <= 13 || n == 32 || n == 133 || n == 160 || n == 5760 || 8192 <= n <= 8202
        || n == 8232 || n == 8233 || n == 8239 || n == 8287 || n == 12288)
  }

  lemma BlankIff(name: string)
    ensures Blank(name) <==> !HasName(name)
  {
  }

  /** A roster is taken exactly when it has the mode's size, no two ids alike, and a name for everyone. */
  lemma RosterValidIff(mode: GameMode, players: seq<Participant>)
    ensures RosterValid(mode, players) <==>
      && |players| == (if mode.FourPlayerRedEast? || mode.FourPlayerRedHalf? then 4 else 3)
      && (forall i, j :: 0 <= i < j < |players| ==> players[i].id != players[j].id)
      && forall i :: 0 <= i < |players| ==> HasName(players[i].displayName)
  {
    hide Blank, HasName;
    forall i | 0 <= i < |players|
      ensures Blank(players[i].displayName) <==> !HasName(players[i].displayName)
    {
      BlankIff(players[i].displayName);
    }
  }

  /** Better placed: more points, or the same from a lower seat. */
  function AheadOf(scores: seq<I32>, seat: nat): set<nat>
    requires seat < |scores|
  {
    set other: nat |
      && other < |scores|
      && (scores[other] > scores[seat] || (scores[other] == scores[seat] && other < seat))
  }

  predicate PlaceStands(r: MatchResult, i: nat)
    requires i < |r.players| == |r.finalScores|
  {
    var p := r.players[i];
    && p.seat == i && p.participantId != "" && HasName(p.displayName) && p.finalScore == r.finalScores[i]
    && p.rank == |AheadOf(r.finalScores, i)| + 1
  }

  /** A final result is valid exactly when every seat's line stands and no two ids are alike. */
  lemma ResultValidIff(r: MatchResult)
    ensures ResultValid(r) <==>
      && |r.players| == |r.finalScores| == r.mode.SeatCount()
      && (forall i :: 0 <= i < |r.players| ==> PlaceStands(r, i))
      && forall i, j :: 0 <= i < j < |r.players| ==> r.players[i].participantId != r.players[j].participantId
  {
    hide Blank, HasName;
    if |r.players| == |r.finalScores| {
      forall i | 0 <= i < |r.players|
        ensures PlayerFits(r.players[i], i, r.finalScores) <==> PlaceStands(r, i)
      {
        BlankIff(r.players[i].displayName);
        assert BetterSeats(r.finalScores, i) == AheadOf(r.finalScores, i);
      }
    }
  }
}
