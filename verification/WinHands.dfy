// The completed hand a win records, and what a stored one is checked for.

module WinHands {
  import opened Wrappers
  import opened Checked
  import opened Domain
  import opened TileRuns
  import opened WinValues

  datatype ResultMeldKind = SequenceMeld | TripletMeld | OpenKanMeld | ClosedKanMeld | AddedKanMeld

  datatype ResultMeld =
    ResultMeld(kind: ResultMeldKind, tiles: seq<Tile>, isOpen: bool, fromWho: Option<Seat>, calledTile: Option<Tile>)

  /** `complete` is the rules library's answer: the concealed tiles complete a winning hand. */
  datatype WinHand = WinHand(
    concealed: seq<Tile>, melds: seq<ResultMeld>, winningTile: Tile, winningTileIndex: nat, complete: bool,
    yaku: seq<YakuValue>, evaluation: WinEvaluation, winPoints: U32, points: TablePoints)

  predicate IsKan(kind: ResultMeldKind) { kind.OpenKanMeld? || kind.ClosedKanMeld? || kind.AddedKanMeld? }

  /** Types of a claimed sequence: consecutive number tiles of one suit. */
  predicate SequenceTypes(sorted: seq<nat>)
    requires |sorted| == 3
  {
    && sorted[0] < 27 && sorted[0] / 9 == sorted[2] / 9
    && sorted[1] == sorted[0] + 1 && sorted[2] == sorted[1] + 1
  }

  predicate MeldShapeFits(meld: ResultMeld, mode: GameMode) {
    && |meld.tiles| == (if IsKan(meld.kind) then 4 else 3)
    && var kinds := Sorted(TypesOf(meld.tiles));
       if meld.kind.SequenceMeld? then mode.SeatCount() != 3 && SequenceTypes(kinds)
       else forall i :: 0 <= i < |kinds| ==> kinds[i] == kinds[0]
  }

  predicate MeldSourceFits(meld: ResultMeld, seat: Seat, seats: nat) {
    && (meld.fromWho.Some? ==> meld.fromWho.value < seats)
    && if meld.kind.ClosedKanMeld? then !meld.isOpen && meld.fromWho.None? && meld.calledTile.None?
       else
         && meld.isOpen && meld.fromWho.Some? && meld.fromWho.value != seat
         && meld.calledTile.Some? && meld.calledTile.value in meld.tiles
  }

  predicate MeldTilesAllowed(meld: ResultMeld, mode: GameMode) {
    TilesAllowed(meld.tiles, mode) && (meld.calledTile.Some? ==> TileAllowed(meld.calledTile.value, mode))
  }

  predicate MeldFits(meld: ResultMeld, seat: Seat, mode: GameMode, seats: nat) {
    MeldTilesAllowed(meld, mode) && MeldShapeFits(meld, mode) && MeldSourceFits(meld, seat, seats)
  }

  /** Every physical tile of a hand: the concealed ones, then the melds' in order. */
  function AllTiles(concealed: seq<Tile>, melds: seq<ResultMeld>): seq<Tile> {
    if melds == [] then concealed
    else AllTiles(concealed, melds[..|melds| - 1]) + melds[|melds| - 1].tiles
  }

  predicate DistinctTiles(tiles: seq<Tile>) { forall i, j :: 0 <= i < j < |tiles| ==> tiles[i] != tiles[j] }

  /** A completed hand: its size, its tiles, its winning tile, its melds, its yaku and its points. */
  predicate HandFits(h: WinHand, seat: Seat, mode: GameMode, seats: nat) {
    && |h.melds| <= 4 && |h.concealed| + 3 * |h.melds| == 14
    && TilesAllowed(h.concealed, mode) && TileAllowed(h.winningTile, mode)
    && h.winningTileIndex < |h.concealed| && h.concealed[h.winningTileIndex] == h.winningTile
    && DistinctTiles(AllTiles(h.concealed, h.melds))
    && (forall i :: 0 <= i < |h.melds| ==> MeldFits(h.melds[i], seat, mode, seats))
    && h.complete && ValuesFit(h.yaku, h.evaluation) && PointsFit(h.evaluation, h.points, h.winPoints)
  }

  // ----- The checks as written ----------------------------------------------------------------------

  /** Puts every physical tile into a set and stops at the first one already there. */
  method CheckDistinct(tiles: seq<Tile>) returns (ok: bool)
    ensures ok <==> DistinctTiles(tiles)
  {
    var physical: set<Tile> := {};
    for i := 0 to |tiles|
      invariant physical == set j | 0 <= j < i :: tiles[j]
      invariant DistinctTiles(tiles[..i])
    {
      if tiles[i] in physical {
        var j :| 0 <= j < i && tiles[j] == tiles[i];
        return false;
      }
      physical := physical + {tiles[i]};
    }
    assert tiles[..|tiles|] == tiles;
    return true;
  }

  method CheckMeld(meld: ResultMeld, seat: Seat, mode: GameMode, seats: nat) returns (ok: bool)
    requires meld.fromWho.Some? ==> meld.fromWho.value < seats
    ensures ok <==> MeldShapeFits(meld, mode) && MeldSourceFits(meld, seat, seats)
  {
    if |meld.tiles| != (if IsKan(meld.kind) then 4 else 3) { return false; }
    var kinds := Sorted(TypesOf(meld.tiles));
    var validTiles :=
      if meld.kind.SequenceMeld? then
        mode.SeatCount() != 3 && kinds[0] < 27 && kinds[0] / 9 == kinds[2] / 9
        && kinds[1] == kinds[0] + 1 && kinds[2] == kinds[1] + 1
      else forall i :: 0 <= i < |kinds| ==> kinds[i] == kinds[0];
    var validSource :=
      if meld.kind.ClosedKanMeld? then !meld.isOpen && meld.fromWho.None? && meld.calledTile.None?
      else (meld.isOpen && meld.fromWho.Some? && meld.fromWho.value != seat
            && meld.calledTile.Some? && meld.calledTile.value in meld.tiles);
    return validTiles && validSource;
  }

  method CheckHand(h: WinHand, seat: Seat, mode: GameMode, seats: nat) returns (ok: bool)
    ensures ok <==> HandFits(h, seat, mode, seats)
  {
    hide MeldShapeFits, ValuesFit, Lookable;
    if |h.melds| > 4 || |h.concealed| + 3 * |h.melds| != 14 { return false; }
    if !TilesAllowed(h.concealed, mode) || !TileAllowed(h.winningTile, mode)
      || exists i :: 0 <= i < |h.melds| && !MeldTilesAllowed(h.melds[i], mode) {
      return false;
    }
    if exists i :: 0 <= i < |h.melds| && h.melds[i].fromWho.Some? && h.melds[i].fromWho.value >= seats {
      return false;
    }
    if h.winningTileIndex >= |h.concealed| || h.concealed[h.winningTileIndex] != h.winningTile { return false; }
    ok := CheckDistinct(AllTiles(h.concealed, h.melds));
    if !ok { return; }
    for i := 0 to |h.melds|
      invariant forall j :: 0 <= j < i ==> MeldFits(h.melds[j], seat, mode, seats)
    {
      ok := CheckMeld(h.melds[i], seat, mode, seats);
      if !ok {
        assert !MeldFits(h.melds[i], seat, mode, seats);
        return;
      }
    }
    if !h.complete { return false; }
    ok := CheckValues(h.yaku, h.evaluation);
    if !ok { return; }
    var plain := BasicPoints(h.evaluation, h.points, false);
    if plain.None? { return false; }
    if plain.value != h.winPoints && BasicPoints(h.evaluation, h.points, true) != Some(h.winPoints) { return false; }
    return true;
  }

  // ----- What an accepted hand is -------------------------------------------------------------------

  function Kans(melds: seq<ResultMeld>): nat {
    if melds == [] then 0 else Kans(melds[..|melds| - 1]) + if IsKan(melds[|melds| - 1].kind) then 1 else 0
  }

  function OfType(tiles: seq<Tile>, t: nat): nat {
    if tiles == [] then 0 else OfType(tiles[..|tiles| - 1], t) + if TileType(tiles[|tiles| - 1]) == t then 1 else 0
  }

  lemma {:induction false} TilesAdd(concealed: seq<Tile>, melds: seq<ResultMeld>)
    requires forall i :: 0 <= i < |melds| ==> |melds[i].tiles| == (if IsKan(melds[i].kind) then 4 else 3)
    ensures |AllTiles(concealed, melds)| == |concealed| + 3 * |melds| + Kans(melds)
  {
    if melds != [] { TilesAdd(concealed, melds[..|melds| - 1]); }
  }

  /** The copies of one type among distinct tiles, as a set of the four there are. */
  lemma {:induction false} DistinctOfType(tiles: seq<Tile>, t: nat) returns (copies: set<Tile>)
    requires DistinctTiles(tiles)
    ensures |copies| == OfType(tiles, t)
    ensures forall x :: x in copies <==> x in tiles && TileType(x) == t
  {
    if tiles == [] {
      copies := {};
    } else {
      var rest, last := tiles[..|tiles| - 1], tiles[|tiles| - 1];
      var fewer := DistinctOfType(rest, t);
      assert last !in rest;
      copies := if TileType(last) == t then fewer + {last} else fewer;
      assert tiles == rest + [last];
    }
  }

  lemma FewCopies(copies: set<Tile>, t: nat)
    requires forall x :: x in copies ==> TileType(x) == t
    ensures |copies| <= 4
  {
    if copies != {} {
      var x :| x in copies;
      assert x / 4 == t;
      var a: Tile, b: Tile, c: Tile, d: Tile := 4 * t, 4 * t + 1, 4 * t + 2, 4 * t + 3;
      forall x | x in copies
        ensures x in {a, b, c, d}
      {
        assert x / 4 == t;
      }
      SubsetIsNoLarger(copies, {a, b, c, d});
    }
  }

  lemma SubsetIsNoLarger(a: set<Tile>, b: set<Tile>)
    requires a <= b
    ensures |a| <= |b|
  {
    assert |b - a| == |b| - |a|;
  }

  /**
   * An accepted hand is fourteen tiles and one more per kan, no physical tile twice, so at most
   * four of any type.
   */
  lemma AcceptedHandCounts(h: WinHand, seat: Seat, mode: GameMode, seats: nat, t: nat)
    requires HandFits(h, seat, mode, seats)
    ensures |AllTiles(h.concealed, h.melds)| == 14 + Kans(h.melds)
    ensures DistinctTiles(AllTiles(h.concealed, h.melds)) && OfType(AllTiles(h.concealed, h.melds), t) <= 4
  {
    hide AllTiles, Sorted, TypesOf, ValuesFit, PointsFit;
    forall i | 0 <= i < |h.melds|
      ensures |h.melds[i].tiles| == (if IsKan(h.melds[i].kind) then 4 else 3)
    {
      assert MeldFits(h.melds[i], seat, mode, seats);
    }
    TilesAdd(h.concealed, h.melds);
    var copies := DistinctOfType(AllTiles(h.concealed, h.melds), t);
    FewCopies(copies, t);
  }

  /**
   * Here, unlike in the replay fold, the suit check is a real one: a claimed sequence is accepted
   * exactly at a four-player table and when its types are a run of one suit.
   */
  lemma AcceptedSequenceIff(meld: ResultMeld, mode: GameMode)
    requires meld.kind.SequenceMeld?
    ensures MeldShapeFits(meld, mode) <==> mode.SeatCount() == 4 && SameSuitRun(TypesOf(meld.tiles))
  {
    hide Sorted, TypesOf, IsRun, SameSuitRun;
    var types := TypesOf(meld.tiles);
    if |types| == 3 { SequenceTypesIff(types); }
    if SameSuitRun(types) { RunIsThree(types); }
  }

  lemma SequenceTypesIff(types: seq<nat>)
    requires |types| == 3
    ensures SequenceTypes(Sorted(types)) <==> SameSuitRun(types)
  {
    hide Sorted, IsRun;
    if SequenceTypes(Sorted(types)) { SortedTripleIsRun(types, Sorted(types)); }
    if SameSuitRun(types) {
      var low: nat :| IsRun(types, low) && low / 9 == (low + 2) / 9 && low + 2 < 27;
      RunSortsToRun(types, low);
    }
  }

  lemma RunIsThree(types: seq<nat>)
    requires SameSuitRun(types)
    ensures |types| == 3
  {
    var low: nat :| IsRun(types, low) && low / 9 == (low + 2) / 9 && low + 2 < 27;
    assert |types| == |multiset(types)|;
  }
}
