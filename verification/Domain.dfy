// Vocabulary shared by every component: seats, tiles, actions, events, rosters.

/** Options and fallible results. */
module Wrappers {
  datatype Option<+T> = None | Some(value: T) {
    function GetOr(default: T): T {
      match this
      case None => default
      case Some(v) => v
    }
  }

  datatype Result<+T, +E> = Ok(value: T) | Err(error: E)
}

/** Machine integers with the server's checked operations. */
module Checked {
  import opened Wrappers

  type I32 = x: int | -0x8000_0000 <= x < 0x8000_0000
  type U32 = x: int | 0 <= x < 0x1_0000_0000
  type U8 = x: int | 0 <= x < 0x100

  function ToI32(x: int): Option<I32> {
    if -0x8000_0000 <= x < 0x8000_0000 then Some(x) else None
  }

  function ToU32(x: int): Option<U32> {
    if 0 <= x < 0x1_0000_0000 then Some(x) else None
  }

  function CheckedAdd(a: I32, b: I32): Option<I32> { ToI32(a + b) }

  function CheckedSub(a: I32, b: I32): Option<I32> { ToI32(a - b) }

  /** The value in points of a pot of riichi sticks; fails as `try_from` then `checked_mul` do. */
  function PotAward(pot: U32): Option<I32> {
    match ToI32(pot)
    case None => None
    case Some(sticks) => ToI32(sticks * 1000)
  }
}

/** Searching sequences. */
module Sequences {
  import opened Wrappers

  /** The position of the first element satisfying `p`. */
  function First<T>(s: seq<T>, p: T -> bool): (r: Option<nat>)
    ensures r.Some? ==> r.value < |s| && p(s[r.value]) && forall j :: 0 <= j < r.value ==> !p(s[j])
    ensures r.None? ==> forall j :: 0 <= j < |s| ==> !p(s[j])
  {
    if s == [] then None
    else if p(s[0]) then Some(0)
    else match First(s[1..], p)
      case None => None
      case Some(k) => Some(k + 1)
  }
}

/** Decimal numerals, as the server's `{}` formatting writes a counter. */
module Decimal {
  function Digit(d: nat): char
    requires d < 10
  {
    '0' + d as char
  }

  function Text(n: nat): (s: string)
    ensures |s| > 0
  {
    if n < 10 then [Digit(n)] else Text(n / 10) + [Digit(n % 10)]
  }

  /** Two counters print alike only if they are the same counter. */
  lemma {:induction false} TextInjective(a: nat, b: nat)
    requires Text(a) == Text(b)
    ensures a == b
  {
    var s, t := Text(a), Text(b);
    assert s[|s| - 1] == Digit(a % 10) && t[|t| - 1] == Digit(b % 10);
    assert Digit(a % 10) as int == '0' as int + a % 10;
    assert Digit(b % 10) as int == '0' as int + b % 10;
    assert a % 10 == b % 10;
    if a >= 10 && b >= 10 {
      assert s[..|s| - 1] == Text(a / 10) && t[..|t| - 1] == Text(b / 10);
      TextInjective(a / 10, b / 10);
    }
  }
}

module Domain {
  import opened Wrappers
  import opened Checked

  datatype GameMode =
    FourPlayerRedEast | FourPlayerRedHalf | ThreePlayerRedEast | ThreePlayerRedHalf
  {
    function SeatCount(): (n: nat)
      ensures n == 3 || n == 4
    {
      if FourPlayerRedEast? || FourPlayerRedHalf? then 4 else 3
    }
  }

  datatype Wind = East | South | West | North

  /** A seat index; the server refuses to build one above 3. */
  type Seat = s: nat | s < 4

  /** A physical tile; four copies of each of the 34 tile types. */
  type Tile = t: nat | t < 136

  const NORTH_TYPE: nat := 30

  function TileType(t: Tile): nat { t / 4 }

  /** Three-player tables use no two to eight of characters. */
  predicate TileAllowed(t: Tile, mode: GameMode) { mode.SeatCount() == 4 || !(1 <= TileType(t) <= 7) }

  predicate TilesAllowed(tiles: seq<Tile>, mode: GameMode) {
    forall i :: 0 <= i < |tiles| ==> TileAllowed(tiles[i], mode)
  }

  datatype ParticipantKind = Human | MJAI | MCP | BuiltInBot

  datatype Participant = Participant(id: string, displayName: string, kind: ParticipantKind)

  datatype GameAction =
    | Discard(tile: Tile, tsumogiri: bool)
    | RiichiDiscard(tile: Tile)
    | Chi(target: Seat, called: Tile, consumed: seq<Tile>)
    | Pon(target: Seat, called: Tile, consumed: seq<Tile>)
    | Daiminkan(target: Seat, called: Tile, consumed: seq<Tile>)
    | Ankan(consumed: seq<Tile>)
    | Kakan(called: Tile, consumed: seq<Tile>)
    | Nuki(tile: Tile)
    | TsumoWin
    | Ron(target: Seat)
    | Pass
    | AbortiveDraw

  /** The canonical event log entry. */
  datatype GameEvent =
    | StartGame(names: Option<seq<string>>)
    | StartKyoku(bakaze: Wind, kyoku: U8, honba: U8, kyotaku: U8, oya: Seat,
                 startScores: seq<I32>, doraMarker: Tile, startHands: seq<seq<Tile>>)
    | Tsumo(actor: Seat, drawn: Tile)
    | Dahai(actor: Seat, discarded: Tile)
    | OpenPon(actor: Seat, target: Seat, called: Tile, consumed: seq<Tile>)
    | OpenChi(actor: Seat, target: Seat, called: Tile, consumed: seq<Tile>)
    | OpenKan(actor: Seat, target: Seat, called: Tile, consumed: seq<Tile>)
    | AddedKan(actor: Seat, called: Tile, consumed: seq<Tile>)
    | ClosedKan(actor: Seat, consumed: seq<Tile>)
    | Dora(newMarker: Tile)
    | Reach(actor: Seat)
    | ReachAccepted(actor: Seat)
    | Hora(actor: Seat, winTarget: Seat, winTile: Option<Tile>,
           delta: Option<seq<I32>>, scores: Option<seq<I32>>)
    | Ryukyoku(reason: Option<string>, revealedHands: Option<seq<seq<Tile>>>,
               delta: Option<seq<I32>>, scores: Option<seq<I32>>)
    | Kita(actor: Seat)
    | EndKyoku
    | EndGame

  /** A hand ends with wins or with a draw. */
  predicate IsTerminal(e: GameEvent) { e.Hora? || e.Ryukyoku? }
}
