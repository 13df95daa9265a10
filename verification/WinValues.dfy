// What a win is worth: its yaku values against its evaluation, and its points against the score table.

module WinValues {
  import opened Wrappers
  import opened Checked

  /** `named` is the rules library's answer: it knows this id under the stored name. */
  datatype YakuValue = YakuValue(id: U32, named: bool, han: Option<U32>, multiplier: Option<U32>)

  datatype ScoreLimit = Mangan | Haneman | Baiman | Sanbaiman | CountedYakuman

  datatype WinEvaluation = Ordinary(han: U32, fu: U32, limit: Option<ScoreLimit>) | Yakuman(times: U32)

  /** What the library's score table pays for the evaluation, to a dealer and to anyone else. */
  datatype TablePoints = TablePoints(dealer: U32, other: U32)

  // ----- Adding up the yaku -----------------------------------------------------------------------

  /** A yaku's share: its han in an ordinary win, thirteen per multiple in a yakuman; never zero. */
  function ValueOf(y: YakuValue, e: WinEvaluation): Option<U32> {
    match e
    case Ordinary(_, _, _) =>
      if y.han.Some? && y.han.value > 0 && y.multiplier.None? then y.han else None
    case Yakuman(_) =>
      if y.han.None? && y.multiplier.Some? && y.multiplier.value > 0 then ToU32(13 * y.multiplier.value) else None
  }

  /** The checked sum, failing where a value does not suit the evaluation or a step overflows. */
  function YakuTotal(yaku: seq<YakuValue>, e: WinEvaluation): Option<U32> {
    if yaku == [] then Some(0)
    else
      var last := |yaku| - 1;
      match YakuTotal(yaku[..last], e)
      case None => None
      case Some(total) =>
        match ValueOf(yaku[last], e)
        case None => None
        case Some(value) => ToU32(total + value)
  }

  /** What the evaluation claims; a void evaluation claims nothing. */
  function ClaimedTotal(e: WinEvaluation): Option<U32> {
    match e
    case Ordinary(han, fu, _) => Some(if fu > 0 then han else 0)
    case Yakuman(times) => if times > 0 then ToU32(13 * times) else Some(0)
  }

  predicate AllNamed(yaku: seq<YakuValue>) { forall i :: 0 <= i < |yaku| ==> yaku[i].named }

  predicate ValuesFit(yaku: seq<YakuValue>, e: WinEvaluation) {
    var total := YakuTotal(yaku, e);
    total.Some? && AllNamed(yaku) && ClaimedTotal(e) == total && total.value != 0
  }

  /** The loop as written, which stops at the first value that does not fit. */
  method CheckValues(yaku: seq<YakuValue>, e: WinEvaluation) returns (ok: bool)
    ensures ok <==> ValuesFit(yaku, e)
  {
    hide ValueOf;
    var total: U32 := 0;
    for i := 0 to |yaku|
      invariant YakuTotal(yaku[..i], e) == Some(total)
    {
      assert yaku[..i + 1][..i] == yaku[..i];
      var value := ValueOf(yaku[i], e);
      if value.None? || ToU32(total + value.value).None? {
        assert YakuTotal(yaku[..i + 1], e).None?;
        FailedTotalStays(yaku, e, i + 1);
        return false;
      }
      total := total + value.value;
    }
    assert yaku[..|yaku|] == yaku;
    if exists i :: 0 <= i < |yaku| && !yaku[i].named { return false; }
    return ClaimedTotal(e) == Some(total) && total != 0;
  }

  lemma {:induction false} FailedTotalStays(yaku: seq<YakuValue>, e: WinEvaluation, k: nat)
    requires k <= |yaku| && YakuTotal(yaku[..k], e).None?
    ensures YakuTotal(yaku, e).None?
    decreases |yaku|
  {
    hide ValueOf;
    if k == |yaku| {
      assert yaku[..k] == yaku;
    } else {
      assert yaku[..|yaku| - 1][..k] == yaku[..k];
      FailedTotalStays(yaku[..|yaku| - 1], e, k);
    }
  }

  /** Counted without any overflow: han in an ordinary win, multiples in a yakuman. */
  function CountOf(y: YakuValue, e: WinEvaluation): nat {
    match if e.Ordinary? then y.han else y.multiplier
    case None => 0
    case Some(n) => n
  }

  function Count(yaku: seq<YakuValue>, e: WinEvaluation): nat {
    if yaku == [] then 0 else Count(yaku[..|yaku| - 1], e) + CountOf(yaku[|yaku| - 1], e)
  }

  /** Every yaku is of the evaluation's kind and worth something. */
  predicate OfOneKind(yaku: seq<YakuValue>, e: WinEvaluation) {
    forall i :: 0 <= i < |yaku| ==> KindFits(yaku[i], e)
  }

  predicate KindFits(y: YakuValue, e: WinEvaluation) {
    CountOf(y, e) > 0 && if e.Ordinary? then y.multiplier.None? else y.han.None?
  }

  function Worth(count: nat, e: WinEvaluation): nat { if e.Ordinary? then count else 13 * count }

  lemma ValueIsItsCount(y: YakuValue, e: WinEvaluation)
    ensures ValueOf(y, e).Some? <==> KindFits(y, e) && Worth(CountOf(y, e), e) < 0x1_0000_0000
    ensures ValueOf(y, e).Some? ==> ValueOf(y, e).value == Worth(CountOf(y, e), e)
  {
  }

  /** The checked sum is the plain one, and fails only for a yaku of the wrong kind or a sum too large. */
  lemma {:induction false} YakuTotalIff(yaku: seq<YakuValue>, e: WinEvaluation)
    ensures YakuTotal(yaku, e).Some? <==> OfOneKind(yaku, e) && Worth(Count(yaku, e), e) < 0x1_0000_0000
    ensures YakuTotal(yaku, e).Some? ==> YakuTotal(yaku, e).value == Worth(Count(yaku, e), e)
  {
    hide ValueOf, KindFits, CountOf;
    if yaku != [] {
      var last := |yaku| - 1;
      YakuTotalIff(yaku[..last], e);
      ValueIsItsCount(yaku[last], e);
      OneMoreOfAKind(yaku, e);
    }
  }

  lemma OneMoreOfAKind(yaku: seq<YakuValue>, e: WinEvaluation)
    requires yaku != []
    ensures OfOneKind(yaku, e) <==> OfOneKind(yaku[..|yaku| - 1], e) && KindFits(yaku[|yaku| - 1], e)
  {
    hide KindFits;
    assert yaku == yaku[..|yaku| - 1] + [yaku[|yaku| - 1]];
  }

  // ----- Points from the table ---------------------------------------------------------------------

  /** Fu as the table rounds it: up to the next ten, except the fixed 25 of seven pairs. */
  function RoundedFu(fu: U32): nat { if fu == 25 then 25 else (fu + 9) / 10 * 10 }

  function DoubledFu(han: U32, fu: U32): nat
    requires han <= 4
  {
    RoundedFu(fu) *
      (match han
       case 0 => 4
       case 1 => 8
       case 2 => 16
       case 3 => 32
       case _ => 64)
  }

  /** The limit an ordinary win reaches, if any. */
  function LimitOf(han: U32, fu: U32): Option<ScoreLimit> {
    if han <= 4 then if DoubledFu(han, fu) > 2000 then Some(Mangan) else None
    else if han == 5 then Some(Mangan)
    else if han <= 7 then Some(Haneman)
    else if han <= 10 then Some(Baiman)
    else if han <= 12 then Some(Sanbaiman)
    else Some(CountedYakuman)
  }

  predicate FuFits(fu: U32) { fu == 20 || fu == 25 || (30 <= fu <= 250 && fu % 10 == 0) }

  /** The table is asked only for an evaluation it can look up: eight-bit han and fu, a limit that is due. */
  predicate Lookable(e: WinEvaluation) {
    match e
    case Ordinary(han, fu, limit) => han > 0 && FuFits(fu) && (limit.None? || limit == LimitOf(han, fu))
    case Yakuman(times) => times > 0 && 13 * times < 0x100
  }

  function BasicPoints(e: WinEvaluation, points: TablePoints, dealer: bool): Option<U32> {
    if !Lookable(e) then None else Some(if dealer then points.dealer else points.other)
  }

  /** Stored points are the table's for one of the two roles; which one the record alone does not say. */
  predicate PointsFit(e: WinEvaluation, points: TablePoints, stored: U32) {
    BasicPoints(e, points, false) == Some(stored) || BasicPoints(e, points, true) == Some(stored)
  }

  function Rank(limit: Option<ScoreLimit>): nat {
    match limit
    case None => 0
    case Some(Mangan) => 1
    case Some(Haneman) => 2
    case Some(Baiman) => 3
    case Some(Sanbaiman) => 4
    case Some(CountedYakuman) => 5
  }

  /** More han, or more of the fu that occur, never reaches a lower limit. */
  lemma LimitsGrow(han: U32, fu: U32, han': U32, fu': U32)
    requires han <= han' && fu <= fu' && FuFits(fu) && FuFits(fu')
    ensures Rank(LimitOf(han, fu)) <= Rank(LimitOf(han', fu'))
  {
    if han' <= 4 { assert DoubledFu(han, fu) <= DoubledFu(han', fu') by { RoundedFuGrows(fu, fu'); } }
  }

  lemma RoundedFuGrows(fu: U32, fu': U32)
    requires fu <= fu' && FuFits(fu) && FuFits(fu')
    ensures RoundedFu(fu) == fu && RoundedFu(fu') == fu'
  {
  }

  // ----- What a stated limit says --------------------------------------------------------------------

  /** Base points of at most four han: the fu doubled twice, and once more for every han. */
  function BasePoints(han: nat, fu: nat): nat {
    if han == 0 then 4 * fu else 2 * BasePoints(han - 1, fu)
  }

  /** The limit that is due by the score table: mangan over 2000 base points, and from five han on. */
  predicate LimitDue(limit: ScoreLimit, han: nat, fu: nat) {
    match limit
    case Mangan => han == 5 || (han <= 4 && BasePoints(han, fu) > 2000)
    case Haneman => han == 6 || han == 7
    case Baiman => 8 <= han <= 10
    case Sanbaiman => han == 11 || han == 12
    case CountedYakuman => han >= 13
  }

  lemma DoublingMeans(han: U32, fu: U32)
    requires han <= 4 && FuFits(fu)
    ensures DoubledFu(han, fu) == BasePoints(han, fu)
  {
    RoundedFuGrows(fu, fu);
    assert BasePoints(0, fu) == 4 * fu;
    assert BasePoints(1, fu) == 8 * fu;
    assert BasePoints(2, fu) == 16 * fu;
    assert BasePoints(3, fu) == 32 * fu;
  }

  /** A win that states a limit passes the look-up exactly when that limit is due. */
  lemma StatedLimitIff(han: U32, fu: U32, limit: ScoreLimit)
    requires han > 0 && FuFits(fu)
    ensures Lookable(Ordinary(han, fu, Some(limit))) <==> LimitDue(limit, han, fu)
  {
    if han <= 4 { DoublingMeans(han, fu); }
  }

  /** Exactly one limit is due, or none: below mangan. */
  lemma LimitIsUnique(han: nat, fu: nat, a: ScoreLimit, b: ScoreLimit)
    requires LimitDue(a, han, fu) && LimitDue(b, han, fu)
    ensures a == b
  {
  }

  /** A limit left out is never held against a win. */
  lemma UnstatedLimitPasses(han: U32, fu: U32)
    ensures Lookable(Ordinary(han, fu, None)) <==>
            han > 0 && (fu == 20 || fu == 25 || (30 <= fu <= 250 && fu % 10 == 0))
  {
  }

  /**
   * What both checks together say of a win: an ordinary one's yaku add up to exactly its han and
   * reach the limit it states; a yakuman's multiples add up to its own, nineteen at the most.
   */
  lemma AcceptedWinIsWorth(yaku: seq<YakuValue>, e: WinEvaluation, points: TablePoints, stored: U32)
    requires ValuesFit(yaku, e) && PointsFit(e, points, stored)
    ensures yaku != [] && OfOneKind(yaku, e)
    ensures e.Ordinary? ==>
      Count(yaku, e) == e.han > 0 && FuFits(e.fu) && (e.limit.Some? ==> LimitDue(e.limit.value, Count(yaku, e), e.fu))
    ensures e.Yakuman? ==> 0 < Count(yaku, e) == e.times <= 19
  {
    YakuTotalIff(yaku, e);
    if e.Ordinary? && e.limit.Some? { StatedLimitIff(e.han, e.fu, e.limit.value); }
  }
}
