// The checking half: a hand record is re-derived from the canonical log before it is believed.

module Settlement {
  import opened Wrappers
  import opened Checked
  import opened Domain
  import opened Results
  import opened Engine

  const I32_MIN: int := -0x8000_0000

  // ----- Riichi deposits read off the log -----------------------------------------------

  /** Accepted riichi declarations at positions [lo, hi). */
  function Reaches(log: seq<GameEvent>, lo: nat, hi: nat): nat
    requires lo <= hi <= |log|
    decreases hi
  {
    if lo == hi then 0 else Reaches(log, lo, hi - 1) + if log[hi - 1].ReachAccepted? then 1 else 0
  }

  /** Those of one seat. */
  function Deposits(log: seq<GameEvent>, lo: nat, hi: nat, seat: nat): nat
    requires lo <= hi <= |log|
    decreases hi
  {
    if lo == hi then 0
    else
      var before := Deposits(log, lo, hi - 1, seat);
      if log[hi - 1].ReachAccepted? && log[hi - 1].actor == seat then before + 1 else before
  }

  /** Scores after every deposit in [lo, hi) is paid, in unbounded arithmetic. */
  function Paid(log: seq<GameEvent>, scores: seq<int>, lo: nat, hi: nat): (r: seq<int>)
    requires lo <= hi <= |log|
    ensures |r| == |scores|
  {
    seq(|scores|, i requires 0 <= i < |scores| => scores[i] - 1000 * Deposits(log, lo, hi, i))
  }

  /** Every deposit is by a seat at the table and no checked subtraction or addition overflows. */
  predicate DepositsFit(log: seq<GameEvent>, scores: seq<int>, kyotaku: U8, lo: nat, hi: nat)
    requires lo <= hi <= |log|
  {
    && (forall k :: lo <= k < hi && log[k].ReachAccepted? ==> log[k].actor < |scores|)
    && (forall i :: 0 <= i < |scores| ==> Paid(log, scores, lo, hi)[i] >= I32_MIN)
    && kyotaku + Reaches(log, lo, hi) < 0x1_0000_0000
  }

  /** The record's scores and pot from before the hand's last action. */
  predicate MatchesBefore(settlement: KyokuSettlement, scores: seq<int>, pot: int) {
    && pot == settlement.potBefore && |scores| == |settlement.changes|
    && forall i :: 0 <= i < |scores| ==> scores[i] == settlement.changes[i].before
  }

  /** Scores and pot right after position `b`, where the hand started or a deposit was paid. */
  predicate IsBoundary(log: seq<GameEvent>, start: nat, t: nat, settlement: KyokuSettlement, b: nat)
    requires start < t <= |log| && log[start].StartKyoku?
  {
    && start <= b < t && (b == start || log[b].ReachAccepted?)
    && MatchesBefore(settlement, Paid(log, log[start].startScores, start + 1, b + 1),
                     log[start].kyotaku + Reaches(log, start + 1, b + 1))
  }

  lemma {:induction false} ReachesSplit(log: seq<GameEvent>, a: nat, b: nat, c: nat)
    requires a <= b <= c <= |log|
    ensures Reaches(log, a, c) == Reaches(log, a, b) + Reaches(log, b, c)
    decreases c
  {
    if b < c { ReachesSplit(log, a, b, c - 1); }
  }

  lemma {:induction false} DepositsSplit(log: seq<GameEvent>, a: nat, b: nat, c: nat, seat: nat)
    requires a <= b <= c <= |log|
    ensures Deposits(log, a, c, seat) == Deposits(log, a, b, seat) + Deposits(log, b, c, seat)
    decreases c
  {
    if b < c { DepositsSplit(log, a, b, c - 1, seat); }
  }

  /** The pot strictly grows with every deposit, so at most one boundary matches. */
  lemma BoundaryIsUnique(log: seq<GameEvent>, start: nat, t: nat, settlement: KyokuSettlement, a: nat, b: nat)
    requires start < t <= |log| && log[start].StartKyoku?
    requires IsBoundary(log, start, t, settlement, a) && IsBoundary(log, start, t, settlement, b)
    ensures a == b
  {
    if a < b {
      LaterBoundaryHasMore(log, start, a, b);
    }
    if b < a {
      LaterBoundaryHasMore(log, start, b, a);
    }
  }

  lemma LaterBoundaryHasMore(log: seq<GameEvent>, start: nat, a: nat, b: nat)
    requires start <= a < b < |log| && log[b].ReachAccepted?
    ensures Reaches(log, start + 1, a + 1) < Reaches(log, start + 1, b + 1)
  {
    ReachesSplit(log, start + 1, a + 1, b);
  }

  /** No deposit in a stretch leaves scores and pot alone. */
  lemma {:induction false} NoReachesPayNothing(log: seq<GameEvent>, lo: nat, hi: nat, seat: nat)
    requires lo <= hi <= |log| && Reaches(log, lo, hi) == 0
    ensures Deposits(log, lo, hi, seat) == 0
    decreases hi
  {
    if hi > lo { NoReachesPayNothing(log, lo, hi - 1, seat); }
  }

  /** Scores and pot after replaying deposits, with the boundary the record matches, if any. */
  datatype Replayed = Replayed(scores: seq<I32>, pot: U32, boundary: Option<nat>)

  predicate ReplayedFits(log: seq<GameEvent>, start: nat, t: nat, settlement: KyokuSettlement, r: Replayed)
    requires start < t <= |log| && log[start].StartKyoku?
  {
    && r.scores == Paid(log, log[start].startScores, start + 1, t)
    && r.pot == log[start].kyotaku + Reaches(log, start + 1, t)
    && (r.boundary.Some? ==> IsBoundary(log, start, t, settlement, r.boundary.value))
    && (r.boundary.None? ==> forall b :: start <= b < t ==> !IsBoundary(log, start, t, settlement, b))
  }

  lemma PaidOne(log: seq<GameEvent>, scores: seq<int>, lo: nat, k: nat)
    requires lo <= k < |log|
    ensures log[k].ReachAccepted? && log[k].actor < |scores| ==>
      var actor := log[k].actor;
      Paid(log, scores, lo, k + 1) == Paid(log, scores, lo, k)[actor := Paid(log, scores, lo, k)[actor] - 1000]
    ensures !log[k].ReachAccepted? ==> Paid(log, scores, lo, k + 1) == Paid(log, scores, lo, k)
  {
  }

  /** Paying more only lowers scores, so an overflow on the way is an overflow at the end. */
  lemma OverflowStays(log: seq<GameEvent>, scores: seq<int>, kyotaku: U8, lo: nat, k: nat, hi: nat)
    requires lo <= k <= hi <= |log| && DepositsFit(log, scores, kyotaku, lo, hi)
    ensures DepositsFit(log, scores, kyotaku, lo, k)
  {
    ReachesSplit(log, lo, k, hi);
    forall i | 0 <= i < |scores|
      ensures Paid(log, scores, lo, k)[i] >= Paid(log, scores, lo, hi)[i]
    {
      DepositsSplit(log, lo, k, hi, i);
    }
  }

  lemma BoundariesSoFar(log: seq<GameEvent>, start: nat, t: nat, settlement: KyokuSettlement, b: nat)
    requires start < t < |log| && log[start].StartKyoku? && start <= b < t
    ensures IsBoundary(log, start, t + 1, settlement, b) <==> IsBoundary(log, start, t, settlement, b)
  {
  }

  /** Replays deposits up to the first terminal, remembering where the record's earlier state matched. */
  method ReplayDeposits(log: seq<GameEvent>, start: nat, t: nat, settlement: KyokuSettlement)
    returns (r: Option<Replayed>)
    requires start < t <= |log| && log[start].StartKyoku?
    requires |log[start].startScores| == |settlement.changes|
    ensures r.None? <==> !DepositsFit(log, log[start].startScores, log[start].kyotaku, start + 1, t)
    ensures r.Some? ==> ReplayedFits(log, start, t, settlement, r.value)
  {
    hide IsBoundary, DepositsFit;
    var scores: seq<I32>, pot: U32 := log[start].startScores, log[start].kyotaku;
    var boundary: Option<nat> := None;
    assert Paid(log, scores, start + 1, start + 1) == scores;
    if MatchesBefore(settlement, scores, pot) { boundary := Some(start); }
    StartBoundary(log, start, settlement);
    NothingPaidFits(log, log[start].startScores, log[start].kyotaku, start + 1);
    var index := start + 1;
    while index < t
      invariant start + 1 <= index <= t
      invariant ReplayedFits(log, start, index, settlement, Replayed(scores, pot, boundary))
      invariant DepositsFit(log, log[start].startScores, log[start].kyotaku, start + 1, index)
    {
      ghost var before := Replayed(scores, pot, boundary);
      PaidOne(log, log[start].startScores, start + 1, index);
      if log[index].ReachAccepted? {
        var actor := log[index].actor;
        if actor >= |scores| || CheckedSub(scores[actor], 1000).None? || ToU32(pot + 1).None? {
          OneDepositFits(log, log[start].startScores, log[start].kyotaku, start + 1, index);
          if DepositsFit(log, log[start].startScores, log[start].kyotaku, start + 1, t) {
            OverflowStays(log, log[start].startScores, log[start].kyotaku, start + 1, index + 1, t);
          }
          return None;
        }
        scores := scores[actor := CheckedSub(scores[actor], 1000).value];
        pot := pot + 1;
        if MatchesBefore(settlement, scores, pot) { boundary := Some(index); }
      }
      OneDepositFits(log, log[start].startScores, log[start].kyotaku, start + 1, index);
      NextBoundary(log, start, index, settlement, before, Replayed(scores, pot, boundary));
      index := index + 1;
    }
    return Some(Replayed(scores, pot, boundary));
  }

  lemma StartBoundary(log: seq<GameEvent>, start: nat, settlement: KyokuSettlement)
    requires start < |log| && log[start].StartKyoku?
    ensures IsBoundary(log, start, start + 1, settlement, start) <==>
      MatchesBefore(settlement, log[start].startScores, log[start].kyotaku)
  {
    assert Paid(log, log[start].startScores, start + 1, start + 1) == log[start].startScores;
  }

  lemma NothingPaidFits(log: seq<GameEvent>, scores: seq<I32>, kyotaku: U8, lo: nat)
    requires lo <= |log|
    ensures DepositsFit(log, scores, kyotaku, lo, lo)
  {
  }

  /** One more position keeps the deposits in range exactly when its own deposit is. */
  lemma OneDepositFits(log: seq<GameEvent>, scores: seq<int>, kyotaku: U8, lo: nat, k: nat)
    requires lo <= k < |log| && DepositsFit(log, scores, kyotaku, lo, k)
    ensures DepositsFit(log, scores, kyotaku, lo, k + 1) <==>
      (log[k].ReachAccepted? ==>
        && log[k].actor < |scores| && Paid(log, scores, lo, k)[log[k].actor] - 1000 >= I32_MIN
        && kyotaku + Reaches(log, lo, k) + 1 < 0x1_0000_0000)
  {
    PaidOne(log, scores, lo, k);
    if log[k].ReachAccepted? && log[k].actor < |scores| {
      var actor := log[k].actor;
      assert Paid(log, scores, lo, k + 1)[actor] == Paid(log, scores, lo, k)[actor] - 1000;
    }
  }

  lemma NextBoundary(log: seq<GameEvent>, start: nat, index: nat, settlement: KyokuSettlement,
                     before: Replayed, after: Replayed)
    requires start < index < |log| && log[start].StartKyoku?
    requires ReplayedFits(log, start, index, settlement, before)
    requires after.scores == Paid(log, log[start].startScores, start + 1, index + 1)
    requires after.pot == log[start].kyotaku + Reaches(log, start + 1, index + 1)
    requires after.boundary ==
      if log[index].ReachAccepted? && MatchesBefore(settlement, after.scores, after.pot) then Some(index)
      else before.boundary
    ensures ReplayedFits(log, start, index + 1, settlement, after)
  {
    assert IsBoundary(log, start, index + 1, settlement, index) <==>
      log[index].ReachAccepted? && MatchesBefore(settlement, after.scores, after.pot);
    forall b | start <= b < index
      ensures IsBoundary(log, start, index + 1, settlement, b) <==> IsBoundary(log, start, index, settlement, b)
    {
      BoundariesSoFar(log, start, index, settlement, b);
    }
    assert IsBoundary(log, start, index + 1, settlement, index) ==> after.boundary == Some(index);
    assert before.boundary.Some? ==> IsBoundary(log, start, index + 1, settlement, before.boundary.value);
    assert after.boundary.Some? ==> IsBoundary(log, start, index + 1, settlement, after.boundary.value);
    if after.boundary.None? {
      var next := index + 1;
      forall b | start <= b < next
        ensures !IsBoundary(log, start, next, settlement, b)
      {
        assert b < index ==> !IsBoundary(log, start, index, settlement, b);
      }
    }
  }

  /** Positions of the terminal events in [lo, hi), in order. */
  function TerminalsBetween(log: seq<GameEvent>, lo: nat, hi: nat): (r: seq<nat>)
    requires lo <= hi <= |log|
    ensures forall i :: 0 <= i < |r| ==> lo <= r[i] < hi && IsTerminal(log[r[i]])
    ensures forall i, j :: 0 <= i < j < |r| ==> r[i] < r[j]
    decreases hi
  {
    if lo == hi then []
    else TerminalsBetween(log, lo, hi - 1) + if IsTerminal(log[hi - 1]) then [hi - 1] else []
  }

  predicate TerminalsIn(log: seq<GameEvent>, terminal: seq<nat>) {
    forall i :: 0 <= i < |terminal| ==> terminal[i] < |log| && IsTerminal(log[terminal[i]])
  }

  // ----- What an accepted record must say ----------------------------------------------------

  /** The hand under check: its start, its end, and its terminal events in between. */
  predicate HandAt(log: seq<GameEvent>, start: nat, end: nat, terminal: seq<nat>) {
    && start < end < |log| && log[start].StartKyoku?
    && terminal != []
    && (forall i :: 0 <= i < |terminal| ==> start < terminal[i] < end && IsTerminal(log[terminal[i]]))
    && (forall i, j :: 0 <= i < j < |terminal| ==> terminal[i] < terminal[j])
  }

  /** Every deposit before the first terminal, paid. */
  function Reached(log: seq<GameEvent>, start: nat, t: nat): seq<int>
    requires start < t <= |log| && log[start].StartKyoku?
  {
    Paid(log, log[start].startScores, start + 1, t)
  }

  /** The pot at the first terminal. */
  function PotAt(log: seq<GameEvent>, start: nat, t: nat): nat
    requires start < t <= |log| && log[start].StartKyoku?
  {
    log[start].kyotaku + Reaches(log, start + 1, t)
  }

  /**
   * The state the record was captured in: the one at the first terminal, or the one just before
   * a single deposit that directly precedes it.
   */
  predicate CapturedBefore(log: seq<GameEvent>, start: nat, t: nat, settlement: KyokuSettlement)
    requires start < t < |log| && log[start].StartKyoku?
  {
    || MatchesBefore(settlement, Reached(log, start, t), PotAt(log, start, t))
    || (log[t - 1].ReachAccepted?
        && MatchesBefore(settlement, Reached(log, start, t - 1), PotAt(log, start, t - 1)))
  }

  predicate NoReachIn(log: seq<GameEvent>, lo: nat, hi: nat)
    requires lo <= hi <= |log|
  {
    forall k :: lo <= k < hi ==> !log[k].ReachAccepted?
  }

  predicate GameEndsAfter(log: seq<GameEvent>, end: nat)
    requires end < |log|
  {
    exists k :: end < k < |log| && log[k].EndGame?
  }

  /** The next hand, if any, starts from these scores and this pot. */
  predicate NextHandStartsFrom(log: seq<GameEvent>, end: nat, scores: seq<int>, pot: int)
    requires end < |log|
  {
    forall k :: end < k < |log| && log[k].StartKyoku? && (forall j :: end < j < k ==> !log[j].StartKyoku?) ==>
      log[k].startScores == scores && log[k].kyotaku == pot
  }

  /** One seat's draw delta is its real movement plus the producer's evidence, all within i32. */
  predicate DeltaExplained(before: I32, after: I32, evidence: I32, emitted: I32) {
    var movement := CheckedSub(after, before);
    movement.Some? && CheckedAdd(movement.value, evidence) == Some(emitted)
  }

  /** The scores before a leftover pot went to the top seat. */
  function Unawarded(after: seq<I32>, pot: U32): Option<seq<I32>> {
    if after == [] then None
    else match PotAward(pot)
    case None => None
    case Some(award) =>
      var top := TopSeat(after);
      match CheckedSub(after[top], award)
      case None => None
      case Some(score) =>
        var before := after[top := score];
        if TopSeat(before) == top then Some(before) else None
  }

  /** A draw's scores before any final award. */
  function PreAward(after: seq<I32>, awarded: bool, pot: U32): Option<seq<I32>> {
    if awarded then Unawarded(after, pot) else Some(after)
  }

  predicate DrawExplained(log: seq<GameEvent>, t: nat, record: KyokuResultRecord, preAward: seq<I32>)
    requires t < |log|
  {
    var changes, evidence := record.settlement.changes, record.drawEventDeltaAdjustment;
    && log[t].Ryukyoku? && log[t].delta.Some? && evidence.Some?
    && |preAward| == |changes| == |log[t].delta.value| == |evidence.value|
    && (forall i :: 0 <= i < |changes| ==>
          DeltaExplained(changes[i].before, preAward[i], evidence.value[i], log[t].delta.value[i]))
    && (log[t].scores.Some? ==> log[t].scores.value == preAward)
  }

  predicate FinalAward(log: seq<GameEvent>, end: nat, finalKyoku: bool, pot: int)
    requires end < |log|
  {
    finalKyoku && pot > 0 && GameEndsAfter(log, end)
  }

  predicate DrawAccepted(log: seq<GameEvent>, start: nat, end: nat, terminal: seq<nat>, record: KyokuResultRecord,
                         finalKyoku: bool)
    requires HandAt(log, start, end, terminal)
    requires PotAt(log, start, terminal[0]) < 0x1_0000_0000
  {
    var pot := PotAt(log, start, terminal[0]);
    var after := Afters(record.settlement);
    && |terminal| == 1
    && var preAward := PreAward(after, FinalAward(log, end, finalKyoku, pot), pot);
       && preAward.Some? && DrawExplained(log, terminal[0], record, preAward.value)
  }

  /** Running scores over the terminals; `known` drops while an event carries neither delta nor scores. */
  datatype Running = Running(scores: seq<I32>, known: bool)

  /** Seat by seat, as far as every sum fits. */
  function AddAll(scores: seq<I32>, delta: seq<I32>): (r: Option<seq<I32>>)
    requires |scores| == |delta|
    ensures r.Some? <==> forall i :: 0 <= i < |scores| ==> CheckedAdd(scores[i], delta[i]).Some?
    ensures r.Some? ==> |r.value| == |scores| && forall i :: 0 <= i < |scores| ==> r.value[i] == scores[i] + delta[i]
  {
    if scores == [] then Some([])
    else
      var last := |scores| - 1;
      match AddAll(scores[..last], delta[..last])
      case None => None
      case Some(front) =>
        match CheckedAdd(scores[last], delta[last])
        case None => None
        case Some(sum) => Some(front + [sum])
  }

  function AfterDelta(r: Running, delta: Option<seq<I32>>): Option<Running> {
    match delta
    case None => Some(r.(known := false))
    case Some(d) =>
      if |d| != |r.scores| then None
      else if !r.known then Some(r)
      else match AddAll(r.scores, d)
        case None => None
        case Some(scores) => Some(r.(scores := scores))
  }

  function AfterScores(r: Running, scores: Option<seq<I32>>): Option<Running> {
    match scores
    case None => Some(r)
    case Some(s) =>
      if |s| != |r.scores| || (r.known && s != r.scores) then None else Some(Running(s, true))
  }

  function AfterTerminal(r: Running, e: GameEvent): Option<Running>
    requires IsTerminal(e)
  {
    match AfterDelta(r, e.delta)
    case None => None
    case Some(r1) => AfterScores(r1, e.scores)
  }

  function RunTerminals(log: seq<GameEvent>, terminal: seq<nat>, r: Running): Option<Running>
    requires forall i :: 0 <= i < |terminal| ==> terminal[i] < |log| && IsTerminal(log[terminal[i]])
  {
    if terminal == [] then Some(r)
    else
      match RunTerminals(log, terminal[..|terminal| - 1], r)
      case None => None
      case Some(r1) => AfterTerminal(r1, log[terminal[|terminal| - 1]])
  }

  predicate WinsAccepted(log: seq<GameEvent>, terminal: seq<nat>, record: KyokuResultRecord, reached: seq<I32>)
    requires forall i :: 0 <= i < |terminal| ==> terminal[i] < |log| && IsTerminal(log[terminal[i]])
  {
    var r := RunTerminals(log, terminal, Running(reached, true));
    && r.Some?
    && (r.value.known ==> r.value.scores == Afters(record.settlement))
  }

  /** The running scores once a leftover pot, if due, went to the top seat; only known scores have one. */
  function WithAward(r: Running, award: bool, pot: U32): Option<Running> {
    if !award then Some(r)
    else if !r.known || r.scores == [] then None
    else match Awarded(Snapshot(r.scores, pot))
      case Err(_) => None
      case Ok(scores) => Some(Running(scores, true))
  }

  /** The check on wins as the program states it, whether or not an award is due. */
  predicate WinsCheckOut(log: seq<GameEvent>, terminal: seq<nat>, record: KyokuResultRecord, reached: seq<I32>,
                         award: bool, pot: U32)
    requires TerminalsIn(log, terminal)
  {
    var r := RunTerminals(log, terminal, Running(reached, true));
    && r.Some?
    && var awarded := WithAward(r.value, award, pot);
       && awarded.Some?
       && (awarded.value.known ==> awarded.value.scores == Afters(record.settlement))
  }

  /** A pot is left over for the top seat only after a draw that ends the match. */
  predicate LeftoverAward(log: seq<GameEvent>, end: nat, finalKyoku: bool, wins: seq<WinResult>, pot: int)
    requires end < |log|
  {
    wins == [] && FinalAward(log, end, finalKyoku, pot)
  }

  /** So the award the check on wins provides for never happens, and its outcome is `WinsAccepted`. */
  lemma WinsLeaveNoAward(log: seq<GameEvent>, end: nat, terminal: seq<nat>, record: KyokuResultRecord,
                         reached: seq<I32>, finalKyoku: bool, pot: U32)
    requires end < |log| && TerminalsIn(log, terminal) && record.wins != []
    ensures WinsCheckOut(log, terminal, record, reached, LeftoverAward(log, end, finalKyoku, record.wins, pot), pot)
      <==> WinsAccepted(log, terminal, record, reached)
  {
    hide RunTerminals, GameEndsAfter;
  }

  predicate InI32(scores: seq<int>) { forall i :: 0 <= i < |scores| ==> I32_MIN <= scores[i] < 0x8000_0000 }

  /** Everything a replay demands of a record, hand by hand. */
  predicate SettlementAccepted(log: seq<GameEvent>, start: nat, end: nat, terminal: seq<nat>,
                               record: KyokuResultRecord, finalKyoku: bool)
    requires HandAt(log, start, end, terminal)
  {
    var t, settlement := terminal[0], record.settlement;
    var pot := PotAt(log, start, t);
    && |log[start].startScores| == |settlement.changes|
    && DepositsFit(log, log[start].startScores, log[start].kyotaku, start + 1, t)
    && CapturedBefore(log, start, t, settlement) && NoReachIn(log, t, end)
    && settlement.potAfter ==
         (if record.wins != [] || FinalAward(log, end, finalKyoku, pot) then 0 else pot)
    && (record.wins == [] ==> DrawAccepted(log, start, end, terminal, record, finalKyoku))
    && (record.wins != [] ==>
          InI32(Reached(log, start, t)) && WinsAccepted(log, terminal, record, Reached(log, start, t)))
    && NextHandStartsFrom(log, end, Afters(settlement), settlement.potAfter)
  }
}
