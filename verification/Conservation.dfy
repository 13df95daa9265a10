// Accepted settlements telescope over a whole replay: points and riichi sticks are conserved.

module Conservation {
  import opened Checked
  import opened Domain
  import opened EventLog
  import opened ReplayBoundary
  import opened Results
  import opened Settlement

  // ----- Sums --------------------------------------------------------------------------------

  function Sum(s: seq<int>): int {
    if s == [] then 0 else Sum(s[..|s| - 1]) + s[|s| - 1]
  }

  lemma {:induction false} SumUpdate(s: seq<int>, k: nat, x: int)
    requires k < |s|
    ensures Sum(s[k := x]) == Sum(s) - s[k] + x
    decreases |s|
  {
    var last := |s| - 1;
    if k == last {
      assert s[k := x][..last] == s[..last];
    } else {
      assert s[k := x][..last] == s[..last][k := x];
      SumUpdate(s[..last], k, x);
    }
  }

  lemma {:induction false} SumOfSums(a: seq<int>, b: seq<int>, c: seq<int>)
    requires |a| == |b| == |c| && forall i :: 0 <= i < |a| ==> a[i] == b[i] + c[i]
    ensures Sum(a) == Sum(b) + Sum(c)
  {
    if a != [] { SumOfSums(a[..|a| - 1], b[..|b| - 1], c[..|c| - 1]); }
  }

  /** Every deposit takes 1000 points from the table. */
  lemma {:induction false} DepositsLeaveTheScores(log: seq<GameEvent>, scores: seq<int>, lo: nat, hi: nat)
    requires lo <= hi <= |log|
    requires forall k :: lo <= k < hi && log[k].ReachAccepted? ==> log[k].actor < |scores|
    ensures Sum(Paid(log, scores, lo, hi)) == Sum(scores) - 1000 * Reaches(log, lo, hi)
    decreases hi
  {
    if lo == hi {
      assert Paid(log, scores, lo, hi) == scores;
    } else {
      var k := hi - 1;
      DepositsLeaveTheScores(log, scores, lo, k);
      PaidOne(log, scores, lo, k);
      if log[k].ReachAccepted? {
        var before := Paid(log, scores, lo, k);
        SumUpdate(before, log[k].actor, before[log[k].actor] - 1000);
      }
    }
  }

  // ----- One hand ------------------------------------------------------------------------------

  /** Every terminal carries one delta per seat. */
  predicate CarryDeltas(log: seq<GameEvent>, terminal: seq<nat>, n: nat)
    requires TerminalsIn(log, terminal)
  {
    forall i :: 0 <= i < |terminal| ==> log[terminal[i]].delta.Some? && |log[terminal[i]].delta.value| == n
  }

  /** What the terminals' deltas add up to for one seat. */
  function DeltasTo(log: seq<GameEvent>, terminal: seq<nat>, seat: nat): int
    requires TerminalsIn(log, terminal)
  {
    if terminal == [] then 0
    else
      var last := |terminal| - 1;
      var delta := log[terminal[last]].delta;
      DeltasTo(log, terminal[..last], seat) +
        (if delta.Some? && seat < |delta.value| then delta.value[seat] else 0)
  }

  /** And for the whole table. */
  function DeltaTotal(log: seq<GameEvent>, terminal: seq<nat>): int
    requires TerminalsIn(log, terminal)
  {
    if terminal == [] then 0
    else
      var last := |terminal| - 1;
      var delta := log[terminal[last]].delta;
      DeltaTotal(log, terminal[..last]) + (if delta.Some? then Sum(delta.value) else 0)
  }

  /** With every delta present the running scores stay known: start plus all deltas, seat by seat. */
  lemma {:induction false} RunningAddsDeltas(log: seq<GameEvent>, terminal: seq<nat>, reached: seq<I32>)
    requires TerminalsIn(log, terminal) && CarryDeltas(log, terminal, |reached|)
    requires RunTerminals(log, terminal, Running(reached, true)).Some?
    ensures var r := RunTerminals(log, terminal, Running(reached, true)).value;
      && r.known && |r.scores| == |reached|
      && (forall i :: 0 <= i < |reached| ==> r.scores[i] == reached[i] + DeltasTo(log, terminal, i))
      && Sum(r.scores) == Sum(reached) + DeltaTotal(log, terminal)
  {
    if terminal != [] {
      var last := |terminal| - 1;
      RunningAddsDeltas(log, terminal[..last], reached);
      var r1 := RunTerminals(log, terminal[..last], Running(reached, true)).value;
      var delta := log[terminal[last]].delta.value;
      var r := RunTerminals(log, terminal, Running(reached, true)).value;
      SumOfSums(r.scores, r1.scores, delta);
    }
  }

  /** Points on the table plus the sticks in the pot. */
  function Assets(scores: seq<int>, pot: int): int { Sum(scores) + 1000 * pot }

  function AssetsAtStart(log: seq<GameEvent>, start: nat): int
    requires start < |log| && log[start].StartKyoku?
  {
    Assets(log[start].startScores, log[start].kyotaku)
  }

  function AssetsAfter(settlement: KyokuSettlement): int { Assets(Afters(settlement), settlement.potAfter) }

  /**
   * What a hand adds to the table. A win's net is read off the log alone: its deltas less the pot it
   * collects. A draw's also uses what its record brings along: the log's delta less the record's own
   * evidence, plus the deposits by which the log's pot exceeds the record's captured one.
   */
  function HandNet(log: seq<GameEvent>, start: nat, terminal: seq<nat>, record: KyokuResultRecord): int
    requires TerminalsIn(log, terminal) && terminal != [] && start < terminal[0] && log[start].StartKyoku?
  {
    var pot := PotAt(log, start, terminal[0]);
    if record.wins != [] then DeltaTotal(log, terminal) - 1000 * pot
    else
      DeltaTotal(log, terminal) - Sum(record.drawEventDeltaAdjustment.GetOr([]))
        + 1000 * (pot - record.settlement.potBefore)
  }

  /** An accepted winning hand settles each seat at start, less its deposits, plus its deltas. */
  lemma WinningHandSettles(log: seq<GameEvent>, start: nat, end: nat, terminal: seq<nat>, record: KyokuResultRecord,
                           finalKyoku: bool)
    requires HandAt(log, start, end, terminal) && record.wins != []
    requires SettlementAccepted(log, start, end, terminal, record, finalKyoku)
    requires CarryDeltas(log, terminal, |log[start].startScores|)
    ensures |record.settlement.changes| == |log[start].startScores|
    ensures forall i :: 0 <= i < |record.settlement.changes| ==>
      record.settlement.changes[i].after ==
        log[start].startScores[i] - 1000 * Deposits(log, start + 1, terminal[0], i) + DeltasTo(log, terminal, i)
    ensures AssetsAfter(record.settlement) == AssetsAtStart(log, start) + HandNet(log, start, terminal, record)
  {
    hide CapturedBefore, NextHandStartsFrom, NoReachIn, RunTerminals, DeltasTo, DeltaTotal;
    var t := terminal[0];
    var reached: seq<I32> := Reached(log, start, t);
    RunningAddsDeltas(log, terminal, reached);
    DepositsLeaveTheScores(log, log[start].startScores, start + 1, t);
    assert Afters(record.settlement) == RunTerminals(log, terminal, Running(reached, true)).value.scores;
  }

  /** Undoing the award moves exactly the pot's worth of points. */
  lemma UnawardedSum(after: seq<I32>, pot: U32)
    requires Unawarded(after, pot).Some?
    ensures |Unawarded(after, pot).value| == |after|
    ensures Sum(Unawarded(after, pot).value) == Sum(after) - 1000 * pot
  {
    var award := PotAward(pot).value;
    var top := Engine.TopSeat(after);
    SumUpdate(after, top, after[top] - award);
  }

  lemma DrawMovementSum(log: seq<GameEvent>, t: nat, record: KyokuResultRecord, preAward: seq<I32>)
    requires t < |log| && DrawExplained(log, t, record, preAward)
    ensures Sum(preAward) ==
      Sum(Befores(record.settlement)) + Sum(log[t].delta.value) - Sum(record.drawEventDeltaAdjustment.value)
  {
    var delta: seq<int>, evidence: seq<int> := log[t].delta.value, record.drawEventDeltaAdjustment.value;
    var befores: seq<int>, afters: seq<int> := Befores(record.settlement), preAward;
    var moved: seq<int> := seq(|afters|, i requires 0 <= i < |afters| => afters[i] + evidence[i]);
    forall i | 0 <= i < |afters|
      ensures moved[i] == befores[i] + delta[i]
    {
      assert DeltaExplained(record.settlement.changes[i].before, preAward[i],
                            record.drawEventDeltaAdjustment.value[i], log[t].delta.value[i]);
    }
    SumOfSums(moved, afters, evidence);
    SumOfSums(moved, befores, delta);
  }

  /** Points plus pot just before the last action are the start's, whichever boundary matched. */
  lemma CapturedAssets(log: seq<GameEvent>, start: nat, t: nat, settlement: KyokuSettlement)
    requires start < t < |log| && log[start].StartKyoku?
    requires DepositsFit(log, log[start].startScores, log[start].kyotaku, start + 1, t)
    requires CapturedBefore(log, start, t, settlement)
    ensures Assets(Befores(settlement), settlement.potBefore) == AssetsAtStart(log, start)
  {
    var scores := log[start].startScores;
    DepositsLeaveTheScores(log, scores, start + 1, t);
    if MatchesBefore(settlement, Reached(log, start, t), PotAt(log, start, t)) {
      assert Befores(settlement) == Reached(log, start, t);
    } else {
      DepositsLeaveTheScores(log, scores, start + 1, t - 1);
      assert Befores(settlement) == Reached(log, start, t - 1);
    }
  }

  /** An accepted draw changes the table's assets by exactly its net. */
  lemma DrawnHandSettles(log: seq<GameEvent>, start: nat, end: nat, terminal: seq<nat>, record: KyokuResultRecord,
                         finalKyoku: bool)
    requires HandAt(log, start, end, terminal) && record.wins == []
    requires SettlementAccepted(log, start, end, terminal, record, finalKyoku)
    ensures AssetsAfter(record.settlement) == AssetsAtStart(log, start) + HandNet(log, start, terminal, record)
  {
    hide NextHandStartsFrom, NoReachIn, GameEndsAfter, DepositsFit, CapturedBefore, DrawExplained, Unawarded, Sum;
    var t := terminal[0];
    var pot := PotAt(log, start, t);
    PotFits(log, start, t);
    var award := FinalAward(log, end, finalKyoku, pot);
    var after := Afters(record.settlement);
    var preAward := PreAward(after, award, pot).value;
    CapturedAssets(log, start, t, record.settlement);
    DrawMovementSum(log, t, record, preAward);
    if award { UnawardedSum(after, pot); }
    OneTerminalTotal(log, terminal);
    assert record.drawEventDeltaAdjustment.Some? && log[t].delta.Some? by { ExplainedHas(log, t, record, preAward); }
  }

  lemma PotFits(log: seq<GameEvent>, start: nat, t: nat)
    requires start < t <= |log| && log[start].StartKyoku?
    requires DepositsFit(log, log[start].startScores, log[start].kyotaku, start + 1, t)
    ensures PotAt(log, start, t) < 0x1_0000_0000
  {
  }

  lemma ExplainedHas(log: seq<GameEvent>, t: nat, record: KyokuResultRecord, preAward: seq<I32>)
    requires t < |log| && DrawExplained(log, t, record, preAward)
    ensures record.drawEventDeltaAdjustment.Some? && log[t].Ryukyoku? && log[t].delta.Some?
  {
  }

  lemma OneTerminalTotal(log: seq<GameEvent>, terminal: seq<nat>)
    requires TerminalsIn(log, terminal) && |terminal| == 1
    ensures var delta := log[terminal[0]].delta;
      DeltaTotal(log, terminal) == if delta.Some? then Sum(delta.value) else 0
  {
    assert terminal[..0] == [];
    assert DeltaTotal(log, terminal[..0]) == 0;
  }

  // ----- A whole replay --------------------------------------------------------------------------

  function HandTerminals(log: seq<GameEvent>, start: nat, record: KyokuResultRecord): (r: seq<nat>)
    requires start < record.endEventIndex < |log|
    ensures TerminalsIn(log, r)
  {
    TerminalsBetween(log, start + 1, record.endEventIndex)
  }

  /** The records of a replay, one per hand, all accepted. */
  predicate AcceptedReplay(log: seq<GameEvent>, modes: seq<GameMode>, records: seq<KyokuResultRecord>) {
    && RecordsInPlace(log, modes, StartsOf(log), records)
    && forall p :: 0 <= p < |records| ==> AcceptedHand(log, modes, records, p)
  }

  predicate AcceptedHand(log: seq<GameEvent>, modes: seq<GameMode>, records: seq<KyokuResultRecord>, p: nat)
    requires RecordsInPlace(log, modes, StartsOf(log), records) && p < |records|
  {
    assert RecordInPlace(log, modes[p], StartsOf(log), records[p], p);
    var start := StartsOf(log)[p];
    var terminal := HandTerminals(log, start, records[p]);
    && terminal != []
    && SettlementAccepted(log, start, records[p].endEventIndex, terminal, records[p], p + 1 == |records|)
  }

  /** Every winning hand's terminals carry a delta for each seat. */
  predicate WinsCarryDeltas(log: seq<GameEvent>, modes: seq<GameMode>, records: seq<KyokuResultRecord>)
    requires AcceptedReplay(log, modes, records)
  {
    forall p :: 0 <= p < |records| && records[p].wins != [] ==> HandCarriesDeltas(log, modes, records, p)
  }

  predicate HandCarriesDeltas(log: seq<GameEvent>, modes: seq<GameMode>, records: seq<KyokuResultRecord>, p: nat)
    requires AcceptedReplay(log, modes, records) && p < |records|
  {
    assert RecordInPlace(log, modes[p], StartsOf(log), records[p], p);
    var start := StartsOf(log)[p];
    CarryDeltas(log, HandTerminals(log, start, records[p]), |log[start].startScores|)
  }

  function NetOf(log: seq<GameEvent>, modes: seq<GameMode>, records: seq<KyokuResultRecord>, p: nat): int
    requires AcceptedReplay(log, modes, records) && p < |records|
  {
    assert RecordInPlace(log, modes[p], StartsOf(log), records[p], p);
    assert AcceptedHand(log, modes, records, p);
    var start := StartsOf(log)[p];
    HandNet(log, start, HandTerminals(log, start, records[p]), records[p])
  }

  /** What the first `k` hands add together. */
  function NetUpTo(log: seq<GameEvent>, modes: seq<GameMode>, records: seq<KyokuResultRecord>, k: nat): int
    requires AcceptedReplay(log, modes, records) && k <= |records|
  {
    if k == 0 then 0 else NetUpTo(log, modes, records, k - 1) + NetOf(log, modes, records, k - 1)
  }

  lemma HandSettles(log: seq<GameEvent>, modes: seq<GameMode>, records: seq<KyokuResultRecord>, p: nat)
    requires AcceptedReplay(log, modes, records) && WinsCarryDeltas(log, modes, records) && p < |records|
    ensures AssetsAfter(records[p].settlement) ==
      AssetsAtStart(log, StartsOf(log)[p]) + NetOf(log, modes, records, p)
  {
    hide SettlementAccepted, HandNet, CarryDeltas, AssetsAfter, AssetsAtStart;
    assert RecordInPlace(log, modes[p], StartsOf(log), records[p], p) && AcceptedHand(log, modes, records, p);
    var start := StartsOf(log)[p];
    var terminal := HandTerminals(log, start, records[p]);
    if records[p].wins != [] {
      assert HandCarriesDeltas(log, modes, records, p);
      WinningHandSettles(log, start, records[p].endEventIndex, terminal, records[p], p + 1 == |records|);
    } else {
      DrawnHandSettles(log, start, records[p].endEventIndex, terminal, records[p], p + 1 == |records|);
    }
  }

  /** Between one hand's start and the next one's no other hand starts. */
  lemma NoStartBetween(log: seq<GameEvent>, p: nat, j: nat)
    requires p + 1 < |StartsOf(log)| && StartsOf(log)[p] < j < StartsOf(log)[p + 1]
    ensures !log[j].StartKyoku?
  {
    hide StartsBefore, EndsBefore;
    StartBeforeIff(log, p, j);
    StartBeforeIff(log, p + 1, j + 1);
    CountsAfterOne(log, j);
  }

  /** Each record's scores and pot are the ones the next hand starts from. */
  lemma HandsLink(log: seq<GameEvent>, modes: seq<GameMode>, records: seq<KyokuResultRecord>, p: nat)
    requires AcceptedReplay(log, modes, records) && p + 1 < |records|
    ensures var next := log[StartsOf(log)[p + 1]];
      && next.startScores == Afters(records[p].settlement) && next.kyotaku == records[p].settlement.potAfter
    ensures AssetsAtStart(log, StartsOf(log)[p + 1]) == AssetsAfter(records[p].settlement)
  {
    hide DepositsFit, CapturedBefore, DrawAccepted, WinsAccepted, Reached, PotAt, Sum;
    assert RecordInPlace(log, modes[p], StartsOf(log), records[p], p) && AcceptedHand(log, modes, records, p);
    var end, next := records[p].endEventIndex, StartsOf(log)[p + 1];
    forall j | end < j < next
      ensures !log[j].StartKyoku?
    {
      NoStartBetween(log, p, j);
    }
    assert NextHandStartsFrom(log, end, Afters(records[p].settlement), records[p].settlement.potAfter);
  }

  /**
   * Settlements telescope: after any hand of an accepted replay the table holds what the first
   * hand started with plus what the hands so far added, as read off the log.
   */
  lemma {:induction false} SettlementsTelescope(log: seq<GameEvent>, modes: seq<GameMode>,
                                                records: seq<KyokuResultRecord>, p: nat)
    requires AcceptedReplay(log, modes, records) && WinsCarryDeltas(log, modes, records) && p < |records|
    ensures AssetsAfter(records[p].settlement) ==
      AssetsAtStart(log, StartsOf(log)[0]) + NetUpTo(log, modes, records, p + 1)
  {
    hide AcceptedReplay, WinsCarryDeltas, NetOf, AssetsAfter, AssetsAtStart;
    HandSettles(log, modes, records, p);
    if p > 0 {
      SettlementsTelescope(log, modes, records, p - 1);
      HandsLink(log, modes, records, p - 1);
    } else {
      assert NetUpTo(log, modes, records, 0) == 0;
    }
  }

  /** Points plus 1000 per stick never change while each hand's net delta is the pot it collects. */
  lemma PointsAndSticksAreConserved(log: seq<GameEvent>, modes: seq<GameMode>, records: seq<KyokuResultRecord>, p: nat)
    requires AcceptedReplay(log, modes, records) && WinsCarryDeltas(log, modes, records) && p < |records|
    requires forall q :: 0 <= q <= p ==> NetOf(log, modes, records, q) == 0
    ensures AssetsAfter(records[p].settlement) == AssetsAtStart(log, StartsOf(log)[0])
    ensures AssetsAtStart(log, StartsOf(log)[p]) == AssetsAtStart(log, StartsOf(log)[0])
  {
    hide AcceptedReplay, WinsCarryDeltas, NetOf, AssetsAfter, AssetsAtStart;
    SettlementsTelescope(log, modes, records, p);
    ZeroNetsAddNothing(log, modes, records, p + 1);
    HandSettles(log, modes, records, p);
  }

  lemma {:induction false} ZeroNetsAddNothing(log: seq<GameEvent>, modes: seq<GameMode>,
                                              records: seq<KyokuResultRecord>, k: nat)
    requires AcceptedReplay(log, modes, records) && k <= |records|
    requires forall q :: 0 <= q < k ==> NetOf(log, modes, records, q) == 0
    ensures NetUpTo(log, modes, records, k) == 0
  {
    hide AcceptedReplay, NetOf;
    if k > 0 { ZeroNetsAddNothing(log, modes, records, k - 1); }
  }
}
