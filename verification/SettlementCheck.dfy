// The settlement validator as written, proved to accept exactly what `SettlementAccepted` says.

module SettlementCheck {
  import opened Wrappers
  import opened Checked
  import opened Domain
  import opened Results
  import opened Engine
  import opened Settlement

  /** The last deposit before `t`, or the hand's start. */
  function LastDeposit(log: seq<GameEvent>, start: nat, t: nat): (b: nat)
    requires start < t <= |log|
    ensures start <= b < t && (b == start || log[b].ReachAccepted?)
    ensures Reaches(log, b + 1, t) == 0
    decreases t
  {
    if t - 1 == start || log[t - 1].ReachAccepted? then t - 1 else LastDeposit(log, start, t - 1)
  }

  /** Between a boundary and a later point without deposits, scores and pot stand still. */
  lemma StandsStill(log: seq<GameEvent>, start: nat, b: nat, t: nat)
    requires start <= b < t <= |log| && log[start].StartKyoku? && Reaches(log, b + 1, t) == 0
    ensures PotAt(log, start, t) == log[start].kyotaku + Reaches(log, start + 1, b + 1)
    ensures Reached(log, start, t) == Paid(log, log[start].startScores, start + 1, b + 1)
  {
    var lo, mid := start + 1, b + 1;
    ReachesSplit(log, lo, mid, t);
    forall i: nat
      ensures Deposits(log, lo, t, i) == Deposits(log, lo, mid, i)
    {
      DepositsSplit(log, lo, mid, t, i);
      NoReachesPayNothing(log, mid, t, i);
    }
  }

  lemma DepositIsAfterStart(log: seq<GameEvent>, start: nat, t: nat)
    requires start < t <= |log| && log[start].StartKyoku? && log[t - 1].ReachAccepted?
    ensures start < t - 1
  {
  }

  /**
   * The search for the matching boundary decides whether the record was captured at the terminal
   * or just before one deposit directly preceding it.
   */
  lemma BoundaryDecidesCapture(log: seq<GameEvent>, start: nat, t: nat, settlement: KyokuSettlement, r: Replayed)
    requires start < t < |log| && log[start].StartKyoku? && ReplayedFits(log, start, t, settlement, r)
    ensures CapturedBefore(log, start, t, settlement) <==>
      && r.boundary.Some?
      && (|| Reaches(log, r.boundary.value + 1, t) == 0
          || (Reaches(log, r.boundary.value + 1, t) == 1 && t > start + 1 && log[t - 1].ReachAccepted?))
  {
    if MatchesBefore(settlement, Reached(log, start, t), PotAt(log, start, t)) {
      var b := LastDeposit(log, start, t);
      StandsStill(log, start, b, t);
      assert IsBoundary(log, start, t, settlement, b);
      BoundaryIsUnique(log, start, t, settlement, b, r.boundary.value);
    }
    if log[t - 1].ReachAccepted? {
      DepositIsAfterStart(log, start, t);
      if MatchesBefore(settlement, Reached(log, start, t - 1), PotAt(log, start, t - 1)) {
        var b := LastDeposit(log, start, t - 1);
        StandsStill(log, start, b, t - 1);
        assert IsBoundary(log, start, t, settlement, b);
        BoundaryIsUnique(log, start, t, settlement, b, r.boundary.value);
      }
    }
    if r.boundary.Some? {
      var b := r.boundary.value;
      if Reaches(log, b + 1, t) == 0 {
        StandsStill(log, start, b, t);
      } else if Reaches(log, b + 1, t) == 1 && t > start + 1 && log[t - 1].ReachAccepted? {
        StandsStill(log, start, b, t - 1);
      }
    }
  }

  /** The first hand start after `end` decides. */
  method CheckNextHand(log: seq<GameEvent>, end: nat, scores: seq<I32>, pot: U32) returns (ok: bool)
    requires end < |log|
    ensures ok <==> NextHandStartsFrom(log, end, scores, pot)
  {
    for k := end + 1 to |log|
      invariant forall j :: end < j < k ==> !log[j].StartKyoku?
    {
      if log[k].StartKyoku? {
        ok := log[k].startScores == scores && log[k].kyotaku == pot;
        assert forall l ::
          (end < l < |log| && log[l].StartKyoku? && forall j :: end < j < l ==> !log[j].StartKyoku?) ==> l == k;
        return;
      }
    }
    return true;
  }

  method CheckDraw(log: seq<GameEvent>, start: nat, end: nat, terminal: seq<nat>, record: KyokuResultRecord,
                   award: bool, pot: U32) returns (ok: bool)
    requires HandAt(log, start, end, terminal)
    ensures ok <==>
      && |terminal| == 1
      && var preAward := PreAward(Afters(record.settlement), award, pot);
         preAward.Some? && DrawExplained(log, terminal[0], record, preAward.value)
  {
    var t, changes := terminal[0], record.settlement.changes;
    if |terminal| != 1 || !log[t].Ryukyoku? || log[t].delta.None? { return false; }
    var delta := log[t].delta.value;
    if record.drawEventDeltaAdjustment.None? { return false; }
    var evidence := record.drawEventDeltaAdjustment.value;
    if |delta| != |changes| || |evidence| != |delta| {
      UnawardedKeepsLength(Afters(record.settlement), pot);
      return false;
    }
    var preAward := PreAward(Afters(record.settlement), award, pot);
    if preAward.None? { return false; }
    UnawardedKeepsLength(Afters(record.settlement), pot);
    for i := 0 to |changes|
      invariant forall j :: 0 <= j < i ==>
        DeltaExplained(changes[j].before, preAward.value[j], evidence[j], delta[j])
    {
      var movement := CheckedSub(preAward.value[i], changes[i].before);
      if movement.None? { return false; }
      if CheckedAdd(movement.value, evidence[i]) != Some(delta[i]) { return false; }
    }
    return log[t].scores.None? || log[t].scores.value == preAward.value;
  }

  lemma UnawardedKeepsLength(after: seq<I32>, pot: U32)
    ensures Unawarded(after, pot).Some? ==> |Unawarded(after, pot).value| == |after|
  {
  }

  method CheckWins(log: seq<GameEvent>, start: nat, end: nat, terminal: seq<nat>, record: KyokuResultRecord,
                   reached: seq<I32>, award: bool, pot: U32) returns (ok: bool)
    requires HandAt(log, start, end, terminal)
    ensures ok <==> WinsCheckOut(log, terminal, record, reached, award, pot)
  {
    hide AfterTerminal;
    var current := Running(reached, true);
    for i := 0 to |terminal|
      invariant RunTerminals(log, terminal[..i], Running(reached, true)) == Some(current)
    {
      assert terminal[..i + 1][..i] == terminal[..i];
      var next := AfterTerminal(current, log[terminal[i]]);
      if next.None? {
        assert RunTerminals(log, terminal[..i + 1], Running(reached, true)).None?;
        FailedRunStays(log, terminal, i + 1, Running(reached, true));
        return false;
      }
      current := next.value;
    }
    assert terminal[..|terminal|] == terminal;
    var after := current.scores;
    if award {
      if !current.known || after == [] { return false; }
      var awarded := Awarded(Snapshot(after, pot));
      if awarded.Err? { return false; }
      after := awarded.value;
    }
    return !current.known || after == Afters(record.settlement);
  }

  lemma {:induction false} FailedRunStays(log: seq<GameEvent>, terminal: seq<nat>, k: nat, r: Running)
    requires forall i :: 0 <= i < |terminal| ==> terminal[i] < |log| && IsTerminal(log[terminal[i]])
    requires k <= |terminal| && RunTerminals(log, terminal[..k], r).None?
    ensures RunTerminals(log, terminal, r).None?
    decreases |terminal|
  {
    if k == |terminal| {
      assert terminal[..k] == terminal;
    } else {
      assert terminal[..|terminal| - 1][..k] == terminal[..k];
      FailedRunStays(log, terminal[..|terminal| - 1], k, r);
    }
  }

  /** The validator: replay deposits, place the capture, then check the draw or the wins. */
  method ValidateCanonicalSettlement(log: seq<GameEvent>, start: nat, end: nat, terminal: seq<nat>,
                                     record: KyokuResultRecord, finalKyoku: bool) returns (ok: bool)
    requires HandAt(log, start, end, terminal)
    ensures ok <==> SettlementAccepted(log, start, end, terminal, record, finalKyoku)
  {
    hide DepositsFit, CapturedBefore, NextHandStartsFrom, WinsAccepted, DrawExplained, PreAward, ReplayedFits;
    hide IsBoundary, WinsCheckOut;
    var settlement, t := record.settlement, terminal[0];
    if |log[start].startScores| != |settlement.changes| { return false; }
    var replayed := ReplayDeposits(log, start, t, settlement);
    if replayed.None? { return false; }
    var Replayed(reached, pot, boundary) := replayed.value;
    ReplayedMeans(log, start, t, settlement, replayed.value);
    BoundaryDecidesCapture(log, start, t, settlement, replayed.value);
    if boundary.None? { return false; }
    var later := Reaches(log, boundary.value + 1, t);
    if later != 0 && !(later == 1 && t > start + 1 && log[t - 1].ReachAccepted?) { return false; }
    if exists k :: t <= k < end && log[k].ReachAccepted? { return false; }
    var gameEnds := exists k :: end < k < |log| && log[k].EndGame?;
    var award := finalKyoku && record.wins == [] && pot > 0 && gameEnds;
    assert award <==> LeftoverAward(log, end, finalKyoku, record.wins, pot);
    if settlement.potAfter != (if record.wins != [] || award then 0 else pot) { return false; }
    if record.wins == [] {
      ok := CheckDraw(log, start, end, terminal, record, award, pot);
    } else {
      WinsLeaveNoAward(log, end, terminal, record, reached, finalKyoku, pot);
      ok := CheckWins(log, start, end, terminal, record, reached, award, pot);
    }
    if ok {
      ok := CheckNextHand(log, end, Afters(settlement), settlement.potAfter);
    }
  }

  lemma ReplayedMeans(log: seq<GameEvent>, start: nat, t: nat, settlement: KyokuSettlement, r: Replayed)
    requires start < t <= |log| && log[start].StartKyoku? && ReplayedFits(log, start, t, settlement, r)
    ensures r.scores == Reached(log, start, t) && r.pot == PotAt(log, start, t) && InI32(Reached(log, start, t))
    ensures r.boundary.Some? ==> start <= r.boundary.value < t
  {
    assert forall i :: 0 <= i < |r.scores| ==> Reached(log, start, t)[i] == r.scores[i];
  }
}
