// Producer and validator agree, and accepted settlements telescope over a whole replay.

module SettlementTheorems {
  import opened Wrappers
  import opened Checked
  import opened Domain
  import opened Results
  import opened Engine
  import opened Settlement
  import SettlementCheck

  // ----- Draws: what the producer writes, the validator believes ------------------------------

  /** The engine state the hand's last action was applied to is a deposit prefix of the log. */
  predicate IsReachPrefix(log: seq<GameEvent>, start: nat, b: nat, pre: Snapshot)
    requires start <= b < |log| && log[start].StartKyoku?
  {
    && (b == start || log[b].ReachAccepted?)
    && pre.pot == log[start].kyotaku + Reaches(log, start + 1, b + 1)
    && pre.scores == Paid(log, log[start].startScores, start + 1, b + 1)
  }

  /** A record the producer wrote for a draw. */
  predicate DrawRecorded(ended: EngineKyokuEnd, mode: GameMode, roster: seq<Participant>, sequence: nat, first: nat,
                         events: seq<GameEvent>, record: KyokuResultRecord)
  {
    && |ended.preAction.scores| == mode.SeatCount()
    && RecordOf(ended, mode, roster, sequence, first, events) == Ok(record)
    && record.wins == []
  }

  /** What the producer's steps say about the record of a draw. */
  lemma DrawRecordMeans(events: seq<GameEvent>, pre: Snapshot, capture: Capture, actual: Snapshot, done: bool,
                        ended: EngineKyokuEnd, mode: GameMode, roster: seq<Participant>, sequence: nat, first: nat,
                        record: KyokuResultRecord)
    requires capture.state.scores != []
    requires FinishApply(events, pre, capture, actual, done) == Ok(Some(ended))
    requires DrawRecorded(ended, mode, roster, sequence, first, events, record)
    ensures var changes := record.settlement.changes; var n := mode.SeatCount();
      && |changes| == |pre.scores| == |actual.scores| == |capture.state.scores| == n
      && Befores(record.settlement) == pre.scores && Afters(record.settlement) == actual.scores
      && record.settlement.potBefore == pre.pot && record.settlement.potAfter == actual.pot
      && |DrawDeltas(events)| == 1 && DrawDeltas(events)[0].Some? && |DrawDeltas(events)[0].value| == n
      && record.drawEventDeltaAdjustment.Some? && |record.drawEventDeltaAdjustment.value| == n
      && AdjustmentsOf(DrawDeltas(events)[0].value, pre.scores, capture.state.scores)
           == Some(record.drawEventDeltaAdjustment.value)
      && (if PotWasAwarded(capture.state, actual, done) then Awarded(capture.state) == Ok(actual.scores)
          else actual == capture.state)
  {
    hide ScanEvents, DrawDeltas, AdjustmentsOf, Awarded, TopSeat, WinsFit, SettlementFits, Terminals, CountHora;
  }

  /** Undoing an award to the leader gives back the copy's scores, and no step overflows. */
  lemma AwardIsUndone(copy: Snapshot, after: seq<I32>)
    requires copy.scores != [] && copy.pot > 0 && Awarded(copy) == Ok(after)
    ensures Unawarded(after, copy.pot) == Some(copy.scores)
  {
    var award := PotAward(copy.pot).value;
    AwardKeepsTop(copy.scores, award);
    var top := TopSeat(copy.scores);
    assert after == copy.scores[top := copy.scores[top] + award];
    assert after[top := copy.scores[top]] == copy.scores;
  }

  /** The evidence explains every seat's emitted delta. */
  lemma EvidenceExplains(emitted: seq<I32>, before: seq<I32>, after: seq<I32>, evidence: seq<I32>)
    requires |emitted| == |before| == |after| && AdjustmentsOf(emitted, before, after) == Some(evidence)
    ensures |evidence| == |emitted|
    ensures forall i :: 0 <= i < |emitted| ==> DeltaExplained(before[i], after[i], evidence[i], emitted[i])
  {
    hide AdjustmentsOf, AdjustmentOf, DeltaExplained;
    forall i | 0 <= i < |emitted|
      ensures DeltaExplained(before[i], after[i], evidence[i], emitted[i])
    {
      AdjustmentExplains(emitted[i], before[i], after[i], evidence[i]);
    }
  }

  lemma AdjustmentExplains(emitted: I32, before: I32, after: I32, evidence: I32)
    requires AdjustmentOf(emitted, before, after) == Some(evidence)
    ensures DeltaExplained(before, after, evidence, emitted)
  {
  }

  lemma CaptureIsPlaced(log: seq<GameEvent>, start: nat, t: nat, b: nat, pre: Snapshot, settlement: KyokuSettlement)
    requires start <= b < t < |log| && log[start].StartKyoku? && IsReachPrefix(log, start, b, pre)
    requires Befores(settlement) == pre.scores && settlement.potBefore == pre.pot
    ensures IsBoundary(log, start, t, settlement, b)
  {
    assert forall i :: 0 <= i < |pre.scores| ==> pre.scores[i] == settlement.changes[i].before;
  }

  /** A capture is placed at the terminal, or before the one deposit that directly precedes it. */
  predicate CaptureInTime(log: seq<GameEvent>, b: nat, t: nat)
    requires b < t < |log|
  {
    || Reaches(log, b + 1, t) == 0
    || (Reaches(log, b + 1, t) == 1 && log[t - 1].ReachAccepted?)
  }

  lemma CapturedIffInTime(log: seq<GameEvent>, start: nat, t: nat, b: nat, settlement: KyokuSettlement)
    requires start <= b < t < |log| && log[start].StartKyoku? && IsBoundary(log, start, t, settlement, b)
    ensures CapturedBefore(log, start, t, settlement) <==> CaptureInTime(log, b, t)
  {
    var r := Replayed([], 0, Some(b));
    if CaptureInTime(log, b, t) {
      if Reaches(log, b + 1, t) == 0 {
        SettlementCheck.StandsStill(log, start, b, t);
      } else {
        SettlementCheck.StandsStill(log, start, b, t - 1);
      }
    }
    if CapturedBefore(log, start, t, settlement) {
      ReachesSplit(log, start + 1, b + 1, t);
      if !MatchesBefore(settlement, Reached(log, start, t), PotAt(log, start, t)) {
        SettlementCheck.DepositIsAfterStart(log, start, t);
        assert PotAt(log, start, t) == PotAt(log, start, t - 1) + 1;
      }
    }
  }

  /** What the log around the hand must show for a draw's record to be believed. */
  predicate LogSupportsDraw(log: seq<GameEvent>, b: nat, end: nat, t: nat, finalKyoku: bool, capture: Capture,
                            actual: Snapshot, done: bool)
    requires b < t < end < |log| && log[t].Ryukyoku?
  {
    && CaptureInTime(log, b, t) && NoReachIn(log, t, end)
    && (PotWasAwarded(capture.state, actual, done) <==> FinalAward(log, end, finalKyoku, capture.state.pot))
    && (log[t].scores.Some? ==> log[t].scores.value == capture.state.scores)
    && NextHandStartsFrom(log, end, actual.scores, actual.pot)
  }

  /** Every riichi accepted in [lo, hi) is by one of `n` seats. */
  predicate ReachesSeated(log: seq<GameEvent>, lo: nat, hi: nat, n: nat)
    requires hi <= |log|
  {
    forall k :: lo <= k < hi && log[k].ReachAccepted? ==> log[k].actor < n
  }

  /** A deposit paid after the capture leaves its seat's score in range. */
  predicate LateDepositFits(log: seq<GameEvent>, b: nat, t: nat, pre: Snapshot)
    requires b < t < |log|
  {
    Reaches(log, b + 1, t) == 0 || !log[t - 1].ReachAccepted?
      || (log[t - 1].actor < |pre.scores| && pre.scores[log[t - 1].actor] - 1000 >= I32_MIN)
  }

  /**
   * Replaying the deposits overflows nowhere exactly when every one is by a seated player and the
   * one paid after the capture, if any, fits: all earlier ones are in the captured scores already.
   */
  lemma DepositsFitIff(log: seq<GameEvent>, start: nat, b: nat, t: nat, pre: Snapshot)
    requires start <= b < t < |log| && log[start].StartKyoku? && IsReachPrefix(log, start, b, pre)
    requires CaptureInTime(log, b, t) && PotAt(log, start, t) < 0x1_0000_0000
    ensures DepositsFit(log, log[start].startScores, log[start].kyotaku, start + 1, t) <==>
      ReachesSeated(log, start + 1, t, |log[start].startScores|) && LateDepositFits(log, b, t, pre)
  {
    var scores := log[start].startScores;
    var paid := Paid(log, scores, start + 1, t);
    var before: seq<int>, late := pre.scores, Reaches(log, b + 1, t) == 1;
    forall i | 0 <= i < |scores|
      ensures paid[i] == before[i] - if late && log[t - 1].actor == i then 1000 else 0
    {
      DepositsSplit(log, start + 1, b + 1, t, i);
      if late { NoReachesPayNothing(log, b + 1, t - 1, i); } else { NoReachesPayNothing(log, b + 1, t, i); }
    }
  }

  /**
   * Producer and validator agree on draws. Whenever reconciling and recording succeed, the state
   * before the last action is a deposit prefix of the log and the ended pot is the starting pot
   * plus the deposits, then the validator accepts the record exactly when every deposit is by a
   * seated player, the one after the capture (if any) fits, and the log shows the capture in time,
   * an award exactly when the match ends there with a pot, the pre-award scores if it shows any,
   * and a next hand that starts from the settlement. No other checked step can overflow, and the
   * scores the validator recovers are the copy's.
   */
  lemma DrawsAgree(log: seq<GameEvent>, start: nat, b: nat, t: nat, end: nat, finalKyoku: bool,
                   events: seq<GameEvent>, pre: Snapshot, capture: Capture, actual: Snapshot, done: bool,
                   ended: EngineKyokuEnd, mode: GameMode, roster: seq<Participant>, sequence: nat, first: nat,
                   record: KyokuResultRecord)
    requires start <= b < t < end < |log| && HandAt(log, start, end, [t]) && log[t].Ryukyoku?
    requires |log[start].startScores| == mode.SeatCount()
    requires capture.state.scores != []
    requires FinishApply(events, pre, capture, actual, done) == Ok(Some(ended))
    requires DrawRecorded(ended, mode, roster, sequence, first, events, record)
    requires DrawDeltas(events) == [log[t].delta]
    requires IsReachPrefix(log, start, b, pre)
    requires capture.state.pot == PotAt(log, start, t)
    ensures SettlementAccepted(log, start, end, [t], record, finalKyoku) <==>
      && ReachesSeated(log, start + 1, t, mode.SeatCount()) && LateDepositFits(log, b, t, pre)
      && LogSupportsDraw(log, b, end, t, finalKyoku, capture, actual, done)
    ensures PotWasAwarded(capture.state, actual, done) ==>
      Afters(record.settlement) != [] &&
      PreAward(Afters(record.settlement), true, capture.state.pot) == Some(capture.state.scores)
  {
    hide DepositsFit, CapturedBefore, IsReachPrefix, CaptureInTime, DrawExplained, FinishApply;
    hide ReachesSeated, LateDepositFits, AdjustmentsOf, DeltaExplained, SettlementAccepted, LogSupportsDraw;
    DrawRecordMeans(events, pre, capture, actual, done, ended, mode, roster, sequence, first, record);
    CaptureIsPlaced(log, start, t, b, pre, record.settlement);
    CapturedIffInTime(log, start, t, b, record.settlement);
    EvidenceExplains(log[t].delta.value, pre.scores, capture.state.scores, record.drawEventDeltaAdjustment.value);
    if PotWasAwarded(capture.state, actual, done) { AwardIsUndone(capture.state, actual.scores); }
    DrawIsExplained(log, t, record, pre.scores, capture.state.scores);
    DrawVerdict(log, start, b, t, end, finalKyoku, capture, actual, done, record);
    if CaptureInTime(log, b, t) { DepositsFitIff(log, start, b, t, pre); }
    SupportNeedsTime(log, b, end, t, finalKyoku, capture, actual, done);
  }

  lemma SupportNeedsTime(log: seq<GameEvent>, b: nat, end: nat, t: nat, finalKyoku: bool, capture: Capture,
                         actual: Snapshot, done: bool)
    requires b < t < end < |log| && log[t].Ryukyoku?
    ensures LogSupportsDraw(log, b, end, t, finalKyoku, capture, actual, done) ==> CaptureInTime(log, b, t)
  {
  }

  lemma DrawIsExplained(log: seq<GameEvent>, t: nat, record: KyokuResultRecord, before: seq<I32>, preAward: seq<I32>)
    requires t < |log| && log[t].Ryukyoku? && log[t].delta.Some? && record.drawEventDeltaAdjustment.Some?
    requires Befores(record.settlement) == before
    requires |before| == |preAward| == |log[t].delta.value| == |record.drawEventDeltaAdjustment.value|
    requires forall i :: 0 <= i < |before| ==>
      DeltaExplained(before[i], preAward[i], record.drawEventDeltaAdjustment.value[i], log[t].delta.value[i])
    ensures DrawExplained(log, t, record, preAward) <==>
      (log[t].scores.Some? ==> log[t].scores.value == preAward)
  {
    hide DeltaExplained;
  }

  lemma DrawVerdict(log: seq<GameEvent>, start: nat, b: nat, t: nat, end: nat, finalKyoku: bool,
                    capture: Capture, actual: Snapshot, done: bool, record: KyokuResultRecord)
    requires start <= b < t < end < |log| && HandAt(log, start, end, [t]) && log[t].Ryukyoku?
    requires record.wins == [] && Afters(record.settlement) == actual.scores && actual.scores != []
    requires |log[start].startScores| == |record.settlement.changes|
    requires record.settlement.potAfter == actual.pot && capture.state.pot == PotAt(log, start, t)
    requires CapturedBefore(log, start, t, record.settlement) <==> CaptureInTime(log, b, t)
    requires PotWasAwarded(capture.state, actual, done) ==>
      Unawarded(actual.scores, capture.state.pot) == Some(capture.state.scores)
    requires !PotWasAwarded(capture.state, actual, done) ==> actual == capture.state
    requires DrawExplained(log, t, record, capture.state.scores) <==>
      (log[t].scores.Some? ==> log[t].scores.value == capture.state.scores)
    ensures SettlementAccepted(log, start, end, [t], record, finalKyoku) <==>
      && DepositsFit(log, log[start].startScores, log[start].kyotaku, start + 1, t)
      && LogSupportsDraw(log, b, end, t, finalKyoku, capture, actual, done)
  {
    hide DepositsFit, CapturedBefore, CaptureInTime, DrawExplained, Unawarded, NextHandStartsFrom, GameEndsAfter;
    hide NoReachIn;
    var pot := PotAt(log, start, t);
    assert FinalAward(log, end, finalKyoku, pot) ==> pot > 0;
  }

  // ----- A recorded draw that is refused --------------------------------------------------------------

  /** Two declarations were accepted after the captured state, then the hand was drawn. */
  const LATE_BATCH: seq<GameEvent> :=
    [ReachAccepted(0), ReachAccepted(1), Ryukyoku(Some("exhaustive_draw"), None, Some([0, 0, 0]), None), EndKyoku]

  const LATE_LOG: seq<GameEvent> :=
    [StartKyoku(East, 1, 0, 0, 0, [25_000, 25_000, 25_000], 0, [[], [], []])] + LATE_BATCH

  const LATE_PRE := Snapshot([25_000, 25_000, 25_000], 0)
  const LATE_AFTER := Snapshot([24_000, 24_000, 25_000], 2)
  const LATE_CAPTURE := Capture(LATE_AFTER, true, LATE_BATCH, map[])
  const LATE_ENDED := EngineKyokuEnd(LATE_PRE, LATE_AFTER, map[], LATE_AFTER)

  /** Three seated players; an id may be anything but empty. */
  predicate ThreeSeated(roster: seq<Participant>) {
    |roster| == 3 && DistinctIds(roster) && forall i :: 0 <= i < 3 ==> roster[i].id != ""
  }

  function LateChanges(roster: seq<Participant>): seq<ScoreChange>
    requires ThreeSeated(roster)
  {
    [ScoreChange(roster[0].id, 0, 25_000, -1000, 24_000), ScoreChange(roster[1].id, 1, 25_000, -1000, 24_000),
     ScoreChange(roster[2].id, 2, 25_000, 0, 25_000)]
  }

  function LateRecord(roster: seq<Participant>): KyokuResultRecord
    requires ThreeSeated(roster)
  {
    KyokuResultRecord(1, 1, ThreePlayerRedEast, 4, [],
      KyokuSettlement(LateChanges(roster), 0, 2, Some("exhaustive_draw")), Some([1000, 1000, 0]))
  }

  lemma LateDrawIsReconciled()
    ensures FinishApply(LATE_BATCH, LATE_PRE, LATE_CAPTURE, LATE_AFTER, false) == Ok(Some(LATE_ENDED))
    ensures DrawDeltas(LATE_BATCH) == [Some([0, 0, 0])]
  {
    var four := LATE_BATCH;
    var three, two, one := [four[1], four[2], four[3]], [four[2], four[3]], [four[3]];
    assert four[1..] == three && three[1..] == two && two[1..] == one && one[1..] == [];
    assert CountHora(one) == 0 && CountHora(two) == 0 && CountHora(three) == 0 && CountHora(four) == 0;
    assert DrawDeltas(one) == [] && DrawDeltas(two) == [Some([0, 0, 0])];
    assert DrawDeltas(three) == DrawDeltas(two) && DrawDeltas(four) == DrawDeltas(three);
    assert four[3] == EndKyoku;
  }

  lemma LateDrawIsScanned(roster: seq<Participant>)
    ensures ScanEvents(LATE_BATCH, 1, LATE_ENDED, roster) == Ok(Scan([], Some("exhaustive_draw"), Some(4)))
  {
    var four := LATE_BATCH;
    var three, two, one := [four[0], four[1], four[2]], [four[0], four[1]], [four[0]];
    assert four[..3] == three && three[..2] == two && two[..1] == one && one[..0] == [];
    assert ScanEvents(one, 1, LATE_ENDED, roster) == Ok(Scan([], None, None));
    assert ScanEvents(two, 1, LATE_ENDED, roster) == Ok(Scan([], None, None));
    assert ScanEvents(three, 1, LATE_ENDED, roster) == Ok(Scan([], Some("exhaustive_draw"), None));
  }

  /** Changes can be written down as soon as every seat's own can. */
  lemma {:induction false} ChangesExist(roster: seq<Participant>, before: seq<I32>, after: seq<I32>)
    requires |roster| == |before| == |after|
    requires forall i :: 0 <= i < |roster| ==> ChangeOf(roster[i], i, before[i], after[i]).Some?
    ensures ChangesOf(roster, before, after).Some?
  {
    hide ChangeOf;
    if roster != [] { ChangesExist(roster[..|roster| - 1], before[..|roster| - 1], after[..|roster| - 1]); }
  }

  lemma {:induction false} AdjustmentsExist(emitted: seq<I32>, before: seq<I32>, after: seq<I32>)
    requires |emitted| == |before| == |after|
    requires forall i :: 0 <= i < |emitted| ==> AdjustmentOf(emitted[i], before[i], after[i]).Some?
    ensures AdjustmentsOf(emitted, before, after).Some?
  {
    hide AdjustmentOf;
    if emitted != [] { AdjustmentsExist(emitted[..|emitted| - 1], before[..|emitted| - 1], after[..|emitted| - 1]); }
  }

  lemma LateDrawIsMeasured(roster: seq<Participant>)
    requires ThreeSeated(roster)
    ensures ChangesOf(roster, LATE_PRE.scores, LATE_AFTER.scores) == Some(LateChanges(roster))
    ensures AdjustmentsOf([0, 0, 0], LATE_PRE.scores, LATE_AFTER.scores) == Some([1000, 1000, 0])
  {
    hide ChangesOf, AdjustmentsOf;
    ChangesExist(roster, LATE_PRE.scores, LATE_AFTER.scores);
    var changes := ChangesOf(roster, LATE_PRE.scores, LATE_AFTER.scores).value;
    assert changes == LateChanges(roster);
    var zeros: seq<I32>, evidence: seq<I32> := [0, 0, 0], [1000, 1000, 0];
    AdjustmentsExist(zeros, LATE_PRE.scores, LATE_AFTER.scores);
    assert AdjustmentsOf(zeros, LATE_PRE.scores, LATE_AFTER.scores).value == evidence;
  }

  lemma LateRecordIsValid(roster: seq<Participant>)
    requires ThreeSeated(roster)
    ensures RecordValid(LateRecord(roster), roster)
  {
    var record := LateRecord(roster);
    assert SettlementFits(record.settlement.changes, roster);
    assert WinsFit(record.wins, roster, record.endEventIndex) && HandsFit(record.wins, ThreePlayerRedEast);
  }

  lemma LateDrawIsRecorded(roster: seq<Participant>)
    requires ThreeSeated(roster)
    ensures RecordOf(LATE_ENDED, ThreePlayerRedEast, roster, 1, 1, LATE_BATCH) == Ok(LateRecord(roster))
  {
    hide ScanEvents, ChangesOf, AdjustmentsOf, DrawDeltas, FinishApply, RecordValid;
    LateDrawIsReconciled();
    LateDrawIsScanned(roster);
    LateDrawIsMeasured(roster);
    LateRecordIsValid(roster);
    assert DrawEvidence(LATE_BATCH, LATE_ENDED, 3) == Ok([1000, 1000, 0]);
  }

  /** The producer records this draw, the validator refuses it: two deposits came after the capture. */
  lemma LateDrawIsRefused(roster: seq<Participant>)
    requires ThreeSeated(roster)
    ensures FinishApply(LATE_BATCH, LATE_PRE, LATE_CAPTURE, LATE_AFTER, false) == Ok(Some(LATE_ENDED))
    ensures RecordOf(LATE_ENDED, ThreePlayerRedEast, roster, 1, 1, LATE_BATCH) == Ok(LateRecord(roster))
    ensures IsReachPrefix(LATE_LOG, 0, 0, LATE_PRE) && HandAt(LATE_LOG, 0, 4, [3])
    ensures !SettlementAccepted(LATE_LOG, 0, 4, [3], LateRecord(roster), false)
  {
    hide FinishApply, RecordOf, SettlementAccepted, DrawDeltas, LogSupportsDraw, ReachesSeated, LateDepositFits;
    hide IsReachPrefix;
    LateDrawIsReconciled();
    LateDrawIsRecorded(roster);
    LateDepositsAreCounted();
    DrawsAgree(LATE_LOG, 0, 0, 3, 4, false, LATE_BATCH, LATE_PRE, LATE_CAPTURE, LATE_AFTER, false, LATE_ENDED,
               ThreePlayerRedEast, roster, 1, 1, LateRecord(roster));
    SupportNeedsTime(LATE_LOG, 0, 4, 3, false, LATE_CAPTURE, LATE_AFTER, false);
  }

  lemma LateDepositsAreCounted()
    ensures PotAt(LATE_LOG, 0, 3) == 2 && !CaptureInTime(LATE_LOG, 0, 3)
    ensures IsReachPrefix(LATE_LOG, 0, 0, LATE_PRE) && HandAt(LATE_LOG, 0, 4, [3])
  {
    var log := LATE_LOG;
    assert Reaches(log, 1, 1) == 0 && Reaches(log, 1, 2) == 1 && Reaches(log, 1, 3) == 2;
    assert Paid(log, log[0].startScores, 1, 1) == LATE_PRE.scores;
  }
}
