// Producer and validator on winning hands: when a recorded one is believed.

module WinSettlements {
  import opened Wrappers
  import opened Checked
  import opened Domain
  import opened Results
  import opened Engine
  import opened Settlement
  import opened SettlementTheorems
  import opened Conservation

  /** A record the producer wrote for a hand that was won. */
  predicate WinRecorded(ended: EngineKyokuEnd, mode: GameMode, roster: seq<Participant>, sequence: nat, first: nat,
                        events: seq<GameEvent>, record: KyokuResultRecord)
  {
    && |ended.preAction.scores| == mode.SeatCount()
    && RecordOf(ended, mode, roster, sequence, first, events) == Ok(record)
    && record.wins != []
  }

  /** Its settlement leads from the state before the last action to the real one. */
  lemma WinRecordMeans(events: seq<GameEvent>, pre: Snapshot, capture: Capture, actual: Snapshot, done: bool,
                       ended: EngineKyokuEnd, mode: GameMode, roster: seq<Participant>, sequence: nat, first: nat,
                       record: KyokuResultRecord)
    requires capture.state.scores != []
    requires FinishApply(events, pre, capture, actual, done) == Ok(Some(ended))
    requires WinRecorded(ended, mode, roster, sequence, first, events, record)
    ensures record.wins != []
    ensures |record.settlement.changes| == |pre.scores| == |actual.scores| == mode.SeatCount()
    ensures Befores(record.settlement) == pre.scores && Afters(record.settlement) == actual.scores
    ensures record.settlement.potBefore == pre.pot && record.settlement.potAfter == actual.pot
  {
    hide ScanEvents, DrawEvidence, Awarded, TopSeat, WinsFit, HandsFit, SettlementFits, Terminals, CountHora;
  }

  /** What the log around the hand must show for a win's record to be believed. */
  predicate LogSupportsWins(log: seq<GameEvent>, b: nat, end: nat, t: nat, actual: Snapshot)
    requires b < t < end < |log|
  {
    && CaptureInTime(log, b, t) && NoReachIn(log, t, end)
    && actual.pot == 0 && NextHandStartsFrom(log, end, actual.scores, 0)
  }

  /** The deltas and scores the log announces lead, where they are known, to these scores. */
  predicate WinsRunTo(log: seq<GameEvent>, start: nat, terminal: seq<nat>, scores: seq<I32>)
    requires TerminalsIn(log, terminal) && terminal != [] && start < terminal[0] && log[start].StartKyoku?
  {
    && InI32(Reached(log, start, terminal[0]))
    && var r := RunTerminals(log, terminal, Running(Reached(log, start, terminal[0]), true));
       r.Some? && (r.value.known ==> r.value.scores == scores)
  }

  /** Every deposit is by a seated player, the one after the capture fits, and so does the pot. */
  predicate DepositsReplay(log: seq<GameEvent>, start: nat, b: nat, t: nat, pre: Snapshot)
    requires start <= b < t < |log| && log[start].StartKyoku?
  {
    && ReachesSeated(log, start + 1, t, |log[start].startScores|) && LateDepositFits(log, b, t, pre)
    && PotAt(log, start, t) < 0x1_0000_0000
  }

  lemma WinVerdict(log: seq<GameEvent>, start: nat, end: nat, terminal: seq<nat>, finalKyoku: bool,
                   actual: Snapshot, record: KyokuResultRecord)
    requires HandAt(log, start, end, terminal) && record.wins != []
    requires |log[start].startScores| == |record.settlement.changes|
    requires Afters(record.settlement) == actual.scores && record.settlement.potAfter == actual.pot
    ensures SettlementAccepted(log, start, end, terminal, record, finalKyoku) <==>
      && DepositsFit(log, log[start].startScores, log[start].kyotaku, start + 1, terminal[0])
      && CapturedBefore(log, start, terminal[0], record.settlement) && NoReachIn(log, terminal[0], end)
      && actual.pot == 0 && WinsRunTo(log, start, terminal, actual.scores)
      && NextHandStartsFrom(log, end, actual.scores, actual.pot)
  {
    hide DepositsFit, CapturedBefore, NoReachIn, RunTerminals, NextHandStartsFrom, GameEndsAfter, DrawAccepted;
  }

  /**
   * Producer and validator agree on wins. Whenever reconciling and recording succeed and the state
   * before the last action is a deposit prefix of the log, the validator accepts the record exactly
   * when the deposits can be replayed, the log shows the capture in time, the pot was taken, the
   * announced deltas and scores lead to the real ones, and the next hand starts from there.
   */
  lemma WinsAgree(log: seq<GameEvent>, start: nat, b: nat, end: nat, terminal: seq<nat>, finalKyoku: bool,
                  events: seq<GameEvent>, pre: Snapshot, capture: Capture, actual: Snapshot, done: bool,
                  ended: EngineKyokuEnd, mode: GameMode, roster: seq<Participant>, sequence: nat, first: nat,
                  record: KyokuResultRecord)
    requires HandAt(log, start, end, terminal) && start <= b < terminal[0]
    requires |log[start].startScores| == mode.SeatCount()
    requires capture.state.scores != []
    requires FinishApply(events, pre, capture, actual, done) == Ok(Some(ended))
    requires WinRecorded(ended, mode, roster, sequence, first, events, record)
    requires IsReachPrefix(log, start, b, pre)
    ensures SettlementAccepted(log, start, end, terminal, record, finalKyoku) <==>
      && DepositsReplay(log, start, b, terminal[0], pre)
      && LogSupportsWins(log, b, end, terminal[0], actual)
      && WinsRunTo(log, start, terminal, actual.scores)
  {
    hide FinishApply, WinRecorded, IsReachPrefix, SettlementAccepted, WinsRunTo, CapturedBefore, CaptureInTime;
    hide DepositsFit, ReachesSeated, LateDepositFits, NoReachIn, NextHandStartsFrom;
    var t := terminal[0];
    WinRecordMeans(events, pre, capture, actual, done, ended, mode, roster, sequence, first, record);
    WinVerdict(log, start, end, terminal, finalKyoku, actual, record);
    CaptureIsPlaced(log, start, t, b, pre, record.settlement);
    CapturedIffInTime(log, start, t, b, record.settlement);
    if CaptureInTime(log, b, t) {
      FittingPotFits(log, start, t);
      if PotAt(log, start, t) < 0x1_0000_0000 { DepositsFitIff(log, start, b, t, pre); }
    }
  }

  lemma FittingPotFits(log: seq<GameEvent>, start: nat, t: nat)
    requires start < t < |log| && log[start].StartKyoku?
    ensures DepositsFit(log, log[start].startScores, log[start].kyotaku, start + 1, t) ==>
      PotAt(log, start, t) < 0x1_0000_0000
  {
  }

  // ----- When every terminal carries its delta ------------------------------------------------------

  /** Scores after some terminals' deltas, in unbounded arithmetic. */
  function AfterDeltas(log: seq<GameEvent>, terminal: seq<nat>, reached: seq<int>): (r: seq<int>)
    requires TerminalsIn(log, terminal)
    ensures |r| == |reached|
  {
    seq(|reached|, i requires 0 <= i < |reached| => reached[i] + DeltasTo(log, terminal, i))
  }

  /** The last of these terminals leaves scores in range, and announces no others. */
  predicate LastFits(log: seq<GameEvent>, terminal: seq<nat>, reached: seq<int>)
    requires TerminalsIn(log, terminal) && terminal != []
  {
    var scores := log[terminal[|terminal| - 1]].scores;
    && InI32(AfterDeltas(log, terminal, reached))
    && (scores.Some? ==> scores.value == AfterDeltas(log, terminal, reached))
  }

  predicate DeltasRun(log: seq<GameEvent>, terminal: seq<nat>, reached: seq<int>)
    requires TerminalsIn(log, terminal)
  {
    forall k :: 0 < k <= |terminal| ==> LastFits(log, terminal[..k], reached)
  }

  /** The loop over the terminals succeeds exactly when no sum overflows and every announcement is right. */
  lemma {:induction false} RunSucceedsIff(log: seq<GameEvent>, terminal: seq<nat>, reached: seq<I32>)
    requires TerminalsIn(log, terminal) && CarryDeltas(log, terminal, |reached|)
    ensures RunTerminals(log, terminal, Running(reached, true)).Some? <==> DeltasRun(log, terminal, reached)
    ensures RunTerminals(log, terminal, Running(reached, true)).Some? ==>
      RunTerminals(log, terminal, Running(reached, true)).value.known
      && RunTerminals(log, terminal, Running(reached, true)).value.scores == AfterDeltas(log, terminal, reached)
  {
    hide AfterTerminal, LastFits, DeltasTo;
    if terminal == [] {
      NoDeltas(log, reached);
    } else {
      var last := |terminal| - 1;
      RunSucceedsIff(log, terminal[..last], reached);
      RunsOneMore(log, terminal, reached);
      var r1 := RunTerminals(log, terminal[..last], Running(reached, true));
      if r1.Some? { OneMoreTerminal(log, terminal, reached, r1.value); }
    }
  }

  lemma NoDeltas(log: seq<GameEvent>, reached: seq<I32>)
    ensures AfterDeltas(log, [], reached) == reached
  {
  }

  lemma RunsOneMore(log: seq<GameEvent>, terminal: seq<nat>, reached: seq<int>)
    requires TerminalsIn(log, terminal) && terminal != []
    ensures DeltasRun(log, terminal, reached) <==>
      DeltasRun(log, terminal[..|terminal| - 1], reached) && LastFits(log, terminal, reached)
  {
    hide LastFits;
    var last := |terminal| - 1;
    forall k | 0 < k <= last
      ensures terminal[..last][..k] == terminal[..k]
    {
    }
    assert terminal[..|terminal|] == terminal;
    if DeltasRun(log, terminal, reached) {
      forall k | 0 < k <= last
        ensures LastFits(log, terminal[..last][..k], reached)
      {
        assert LastFits(log, terminal[..k], reached);
      }
    }
    if DeltasRun(log, terminal[..last], reached) && LastFits(log, terminal, reached) {
      forall k | 0 < k <= |terminal|
        ensures LastFits(log, terminal[..k], reached)
      {
        if k <= last { assert LastFits(log, terminal[..last][..k], reached); }
      }
    }
  }

  lemma OneMoreTerminal(log: seq<GameEvent>, terminal: seq<nat>, reached: seq<I32>, r: Running)
    requires TerminalsIn(log, terminal) && terminal != [] && CarryDeltas(log, terminal, |reached|)
    requires r.known && r.scores == AfterDeltas(log, terminal[..|terminal| - 1], reached)
    ensures var next := AfterTerminal(r, log[terminal[|terminal| - 1]]);
      && (next.Some? <==> LastFits(log, terminal, reached))
      && (next.Some? ==> next.value.known && next.value.scores == AfterDeltas(log, terminal, reached))
  {
    var last := |terminal| - 1;
    var before: seq<int>, delta: seq<int> := r.scores, log[terminal[last]].delta.value;
    var sums := AfterDeltas(log, terminal, reached);
    forall i | 0 <= i < |reached|
      ensures sums[i] == before[i] + delta[i]
    {
    }
    var added := AddAll(r.scores, log[terminal[last]].delta.value);
    assert added.Some? <==> InI32(sums);
    if added.Some? { assert added.value == sums; }
  }

  /**
   * Where every terminal carries its delta, the verdict is arithmetic: the record is accepted exactly
   * when the deposits replay, the log supports it, no running sum overflows or contradicts an
   * announced score, and every seat's real score is its captured one, less the deposit after the
   * capture, plus its deltas.
   */
  lemma WinsAgreeOnDeltas(log: seq<GameEvent>, start: nat, b: nat, end: nat, terminal: seq<nat>, finalKyoku: bool,
                          events: seq<GameEvent>, pre: Snapshot, capture: Capture, actual: Snapshot, done: bool,
                          ended: EngineKyokuEnd, mode: GameMode, roster: seq<Participant>, sequence: nat, first: nat,
                          record: KyokuResultRecord)
    requires HandAt(log, start, end, terminal) && start <= b < terminal[0]
    requires |log[start].startScores| == mode.SeatCount()
    requires capture.state.scores != []
    requires FinishApply(events, pre, capture, actual, done) == Ok(Some(ended))
    requires WinRecorded(ended, mode, roster, sequence, first, events, record)
    requires IsReachPrefix(log, start, b, pre)
    requires CarryDeltas(log, terminal, mode.SeatCount())
    ensures |pre.scores| == |actual.scores| == mode.SeatCount()
    ensures SettlementAccepted(log, start, end, terminal, record, finalKyoku) <==>
      && DepositsReplay(log, start, b, terminal[0], pre)
      && LogSupportsWins(log, b, end, terminal[0], actual)
      && DeltasRun(log, terminal, Reached(log, start, terminal[0]))
      && forall i :: 0 <= i < mode.SeatCount() ==>
           actual.scores[i] ==
             pre.scores[i] - 1000 * Deposits(log, b + 1, terminal[0], i) + DeltasTo(log, terminal, i)
  {
    hide FinishApply, WinRecorded, SettlementAccepted, LogSupportsWins, DepositsFit, DeltasTo, DeltasRun;
    hide DepositsReplay, RunTerminals;
    var t := terminal[0];
    WinRecordMeans(events, pre, capture, actual, done, ended, mode, roster, sequence, first, record);
    WinsAgree(log, start, b, end, terminal, finalKyoku, events, pre, capture, actual, done, ended, mode, roster,
              sequence, first, record);
    ReachedFromCapture(log, start, b, t, pre);
    if DepositsReplay(log, start, b, t, pre) && LogSupportsWins(log, b, end, t, actual) {
      ReplayedInRange(log, start, b, end, t, pre, actual);
      var reached: seq<I32> := Reached(log, start, t);
      RunSucceedsIff(log, terminal, reached);
      if DeltasRun(log, terminal, reached) {
        assert AfterDeltas(log, terminal, reached) == actual.scores <==>
          forall i :: 0 <= i < mode.SeatCount() ==> AfterDeltas(log, terminal, reached)[i] == actual.scores[i];
      }
    }
  }

  lemma ReachedFromCapture(log: seq<GameEvent>, start: nat, b: nat, t: nat, pre: Snapshot)
    requires start <= b < t < |log| && log[start].StartKyoku? && IsReachPrefix(log, start, b, pre)
    ensures |Reached(log, start, t)| == |pre.scores|
    ensures forall i :: 0 <= i < |pre.scores| ==>
      Reached(log, start, t)[i] == pre.scores[i] - 1000 * Deposits(log, b + 1, t, i)
  {
    forall i | 0 <= i < |pre.scores|
      ensures Reached(log, start, t)[i] == pre.scores[i] - 1000 * Deposits(log, b + 1, t, i)
    {
      DepositsSplit(log, start + 1, b + 1, t, i);
    }
  }

  lemma ReplayedInRange(log: seq<GameEvent>, start: nat, b: nat, end: nat, t: nat, pre: Snapshot, actual: Snapshot)
    requires start <= b < t < end < |log| && log[start].StartKyoku? && IsReachPrefix(log, start, b, pre)
    requires DepositsReplay(log, start, b, t, pre) && LogSupportsWins(log, b, end, t, actual)
    ensures InI32(Reached(log, start, t))
  {
    hide ReachesSeated, LateDepositFits, CaptureInTime, NoReachIn, NextHandStartsFrom, IsReachPrefix;
    DepositsFitIff(log, start, b, t, pre);
    DepositsLower(log, start, t);
  }

  /** Deposits only lower scores, so those that fit below stay in range. */
  lemma DepositsLower(log: seq<GameEvent>, start: nat, t: nat)
    requires start < t < |log| && log[start].StartKyoku?
    requires DepositsFit(log, log[start].startScores, log[start].kyotaku, start + 1, t)
    ensures InI32(Reached(log, start, t))
  {
    var reached := Reached(log, start, t);
    forall i | 0 <= i < |reached|
      ensures I32_MIN <= reached[i] < 0x8000_0000
    {
      assert reached[i] == Paid(log, log[start].startScores, start + 1, t)[i];
    }
  }
}
