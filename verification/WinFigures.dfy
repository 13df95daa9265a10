// Won hands in plain figures: what the announced deltas and scores lead to, and when a record is accepted.

module WinFigures {
  import opened Checked
  import opened Domain
  import opened Results
  import opened Settlement
  import opened DrawSettlements

  /** After these announcements the scores are known: announced, or known before and moved by a delta. */
  predicate KnownAfter(log: seq<GameEvent>, terminal: seq<nat>)
    requires TerminalsIn(log, terminal)
  {
    terminal == [] ||
    (var e := log[terminal[|terminal| - 1]];
     e.scores.Some? || (e.delta.Some? && KnownAfter(log, terminal[..|terminal| - 1])))
  }

  /** A seat's score after them, counting from the last announced one. */
  function ScoreAfter(log: seq<GameEvent>, terminal: seq<nat>, reached: seq<int>, seat: nat): int
    requires TerminalsIn(log, terminal) && seat < |reached|
  {
    if terminal == [] then reached[seat]
    else
      var e := log[terminal[|terminal| - 1]];
      var before := ScoreAfter(log, terminal[..|terminal| - 1], reached, seat);
      if e.scores.Some? && seat < |e.scores.value| then e.scores.value[seat]
      else if e.delta.Some? && seat < |e.delta.value| then before + e.delta.value[seat]
      else before
  }

  /** The last announcement is for every seat; on known scores it stays in range and contradicts nothing. */
  predicate LastAgrees(log: seq<GameEvent>, terminal: seq<nat>, reached: seq<int>)
    requires TerminalsIn(log, terminal) && terminal != []
  {
    var e, front := log[terminal[|terminal| - 1]], terminal[..|terminal| - 1];
    && (e.delta.Some? ==> |e.delta.value| == |reached|) && (e.scores.Some? ==> |e.scores.value| == |reached|)
    && (KnownAfter(log, front) && e.delta.Some? ==>
          forall i :: 0 <= i < |reached| ==>
            var sum := ScoreAfter(log, front, reached, i) + e.delta.value[i];
            -0x8000_0000 <= sum < 0x8000_0000 && (e.scores.Some? ==> e.scores.value[i] == sum))
  }

  predicate AllAgree(log: seq<GameEvent>, terminal: seq<nat>, reached: seq<int>)
    requires TerminalsIn(log, terminal)
  {
    terminal == [] || (LastAgrees(log, terminal, reached) && AllAgree(log, terminal[..|terminal| - 1], reached))
  }

  predicate RunShows(r: Running, log: seq<GameEvent>, terminal: seq<nat>, reached: seq<int>)
    requires TerminalsIn(log, terminal)
  {
    && |r.scores| == |reached| && (r.known <==> KnownAfter(log, terminal))
    && (r.known ==> forall i :: 0 <= i < |reached| ==> r.scores[i] == ScoreAfter(log, terminal, reached, i))
  }

  lemma OneAnnouncement(log: seq<GameEvent>, terminal: seq<nat>, reached: seq<I32>, r: Running)
    requires TerminalsIn(log, terminal) && terminal != []
    requires RunShows(r, log, terminal[..|terminal| - 1], reached)
    ensures var next := AfterTerminal(r, log[terminal[|terminal| - 1]]);
      && (next.Some? <==> LastAgrees(log, terminal, reached))
      && (next.Some? ==> RunShows(next.value, log, terminal, reached))
  {
    var e, front := log[terminal[|terminal| - 1]], terminal[..|terminal| - 1];
    if e.delta.Some? && |e.delta.value| == |reached| && r.known {
      var before: seq<int>, delta: seq<int> := r.scores, e.delta.value;
      forall i | 0 <= i < |reached|
        ensures before[i] + delta[i] == ScoreAfter(log, front, reached, i) + delta[i]
        ensures CheckedAdd(r.scores[i], e.delta.value[i]).Some? <==>
          -0x8000_0000 <= ScoreAfter(log, front, reached, i) + delta[i] < 0x8000_0000
      {
      }
      DeltaOnKnown(log, terminal, reached, r);
    }
  }

  lemma DeltaOnKnown(log: seq<GameEvent>, terminal: seq<nat>, reached: seq<I32>, r: Running)
    requires TerminalsIn(log, terminal) && terminal != [] && r.known
    requires RunShows(r, log, terminal[..|terminal| - 1], reached)
    requires var e := log[terminal[|terminal| - 1]]; e.delta.Some? && |e.delta.value| == |reached|
    ensures var next := AfterTerminal(r, log[terminal[|terminal| - 1]]);
      && (next.Some? <==> LastAgrees(log, terminal, reached))
      && (next.Some? ==> RunShows(next.value, log, terminal, reached))
  {
    var e := log[terminal[|terminal| - 1]];
    var added := AddAll(r.scores, e.delta.value);
    if added.Some? && e.scores.Some? && |e.scores.value| == |reached| {
      assert e.scores.value == added.value <==>
        forall i :: 0 <= i < |reached| ==> e.scores.value[i] == added.value[i];
    }
  }

  /** The loop over the announcements succeeds exactly when they agree, and knows what they tell. */
  lemma {:induction false} RunMeans(log: seq<GameEvent>, terminal: seq<nat>, reached: seq<I32>)
    requires TerminalsIn(log, terminal)
    ensures RunTerminals(log, terminal, Running(reached, true)).Some? <==> AllAgree(log, terminal, reached)
    ensures RunTerminals(log, terminal, Running(reached, true)).Some? ==>
      RunShows(RunTerminals(log, terminal, Running(reached, true)).value, log, terminal, reached)
    decreases |terminal|
  {
    hide AfterTerminal, LastAgrees;
    if terminal != [] {
      var front := terminal[..|terminal| - 1];
      hide RunShows;
      RunMeans(log, front, reached);
      var r := RunTerminals(log, front, Running(reached, true));
      if r.Some? { OneAnnouncement(log, terminal, reached, r.value); }
    }
  }

  /** What each seat has when the wins are announced: its start less its deposits. */
  function ReachedBy(log: seq<GameEvent>, start: nat, t: nat): (r: seq<int>)
    requires start < t <= |log| && log[start].StartKyoku?
    ensures |r| == |log[start].startScores|
  {
    seq(|log[start].startScores|, i requires 0 <= i < |log[start].startScores| => ScoreBy(log, start, t, i))
  }

  lemma ReachedByIs(log: seq<GameEvent>, start: nat, t: nat)
    requires start < t <= |log| && log[start].StartKyoku?
    ensures ReachedBy(log, start, t) == Reached(log, start, t)
    ensures DepositsPaid(log, start, t) ==> InI32(Reached(log, start, t))
  {
    var reached := Reached(log, start, t);
    assert forall i :: 0 <= i < |reached| ==> reached[i] == ScoreBy(log, start, t, i);
  }

  /**
   * A win's record is accepted exactly when the deposits can be paid, it was captured at the first
   * announcement or just before one deposit directly preceding it, no deposit follows, the sticks
   * are gone, the announcements agree and lead, where known, to its scores, and the next hand
   * starts from there.
   */
  lemma WinAcceptedIff(log: seq<GameEvent>, start: nat, end: nat, terminal: seq<nat>, record: KyokuResultRecord,
                       finalKyoku: bool)
    requires terminal != [] && start < terminal[0] < end < |log| && HandAt(log, start, end, terminal)
    requires record.wins != []
    ensures SettlementAccepted(log, start, end, terminal, record, finalKyoku) <==>
      var t, settlement := terminal[0], record.settlement;
      && |settlement.changes| == |log[start].startScores| && DepositsPaid(log, start, t)
      && (CapturedAt(log, start, t, settlement)
          || (log[t - 1].ReachAccepted? && CapturedAt(log, start, t - 1, settlement)))
      && (forall k :: t <= k < end ==> !log[k].ReachAccepted?)
      && settlement.potAfter == 0
      && AllAgree(log, terminal, ReachedBy(log, start, t))
      && (KnownAfter(log, terminal) ==>
            forall i :: 0 <= i < |settlement.changes| ==>
              settlement.changes[i].after == ScoreAfter(log, terminal, ReachedBy(log, start, t), i))
      && NextHandFollows(log, end, settlement)
  {
    hide DepositsPaid, DepositsFit, CapturedAt, DrawAccepted, FinalAward, NextHandStartsFrom, AllAgree, KnownAfter;
    hide NextHandFollows, MatchesBefore, RunTerminals;
    var t, settlement := terminal[0], record.settlement;
    DepositsPaidIff(log, start, t);
    CapturedAtIff(log, start, t, settlement);
    if log[t - 1].ReachAccepted? { CapturedAtIff(log, start, t - 1, settlement); }
    FollowsIff(log, end, settlement);
    ReachedByIs(log, start, t);
    if DepositsPaid(log, start, t) {
      var reached: seq<I32> := Reached(log, start, t);
      RunMeans(log, terminal, reached);
    }
  }
}
