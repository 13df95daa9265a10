// Drawn hands in plain figures: when a record of one is accepted, and where its sticks go.

module DrawSettlements {
  import opened Wrappers
  import opened Checked
  import opened Domain
  import opened EventLog
  import opened ReplayBoundary
  import opened Results
  import opened Engine
  import opened Settlement
  import opened SettlementTheorems
  import opened Conservation

  /** What a seat has after paying its deposits up to position `u`. */
  function ScoreBy(log: seq<GameEvent>, start: nat, u: nat, seat: nat): int
    requires start < u <= |log| && log[start].StartKyoku? && seat < |log[start].startScores|
  {
    log[start].startScores[seat] - 1000 * Deposits(log, start + 1, u, seat)
  }

  /** The sticks on the table by position `u`. */
  function SticksBy(log: seq<GameEvent>, start: nat, u: nat): nat
    requires start < u <= |log| && log[start].StartKyoku?
  {
    log[start].kyotaku + Reaches(log, start + 1, u)
  }

  /** Where in [lo, hi) someone's riichi is accepted. */
  function AcceptedAt(log: seq<GameEvent>, lo: nat, hi: nat): set<nat>
    requires lo <= hi <= |log|
  {
    set k: nat | lo <= k < hi && log[k].ReachAccepted?
  }

  /** Where it is this seat's. */
  function DepositedAt(log: seq<GameEvent>, lo: nat, hi: nat, seat: nat): set<nat>
    requires lo <= hi <= |log|
  {
    set k: nat | lo <= k < hi && PaysAt(log, k, seat)
  }

  predicate PaysAt(log: seq<GameEvent>, k: nat, seat: nat)
    requires k < |log|
  {
    log[k].ReachAccepted? && log[k].actor == seat
  }

  /** There are as many sticks put down as acceptances in the log. */
  lemma {:induction false} SticksAreCounted(log: seq<GameEvent>, lo: nat, hi: nat)
    requires lo <= hi <= |log|
    ensures Reaches(log, lo, hi) == |AcceptedAt(log, lo, hi)|
    decreases hi
  {
    if lo < hi {
      SticksAreCounted(log, lo, hi - 1);
      var before := AcceptedAt(log, lo, hi - 1);
      if log[hi - 1].ReachAccepted? {
        assert AcceptedAt(log, lo, hi) == before + {hi - 1};
      } else {
        assert AcceptedAt(log, lo, hi) == before;
      }
    }
  }

  /** And each is charged to its own seat. */
  lemma {:induction false} DepositsAreCounted(log: seq<GameEvent>, lo: nat, hi: nat, seat: nat)
    requires lo <= hi <= |log|
    ensures Deposits(log, lo, hi, seat) == |DepositedAt(log, lo, hi, seat)|
    decreases hi
  {
    hide DepositedAt;
    if lo == hi {
      NothingDeposited(log, lo, seat);
    } else {
      DepositsAreCounted(log, lo, hi - 1, seat);
      OneMoreDeposit(log, lo, hi, seat);
    }
  }

  lemma NothingDeposited(log: seq<GameEvent>, lo: nat, seat: nat)
    requires lo <= |log|
    ensures DepositedAt(log, lo, lo, seat) == {}
  {
  }

  lemma OneMoreDeposit(log: seq<GameEvent>, lo: nat, hi: nat, seat: nat)
    requires lo < hi <= |log|
    ensures |DepositedAt(log, lo, hi, seat)| ==
      |DepositedAt(log, lo, hi - 1, seat)| + if PaysAt(log, hi - 1, seat) then 1 else 0
  {
    hide PaysAt;
    var before := DepositedAt(log, lo, hi - 1, seat);
    if PaysAt(log, hi - 1, seat) {
      assert DepositedAt(log, lo, hi, seat) == before + {hi - 1};
    } else {
      assert DepositedAt(log, lo, hi, seat) == before;
    }
  }

  /** The record was captured when the table stood as it did at position `u`. */
  predicate CapturedAt(log: seq<GameEvent>, start: nat, u: nat, settlement: KyokuSettlement)
    requires start < u <= |log| && log[start].StartKyoku?
  {
    && |settlement.changes| == |log[start].startScores| && settlement.potBefore == SticksBy(log, start, u)
    && forall i :: 0 <= i < |settlement.changes| ==> settlement.changes[i].before == ScoreBy(log, start, u, i)
  }

  /** No deposit is by a stranger, and none takes a score or the sticks out of range. */
  predicate DepositsPaid(log: seq<GameEvent>, start: nat, t: nat)
    requires start < t <= |log| && log[start].StartKyoku?
  {
    && ReachesSeated(log, start + 1, t, |log[start].startScores|)
    && (forall i :: 0 <= i < |log[start].startScores| ==> ScoreBy(log, start, t, i) >= -0x8000_0000)
    && SticksBy(log, start, t) < 0x1_0000_0000
  }

  /** The match ends after this hand with sticks left on the table. */
  predicate SticksLeftAtTheEnd(log: seq<GameEvent>, end: nat, finalKyoku: bool, sticks: nat) {
    finalKyoku && sticks > 0 && exists k :: end < k < |log| && log[k].EndGame?
  }

  /** These scores explain the draw: movement plus evidence is the emitted delta, seat by seat. */
  predicate ScoresExplain(scores: seq<int>, e: GameEvent, record: KyokuResultRecord) {
    var changes, evidence := record.settlement.changes, record.drawEventDeltaAdjustment;
    && e.Ryukyoku? && e.delta.Some? && evidence.Some?
    && |scores| == |changes| == |e.delta.value| == |evidence.value|
    && (forall i :: 0 <= i < |changes| ==>
          && -0x8000_0000 <= scores[i] - changes[i].before < 0x8000_0000
          && scores[i] - changes[i].before + evidence.value[i] == e.delta.value[i])
    && (e.scores.Some? ==> e.scores.value == scores)
  }

  /** The leader, who got the sticks and leads without them too. */
  predicate SticksWentTo(after: seq<I32>, sticks: nat, top: nat) {
    && IsTop(after, top) && 1000 * sticks < 0x8000_0000 && after[top] - 1000 * sticks >= -0x8000_0000
    && IsTop(after[top := after[top] - 1000 * sticks], top)
  }

  /** Who ended up with the sticks, and that the draw is explained without them. */
  predicate SticksAccounted(log: seq<GameEvent>, end: nat, t: nat, record: KyokuResultRecord, finalKyoku: bool,
                            sticks: nat)
    requires t < |log|
  {
    var after := Afters(record.settlement);
    if SticksLeftAtTheEnd(log, end, finalKyoku, sticks) then
      && record.settlement.potAfter == 0
      && exists top :: 0 <= top < |after| && SticksWentTo(after, sticks, top)
           && ScoresExplain(after[top := after[top] - 1000 * sticks], log[t], record)
    else record.settlement.potAfter == sticks && ScoresExplain(after, log[t], record)
  }

  /** The next hand, if there is one, starts from these scores and sticks. */
  predicate NextHandFollows(log: seq<GameEvent>, end: nat, settlement: KyokuSettlement) {
    forall k :: end < k < |log| && log[k].StartKyoku? && (forall j :: end < j < k ==> !log[j].StartKyoku?) ==>
      log[k].startScores == Afters(settlement) && log[k].kyotaku == settlement.potAfter
  }

  lemma DepositsPaidIff(log: seq<GameEvent>, start: nat, t: nat)
    requires start < t <= |log| && log[start].StartKyoku?
    ensures DepositsPaid(log, start, t) <==>
      DepositsFit(log, log[start].startScores, log[start].kyotaku, start + 1, t)
  {
    hide Deposits, Reaches;
    var scores: seq<int> := log[start].startScores;
    var paid := Paid(log, scores, start + 1, t);
    assert forall i :: 0 <= i < |scores| ==> paid[i] == ScoreBy(log, start, t, i);
    if DepositsPaid(log, start, t) {
      forall i | 0 <= i < |scores|
        ensures paid[i] >= I32_MIN
      {
        assert ScoreBy(log, start, t, i) >= -0x8000_0000;
      }
    }
  }

  lemma CapturedAtIff(log: seq<GameEvent>, start: nat, u: nat, settlement: KyokuSettlement)
    requires start < u <= |log| && log[start].StartKyoku?
    ensures CapturedAt(log, start, u, settlement) <==>
      MatchesBefore(settlement, Reached(log, start, u), PotAt(log, start, u))
  {
    forall i | 0 <= i < |log[start].startScores|
      ensures Reached(log, start, u)[i] == ScoreBy(log, start, u, i)
    {
    }
  }

  lemma ExplainIff(scores: seq<I32>, log: seq<GameEvent>, t: nat, record: KyokuResultRecord)
    requires t < |log|
    ensures ScoresExplain(scores, log[t], record) <==> DrawExplained(log, t, record, scores)
  {
    var changes, evidence := record.settlement.changes, record.drawEventDeltaAdjustment;
    if log[t].Ryukyoku? && log[t].delta.Some? && evidence.Some?
      && |scores| == |changes| == |log[t].delta.value| == |evidence.value| {
      forall i | 0 <= i < |changes|
        ensures DeltaExplained(changes[i].before, scores[i], evidence.value[i], log[t].delta.value[i]) <==>
          && -0x8000_0000 <= scores[i] - changes[i].before < 0x8000_0000
          && scores[i] - changes[i].before + evidence.value[i] == log[t].delta.value[i]
      {
        SeatExplainedIff(changes[i].before, scores[i], evidence.value[i], log[t].delta.value[i]);
      }
    }
  }

  lemma SeatExplainedIff(before: I32, after: I32, evidence: I32, emitted: I32)
    ensures DeltaExplained(before, after, evidence, emitted) <==>
      -0x8000_0000 <= after - before < 0x8000_0000 && after - before + evidence == emitted
  {
  }

  lemma UnawardedIff(after: seq<I32>, sticks: U32)
    requires sticks > 0
    ensures Unawarded(after, sticks).Some? <==> exists top :: 0 <= top < |after| && SticksWentTo(after, sticks, top)
    ensures forall top :: 0 <= top < |after| && SticksWentTo(after, sticks, top) ==>
      Unawarded(after, sticks) == Some(after[top := after[top] - 1000 * sticks])
  {
    forall top | 0 <= top < |after| && SticksWentTo(after, sticks, top)
      ensures Unawarded(after, sticks) == Some(after[top := after[top] - 1000 * sticks])
    {
      TopIsUnique(after, top, TopSeat(after));
      var before := after[top := after[top] - 1000 * sticks];
      TopIsUnique(before, top, TopSeat(before));
    }
    if Unawarded(after, sticks).Some? { assert SticksWentTo(after, sticks, TopSeat(after)); }
  }

  lemma AccountedIff(log: seq<GameEvent>, start: nat, end: nat, t: nat, record: KyokuResultRecord, finalKyoku: bool)
    requires start < t < end < |log| && HandAt(log, start, end, [t]) && record.wins == []
    requires PotAt(log, start, t) < 0x1_0000_0000
    ensures SticksAccounted(log, end, t, record, finalKyoku, SticksBy(log, start, t)) <==>
      && DrawAccepted(log, start, end, [t], record, finalKyoku)
      && record.settlement.potAfter ==
           if FinalAward(log, end, finalKyoku, PotAt(log, start, t)) then 0 else PotAt(log, start, t)
  {
    hide ScoresExplain, DrawExplained, Unawarded, SticksWentTo;
    var after, sticks := Afters(record.settlement), PotAt(log, start, t);
    if FinalAward(log, end, finalKyoku, sticks) {
      UnawardedIff(after, sticks);
      if Unawarded(after, sticks).Some? { ExplainIff(Unawarded(after, sticks).value, log, t, record); }
    } else {
      ExplainIff(after, log, t, record);
    }
  }

  /**
   * A draw's record is accepted exactly when the deposits can be paid, it was captured at the draw
   * or just before one deposit directly preceding it, no deposit follows, its figures account for
   * the sticks, and the next hand starts from there.
   */
  lemma DrawAcceptedIff(log: seq<GameEvent>, start: nat, end: nat, t: nat, record: KyokuResultRecord,
                        finalKyoku: bool)
    requires start < t < end < |log| && HandAt(log, start, end, [t]) && record.wins == []
    ensures SettlementAccepted(log, start, end, [t], record, finalKyoku) <==>
      && DepositsPaid(log, start, t)
      && (CapturedAt(log, start, t, record.settlement)
          || (log[t - 1].ReachAccepted? && CapturedAt(log, start, t - 1, record.settlement)))
      && (forall k :: t <= k < end ==> !log[k].ReachAccepted?)
      && SticksAccounted(log, end, t, record, finalKyoku, SticksBy(log, start, t))
      && NextHandFollows(log, end, record.settlement)
  {
    hide DepositsPaid, DepositsFit, CapturedAt, SticksAccounted, DrawAccepted, FinalAward, NextHandStartsFrom;
    hide NextHandFollows, MatchesBefore;
    DepositsPaidIff(log, start, t);
    CapturedAtIff(log, start, t, record.settlement);
    if log[t - 1].ReachAccepted? { CapturedAtIff(log, start, t - 1, record.settlement); }
    CapturedHasEverySeat(log, start, t, record.settlement);
    FollowsIff(log, end, record.settlement);
    if DepositsPaid(log, start, t) {
      PotFits(log, start, t);
      AccountedIff(log, start, end, t, record, finalKyoku);
    }
  }

  lemma FollowsIff(log: seq<GameEvent>, end: nat, settlement: KyokuSettlement)
    requires end < |log|
    ensures NextHandFollows(log, end, settlement) <==>
      NextHandStartsFrom(log, end, Afters(settlement), settlement.potAfter)
  {
  }

  lemma CapturedHasEverySeat(log: seq<GameEvent>, start: nat, t: nat, settlement: KyokuSettlement)
    requires start < t < |log| && log[start].StartKyoku?
    ensures CapturedAt(log, start, t, settlement) ==> |settlement.changes| == |log[start].startScores|
    ensures log[t - 1].ReachAccepted? && CapturedAt(log, start, t - 1, settlement) ==>
      |settlement.changes| == |log[start].startScores|
  {
  }

  /** An accepted draw with several terminal events is no draw: it has exactly one. */
  lemma DrawHasOneTerminal(log: seq<GameEvent>, start: nat, end: nat, terminal: seq<nat>, record: KyokuResultRecord,
                           finalKyoku: bool)
    requires HandAt(log, start, end, terminal) && record.wins == []
    requires SettlementAccepted(log, start, end, terminal, record, finalKyoku)
    ensures terminal == [terminal[0]] && log[terminal[0]].Ryukyoku?
  {
    hide DepositsFit, CapturedBefore, NoReachIn, NextHandStartsFrom, Unawarded, GameEndsAfter;
  }

  // ----- Over a whole replay ---------------------------------------------------------------------------

  /** The sticks a hand sees: those it starts with and every riichi accepted in it. */
  function SticksOf(log: seq<GameEvent>, start: nat, end: nat): nat
    requires start < end <= |log| && log[start].StartKyoku?
  {
    SticksBy(log, start, end)
  }

  lemma NoLateSticks(log: seq<GameEvent>, start: nat, t: nat, end: nat)
    requires start < t < end <= |log| && log[start].StartKyoku? && forall k :: t <= k < end ==> !log[k].ReachAccepted?
    ensures SticksBy(log, start, end) == SticksBy(log, start, t)
    decreases end
  {
    if t < end - 1 { NoLateSticks(log, start, t, end - 1); }
  }

  /**
   * What becomes of a drawn hand's sticks: they stay on the table, unless the replay's last hand is
   * drawn with some and the match ends after it; then they are gone.
   */
  lemma DrawnSticks(log: seq<GameEvent>, modes: seq<GameMode>, records: seq<KyokuResultRecord>, p: nat)
    requires AcceptedReplay(log, modes, records) && p < |records| && records[p].wins == []
    ensures |StartsOf(log)| == |records| && StartsOf(log)[p] < records[p].endEventIndex < |log|
    ensures var sticks := SticksOf(log, StartsOf(log)[p], records[p].endEventIndex);
      records[p].settlement.potAfter ==
        if p + 1 == |records| && sticks > 0
          && (exists k :: records[p].endEventIndex < k < |log| && log[k].EndGame?) then 0
        else sticks
  {
    hide SettlementAccepted, DepositsPaid, CapturedAt, NextHandFollows, ScoresExplain;
    assert RecordInPlace(log, modes[p], StartsOf(log), records[p], p) && AcceptedHand(log, modes, records, p);
    var start, end := StartsOf(log)[p], records[p].endEventIndex;
    var terminal := HandTerminals(log, start, records[p]);
    DrawHasOneTerminal(log, start, end, terminal, records[p], p + 1 == |records|);
    DrawAcceptedIff(log, start, end, terminal[0], records[p], p + 1 == |records|);
    NoLateSticks(log, start, terminal[0], end);
  }

  /** Between a drawn hand and the next the sticks stay where they are, and a won hand leaves none. */
  lemma SticksStay(log: seq<GameEvent>, modes: seq<GameMode>, records: seq<KyokuResultRecord>, p: nat)
    requires AcceptedReplay(log, modes, records) && p + 1 < |records|
    ensures |StartsOf(log)| == |records| && StartsOf(log)[p] < records[p].endEventIndex < |log|
    ensures log[StartsOf(log)[p + 1]].kyotaku ==
      if records[p].wins == [] then SticksOf(log, StartsOf(log)[p], records[p].endEventIndex) else 0
  {
    hide SettlementAccepted;
    assert RecordInPlace(log, modes[p], StartsOf(log), records[p], p) && AcceptedHand(log, modes, records, p);
    HandsLink(log, modes, records, p);
    if records[p].wins == [] {
      DrawnSticks(log, modes, records, p);
    } else {
      WonHandLeavesNone(log, modes, records, p);
    }
  }

  lemma WonHandLeavesNone(log: seq<GameEvent>, modes: seq<GameMode>, records: seq<KyokuResultRecord>, p: nat)
    requires AcceptedReplay(log, modes, records) && p < |records| && records[p].wins != []
    ensures records[p].settlement.potAfter == 0
  {
    hide DepositsFit, CapturedBefore, NoReachIn, NextHandStartsFrom, WinsAccepted;
    assert RecordInPlace(log, modes[p], StartsOf(log), records[p], p) && AcceptedHand(log, modes, records, p);
  }
}
