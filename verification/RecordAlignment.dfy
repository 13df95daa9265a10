// The records a run produces point at the right places of the journal they were cut from.

/** The checks a replay makes before it joins records to a log. */
module ReplayBoundary {
  import opened Domain
  import opened Results

  /** Record number `position` sits between its hand's start and the next one's. */
  predicate RecordInPlace(log: seq<GameEvent>, mode: GameMode, starts: seq<nat>, r: KyokuResultRecord, position: nat)
    requires position < |starts|
  {
    var start, end := starts[position], r.endEventIndex;
    && r.kyokuSequence == position + 1 && start < end < |log|
    && (position + 1 < |starts| ==> end < starts[position + 1])
    && log[end].EndKyoku? && r.mode == mode
    && |r.wins| <= end - start - 1
    && (forall i :: 0 <= i < |r.wins| ==>
          start < r.wins[i].eventIndex < end && log[r.wins[i].eventIndex].Hora?)
    && (forall i :: 0 <= i < |r.wins| - 1 ==> r.wins[i].eventIndex < r.wins[i + 1].eventIndex)
  }

  /** One record per hand, each in place; `modes` are the modes shown where the hands start. */
  predicate RecordsInPlace(log: seq<GameEvent>, modes: seq<GameMode>, starts: seq<nat>,
                           records: seq<KyokuResultRecord>) {
    && records != [] && |records| == |starts| == |modes|
    && forall p :: 0 <= p < |records| ==> RecordInPlace(log, modes[p], starts, records[p], p)
  }
}

module RecordAlignment {
  import opened Wrappers
  import opened Domain
  import opened EventLog
  import opened ReplayBoundary
  import opened Results
  import opened Engine
  import opened MatchSpec
  import opened MatchRuns

  /** An engine batch ends at most one hand. */
  predicate AtMostOneEnd(events: seq<GameEvent>) {
    forall i, j :: 0 <= i < j < |events| ==> !(events[i].EndKyoku? && events[j].EndKyoku?)
  }

  predicate CallEndsAtMostOne(c: Call) {
    RecordingCall(c) && c.env.applied.Ok? ==> AtMostOneEnd(c.env.applied.value.events)
  }

  /** Win `w` was announced in the hand after `i` ended ones, before position `end`. */
  predicate WinPoints(log: seq<GameEvent>, w: WinResult, i: nat, end: nat) {
    && w.eventIndex < end <= |log| && EndsBefore(log, w.eventIndex) == i
    && var e := log[w.eventIndex]; e.Hora? && e.actor == w.seat && e.winTarget == w.target
  }

  predicate WinsPoint(log: seq<GameEvent>, r: KyokuResultRecord, i: nat) {
    && (forall k :: 0 <= k < |r.wins| ==> WinPoints(log, r.wins[k], i, r.endEventIndex))
    && (forall k, l :: 0 <= k < l < |r.wins| ==> r.wins[k].eventIndex < r.wins[l].eventIndex)
  }

  /** Record `r` is about the hand that ends after `i` earlier ones. */
  predicate RecordPoints(log: seq<GameEvent>, mode: GameMode, r: KyokuResultRecord, i: nat) {
    && r.mode == mode && r.endEventIndex < |log| && log[r.endEventIndex].EndKyoku?
    && EndsBefore(log, r.endEventIndex) == i
    && r.kyokuSequence == StartsBefore(log, r.endEventIndex)
    && WinsPoint(log, r, i)
  }

  /** One record per ended hand, in order, each pointing into the journal. */
  predicate RecordsPoint(w: World) {
    && |w.h.records| == CountEnds(w.h.journal)
    && forall i :: 0 <= i < |w.h.records| ==> RecordPoints(w.h.journal, w.m.mode, w.h.records[i], i)
  }

  lemma PointsStay(log: seq<GameEvent>, more: seq<GameEvent>, mode: GameMode, r: KyokuResultRecord, i: nat)
    requires RecordPoints(log, mode, r, i)
    ensures RecordPoints(log + more, mode, r, i)
  {
    hide StartsBefore, EndsBefore;
    CountsBeforeStay(log, more, r.endEventIndex);
    forall k | 0 <= k < |r.wins|
      ensures WinPoints(log + more, r.wins[k], i, r.endEventIndex)
    {
      assert WinPoints(log, r.wins[k], i, r.endEventIndex);
      CountsBeforeStay(log, more, r.wins[k].eventIndex);
    }
  }

  /** Up to the one end of a batch, nothing ends. */
  lemma NothingEndsBefore(events: seq<GameEvent>, k: nat, e: nat)
    requires k <= e < |events| && FirstEnd(events) == Some(e)
    ensures EndsBefore(events, k) == 0
  {
    hide CountEnds;
    forall i | 0 <= i < |events[..k]|
      ensures !events[..k][i].EndKyoku?
    {
      assert events[..k][i] == events[i];
    }
    NoEndCountsNone(events[..k]);
  }

  lemma OneEndCounts(events: seq<GameEvent>, e: nat)
    requires AtMostOneEnd(events) && FirstEnd(events) == Some(e)
    ensures CountEnds(events) == 1 && EndKyoku !in events[e + 1..]
  {
    hide FirstEnd;
    NoEndCountsNone(events[..e]);
    forall x | x in events[e + 1..]
      ensures !x.EndKyoku?
    {
      var i :| 0 <= i < |events[e + 1..]| && events[e + 1..][i] == x;
      assert events[e + 1 + i] == x;
    }
    NoEndCountsNone(events[e + 1..]);
    assert events == (events[..e] + [events[e]]) + events[e + 1..];
    CountsAdd(events[..e] + [events[e]], events[e + 1..]);
    CountsAdd(events[..e], [events[e]]);
  }

  /** What a record says about the batch, as positions in the journal. */
  predicate RecordReads(r: KyokuResultRecord, mode: GameMode, roster: seq<Participant>, sequence: nat, first: nat,
                        events: seq<GameEvent>) {
    && r.mode == mode && r.kyokuSequence == sequence
    && WinsRead(r.wins, events, first) && EndRead(Some(r.endEventIndex), events, first)
    && WinsFit(r.wins, roster, r.endEventIndex)
  }

  lemma RecordOfReads(ended: EngineKyokuEnd, mode: GameMode, roster: seq<Participant>, sequence: nat, first: nat,
                      events: seq<GameEvent>)
    requires |ended.preAction.scores| == mode.SeatCount()
    requires RecordOf(ended, mode, roster, sequence, first, events).Ok?
    ensures RecordReads(RecordOf(ended, mode, roster, sequence, first, events).value,
                        mode, roster, sequence, first, events)
  {
    hide ScanEvents, DrawEvidence, ChangesOf, WinsRead, EveryHoraRead, EndRead, WinsFit, SettlementFits;
    ScanMeaning(events, first, ended, roster);
  }

  lemma BuiltRecordReads(m: MatchState, o: EngineOutcome)
    requires SeatsFit(m) && OutcomeFits(m.mode, o) && o.ended.Some? && BuildHold(m, o).Ok?
    ensures RecordReads(BuildHold(m, o).value.record,
                        m.mode, m.players, HandSequence(m, o), m.journalEventCount, o.events)
  {
    hide RecordOf, RecordReads, ResultValid, HandSequence, FinalResultOf;
    RecordOfReads(o.ended.value, m.mode, m.players, HandSequence(m, o), m.journalEventCount, o.events);
  }

  lemma ReadWinPoints(log: seq<GameEvent>, events: seq<GameEvent>, e: nat, w: WinResult, roster: seq<Participant>)
    requires FirstEnd(events) == Some(e)
    requires WinReads(w, events, |log|) && WinFits(w, roster, |log| + e)
    ensures WinPoints(log + events, w, CountEnds(log), |log| + e)
  {
    hide StartsBefore, EndsBefore, CountEnds, CountStarts;
    NothingEndsBefore(events, w.eventIndex - |log|, e);
    CountsBeforeJoin(log, events, w.eventIndex - |log|);
  }

  lemma ReadWinsPoint(log: seq<GameEvent>, roster: seq<Participant>, events: seq<GameEvent>, e: nat,
                      r: KyokuResultRecord)
    requires FirstEnd(events) == Some(e) && r.endEventIndex == |log| + e
    requires WinsRead(r.wins, events, |log|) && WinsFit(r.wins, roster, r.endEventIndex)
    ensures WinsPoint(log + events, r, CountEnds(log))
  {
    hide WinReads, WinFits, WinPoints, CountEnds, FirstEnd;
    forall k | 0 <= k < |r.wins|
      ensures WinPoints(log + events, r.wins[k], CountEnds(log), r.endEventIndex)
    {
      ReadWinPoints(log, events, e, r.wins[k], roster);
    }
  }

  /** Where the end of the batch falls in the journal. */
  lemma EndFalls(log: seq<GameEvent>, events: seq<GameEvent>, e: nat, end: nat)
    requires AtMostOneEnd(events) && FirstEnd(events) == Some(e) && EndRead(Some(end), events, |log|)
    ensures e < |events| && end == |log| + e < |log + events| && (log + events)[end].EndKyoku?
    ensures EndsBefore(log + events, end) == CountEnds(log)
    ensures StartsBefore(log + events, end) == CountStarts(log) + StartsBefore(events, e)
  {
    hide CountStarts, CountEnds, StartsBefore, EndsBefore;
    LastEndIsTheOnly(events, e, end, |log|);
    NothingEndsBefore(events, e, e);
    CountsBeforeJoin(log, events, e);
  }

  lemma ReadRecordPoints(log: seq<GameEvent>, mode: GameMode, roster: seq<Participant>, events: seq<GameEvent>, e: nat,
                         r: KyokuResultRecord)
    requires e < |events| && AtMostOneEnd(events) && FirstEnd(events) == Some(e)
    requires RecordReads(r, mode, roster, CountStarts(log) + StartsBefore(events, e), |log|, events)
    ensures RecordPoints(log + events, mode, r, CountEnds(log))
  {
    hide WinsRead, WinsFit, WinsPoint, AtMostOneEnd, EndRead, CountStarts, CountEnds, StartsBefore, EndsBefore;
    EndFalls(log, events, e, r.endEventIndex);
    ReadWinsPoint(log, roster, events, e, r);
  }

  lemma NewRecordPoints(m: MatchState, h: History, o: EngineOutcome)
    requires SeatsFit(m) && OutcomeFits(m.mode, o) && o.ended.Some? && BuildHold(m, o).Ok?
    requires Partitioned(World(m, h)) && m.held.None? && AtMostOneEnd(o.events)
    ensures RecordPoints(h.journal + o.events, m.mode, BuildHold(m, o).value.record, CountEnds(h.journal))
    ensures CountEnds(h.journal + o.events) == CountEnds(h.journal) + 1
  {
    hide BuildHold, RecordReads, RecordPoints, AtMostOneEnd, SeatsFit, CountStarts, CountEnds;
    BuiltRecordReads(m, o);
    assert m.events == h.journal;
    var e := FirstEnd(o.events).value;
    OneEndCounts(o.events, e);
    CountsAdd(h.journal, o.events);
    ReadRecordPoints(h.journal, m.mode, m.players, o.events, e, BuildHold(m, o).value.record);
  }

  lemma LastEndIsTheOnly(events: seq<GameEvent>, e: nat, end: nat, first: nat)
    requires AtMostOneEnd(events) && FirstEnd(events) == Some(e) && EndRead(Some(end), events, first)
    ensures end == first + e && e < |events| && events[e].EndKyoku?
  {
  }

  lemma StepKeepsPoints(w: World, c: Call)
    requires Inv(w) && CallFits(w.m.mode, c) && CallEndsAtMostOne(c) && RecordsPoint(w)
    ensures RecordsPoint(Step(w, c))
  {
    hide FinishActions, OpenWindow, HoldFollowed, EndsSettled, Prepare, RecordPoints, BuildHold;
    PrepareFits(w.m, c);
    StepKeepsMode(w, c);
    var (m1, applied) := Prepare(w.m, c);
    if applied.Some? && applied.value.Ok? {
      var o := applied.value.value;
      forall i | 0 <= i < |w.h.records|
        ensures RecordPoints(w.h.journal + o.events, w.m.mode, w.h.records[i], i)
      {
        PointsStay(w.h.journal, o.events, w.m.mode, w.h.records[i], i);
      }
      if o.ended.None? {
        NoEndCountsNone(o.events);
        CountsAdd(w.h.journal, o.events);
      } else if Recorded(m1, o) {
        NewRecordPoints(m1, w.h, o);
      }
    }
  }

  predicate CallsEndAtMostOne(cs: seq<Call>) { forall i :: 0 <= i < |cs| ==> CallEndsAtMostOne(cs[i]) }

  lemma {:induction false} RunKeepsPoints(w: World, cs: seq<Call>)
    requires Inv(w) && CallsFit(w.m.mode, cs) && CallsEndAtMostOne(cs) && RecordsPoint(w)
    ensures RecordsPoint(Run(w, cs))
    decreases |cs|
  {
    if cs != [] {
      hide Inv, Step, CallFits, CallEndsAtMostOne, RecordsPoint;
      StepKeepsInv(w, cs[0]);
      StepKeepsPoints(w, cs[0]);
      RunKeepsPoints(Step(w, cs[0]), cs[1..]);
    }
  }

  // ----- Such records pass the replay's boundary checks --------------------------------

  /** Strictly increasing positions strictly between two bounds are few enough to fit there. */
  lemma {:induction false} IncreasingFits(wins: seq<WinResult>, start: nat, k: nat)
    requires k < |wins|
    requires forall i :: 0 <= i < |wins| ==> start < wins[i].eventIndex
    requires forall i, j :: 0 <= i < j < |wins| ==> wins[i].eventIndex < wins[j].eventIndex
    ensures start + 1 + k <= wins[k].eventIndex
  {
    if k > 0 { IncreasingFits(wins, start, k - 1); }
  }

  lemma PointingRecordIsInItsHand(log: seq<GameEvent>, mode: GameMode, r: KyokuResultRecord, i: nat)
    requires Alternating(log) && RecordPoints(log, mode, r, i) && i < |StartsOf(log)|
    ensures var starts, end := StartsOf(log), r.endEventIndex;
      && StartsBefore(log, end) == i + 1 && starts[i] < end
      && (i + 1 < |starts| ==> end < starts[i + 1])
  {
    hide WinsPoint, StartsBefore, EndsBefore, CountStarts;
    var starts, end := StartsOf(log), r.endEventIndex;
    CountsAfterOne(log, end);
    assert EndsBefore(log, end + 1) <= StartsBefore(log, end + 1);
    StartBeforeIff(log, i, end);
    if i + 1 < |starts| {
      StartBeforeIff(log, i + 1, end);
      assert log[starts[i + 1]].StartKyoku?;
    }
  }

  lemma PointingWinIsInItsHand(log: seq<GameEvent>, w: WinResult, i: nat, end: nat)
    requires WinsInsideHands(log) && WinPoints(log, w, i, end) && i < |StartsOf(log)|
    ensures StartsOf(log)[i] < w.eventIndex < end && log[w.eventIndex].Hora?
  {
    hide StartsBefore, EndsBefore;
    StartBeforeIff(log, i, w.eventIndex);
  }

  lemma PointingRecordIsInPlace(log: seq<GameEvent>, mode: GameMode, r: KyokuResultRecord, i: nat)
    requires Alternating(log) && WinsInsideHands(log) && RecordPoints(log, mode, r, i)
    requires i < |StartsOf(log)|
    ensures RecordInPlace(log, mode, StartsOf(log), r, i)
  {
    hide Alternating, WinsInsideHands, WinPoints, StartsBefore, EndsBefore;
    var start := StartsOf(log)[i];
    PointingRecordIsInItsHand(log, mode, r, i);
    forall k | 0 <= k < |r.wins|
      ensures start < r.wins[k].eventIndex < r.endEventIndex && log[r.wins[k].eventIndex].Hora?
    {
      PointingWinIsInItsHand(log, r.wins[k], i, r.endEventIndex);
    }
    if r.wins != [] { IncreasingFits(r.wins, start, |r.wins| - 1); }
  }

  /**
   * If the engine's log alternates hand starts and ends, announces wins inside hands, and ends at
   * most one hand per batch, then once every started hand has ended the records of any run carry
   * the sequence 1, 2, 3, … and pass every boundary check a replay of the full journal makes.
   */
  lemma RecordsLineUpWithTheJournal(mode: GameMode, players: seq<Participant>, initial: seq<GameEvent>,
                                    timeControl: TimeControl, timing: TimingConfig, cs: seq<Call>)
    requires RosterValid(mode, players) && EndKyoku !in initial
    requires CallsFit(mode, cs) && CallsEndAtMostOne(cs)
    ensures var w := Run(Start(mode, players, initial, timeControl, timing), cs);
      && RecordsPoint(w)
      && (Alternating(w.h.journal) && WinsInsideHands(w.h.journal)
            && CountStarts(w.h.journal) == CountEnds(w.h.journal) > 0 ==>
          RecordsInPlace(w.h.journal, seq(|w.h.records|, i => mode), StartsOf(w.h.journal), w.h.records))
  {
    var w0 := Start(mode, players, initial, timeControl, timing);
    StartInv(mode, players, initial, timeControl, timing);
    assert RecordsPoint(w0) by { NoEndCountsNone(initial); }
    hide Inv, Start, RecordPoints, RecordInPlace, StartsBefore, EndsBefore;
    RunKeepsPoints(w0, cs);
    RunKeepsInv(w0, cs);
    var w := Run(w0, cs);
    var log := w.h.journal;
    if Alternating(log) && WinsInsideHands(log) && CountStarts(log) == CountEnds(log) {
      forall p | 0 <= p < |w.h.records|
        ensures RecordInPlace(log, mode, StartsOf(log), w.h.records[p], p)
      {
        PointingRecordIsInPlace(log, mode, w.h.records[p], p);
      }
    }
  }
}
