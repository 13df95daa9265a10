// From a live run to its replay: the journal a run leaves, folded into frames, takes the run's records.

module ReplayOfRun {
  import opened Wrappers
  import opened Domain
  import opened EventLog
  import opened Results
  import opened MatchSpec
  import opened MatchRuns
  import opened RecordAlignment
  import opened ReplayBoundary
  import opened ReplayFrames
  import opened ReplayJoin
  import opened RecordTerminals
  import opened Settlement
  import opened ReplayFold
  import opened ReplayFoldProofs
  import opened FrameBuilder

  lemma FrameAfterShows(mode: GameMode, events: seq<GameEvent>, aux: seq<AuxiliaryRecord>)
    requires 0 < |events| <= MAX_REPLAY_EVENTS && FrameAfter(mode, events, aux).Some?
    ensures var f := FrameAfter(mode, events, aux).value;
      f.visibleEvent == events[|events| - 1] && f.visibleState.mode == mode
  {
    hide Fold, TableAllowed, SticksFit;
    SticksAreBounded(mode, events);
  }

  /** A timeline built from a log shows that log, under its mode. */
  lemma {:induction false} FramesShowTheLog(mode: GameMode, events: seq<GameEvent>, aux: seq<AuxiliaryRecord>)
    requires |events| <= MAX_REPLAY_EVENTS && FramesOf(mode, events, aux).Some?
    ensures var frames := FramesOf(mode, events, aux).value;
      LogOf(frames) == events && forall i :: 0 <= i < |frames| ==> frames[i].visibleState.mode == mode
  {
    hide FrameAfter;
    if events != [] {
      var last := |events| - 1;
      FramesShowTheLog(mode, events[..last], aux);
      FrameAfterShows(mode, events, aux);
      var before, frames := FramesOf(mode, events[..last], aux).value, FramesOf(mode, events, aux).value;
      forall i | 0 <= i < |events|
        ensures frames[i].visibleEvent == events[i] && frames[i].visibleState.mode == mode
      {
        if i < last {
          assert frames[i] == before[i];
          assert LogOf(before)[i] == events[..last][i];
        }
      }
    }
  }

  // ----- What it takes for a log to fold --------------------------------------------------------------

  /** All that happens outside hands: games and hands start, games end. */
  predicate InsideHands(log: seq<GameEvent>) {
    forall k :: 0 <= k < |log| && !AllowedOutsideHands(log[k]) ==> StartsBefore(log, k) == EndsBefore(log, k) + 1
  }

  lemma FoldedHands(s: FoldState, e: GameEvent)
    requires FoldFits(s) && ApplyEvent(s, e).Some?
    ensures !AllowedOutsideHands(e) || e.EndKyoku? ==> s.kyokuActive
    ensures e.StartKyoku? ==> !s.kyokuActive
    ensures ApplyEvent(s, e).value.kyokuActive == if e.StartKyoku? then true else !e.EndKyoku? && s.kyokuActive
    ensures e.StartKyoku? ==> ApplyEvent(s, e).value.round.Some?
  {
    hide FoldFits, RemoveTile, RemoveTiles, Without, ChiAccepted, SameTypeMeldAccepted, AddedKanTarget, NorthIn;
  }

  /** A log that folds alternates hand starts and ends, and everything else happens inside hands. */
  lemma {:induction false} FoldedLogAlternates(mode: GameMode, log: seq<GameEvent>)
    requires Fold(mode, log).Some?
    ensures Alternating(log) && InsideHands(log)
    ensures CountStarts(log) == CountEnds(log) + if Fold(mode, log).value.kyokuActive then 1 else 0
  {
    hide ApplyEvent, FoldFits, StartsBefore, EndsBefore, AllowedOutsideHands;
    if log == [] {
      NothingAlternates(log);
    } else {
      var last := |log| - 1;
      var front := log[..last];
      FoldedLogAlternates(mode, front);
      FoldedHands(Fold(mode, front).value, log[last]);
      AlternatesOneMore(log);
    }
  }

  lemma NothingAlternates(log: seq<GameEvent>)
    requires log == []
    ensures Alternating(log) && InsideHands(log)
  {
    assert log[..0] == [];
  }

  lemma AlternatesOneMore(log: seq<GameEvent>)
    requires log != [] && Alternating(log[..|log| - 1]) && InsideHands(log[..|log| - 1])
    requires CountEnds(log) <= CountStarts(log) <= CountEnds(log) + 1
    requires !AllowedOutsideHands(log[|log| - 1]) ==>
      CountStarts(log[..|log| - 1]) == CountEnds(log[..|log| - 1]) + 1
    ensures Alternating(log) && InsideHands(log)
  {
    hide CountStarts, CountEnds, AllowedOutsideHands, StartsBefore, EndsBefore;
    var front := log[..|log| - 1];
    WholeCounts(log);
    WholeCounts(front);
    forall k | 0 <= k <= |front|
      ensures StartsBefore(log, k) == StartsBefore(front, k) && EndsBefore(log, k) == EndsBefore(front, k)
    {
      FrontCounts(log, k);
    }
    forall k | 0 <= k < |log| && !AllowedOutsideHands(log[k])
      ensures StartsBefore(log, k) == EndsBefore(log, k) + 1
    {
      if k < |front| { assert front[k] == log[k]; }
    }
  }

  lemma WholeCounts(log: seq<GameEvent>)
    ensures StartsBefore(log, |log|) == CountStarts(log) && EndsBefore(log, |log|) == CountEnds(log)
  {
    assert log[..|log|] == log;
  }

  lemma FrontCounts(log: seq<GameEvent>, k: nat)
    requires k < |log|
    ensures var front := log[..|log| - 1];
      StartsBefore(log, k) == StartsBefore(front, k) && EndsBefore(log, k) == EndsBefore(front, k)
  {
    assert log[..k] == log[..|log| - 1][..k];
  }

  lemma InsideMeansWinsInside(log: seq<GameEvent>)
    requires InsideHands(log)
    ensures WinsInsideHands(log)
  {
    hide StartsBefore, EndsBefore;
  }

  lemma {:induction false} BuiltLogFolds(mode: GameMode, events: seq<GameEvent>, aux: seq<AuxiliaryRecord>)
    requires |events| <= MAX_REPLAY_EVENTS && FramesOf(mode, events, aux).Some?
    ensures Fold(mode, events).Some?
  {
    hide ApplyEvent, ProjectionOf;
  }

  /** Every frame at a hand's start shows its round, dealer included. */
  lemma {:induction false} StartsShowTheRound(mode: GameMode, events: seq<GameEvent>, aux: seq<AuxiliaryRecord>, i: nat)
    requires |events| <= MAX_REPLAY_EVENTS && FramesOf(mode, events, aux).Some?
    requires i < |events| && events[i].StartKyoku?
    ensures FramesOf(mode, events, aux).value[i].visibleState.round.Some?
    decreases |events|
  {
    hide FrameAfter;
    var last := |events| - 1;
    if i < last {
      StartsShowTheRound(mode, events[..last], aux, i);
    } else {
      StartFrameShowsTheRound(mode, events, aux);
    }
  }

  lemma StartFrameShowsTheRound(mode: GameMode, events: seq<GameEvent>, aux: seq<AuxiliaryRecord>)
    requires 0 < |events| <= MAX_REPLAY_EVENTS && FrameAfter(mode, events, aux).Some?
    requires events[|events| - 1].StartKyoku?
    ensures FrameAfter(mode, events, aux).value.visibleState.round.Some?
  {
    hide ApplyEvent, TableOf, TableAllowed, FoldFits;
    SticksAreBounded(mode, events);
    FoldedHands(Fold(mode, events[..|events| - 1]).value, events[|events| - 1]);
  }

  // ----- Terminal events of a hand ---------------------------------------------------------------------

  lemma {:induction false} TerminalsAreListed(log: seq<GameEvent>, lo: nat, hi: nat, k: nat)
    requires lo <= k < hi <= |log| && IsTerminal(log[k])
    ensures k in TerminalsBetween(log, lo, hi)
    decreases hi
  {
    if k < hi - 1 { TerminalsAreListed(log, lo, hi - 1, k); }
  }

  lemma {:induction false} DistinctIsSmall<T>(a: seq<T>, b: set<T>)
    requires forall i, j :: 0 <= i < j < |a| ==> a[i] != a[j]
    requires forall i :: 0 <= i < |a| ==> a[i] in b
    ensures |a| <= |b|
  {
    if a != [] {
      var last := |a| - 1;
      DistinctIsSmall(a[..last], b - {a[last]});
    }
  }

  lemma {:induction false} ElementsAreFew<T>(a: seq<T>)
    ensures |(set x | x in a)| <= |a|
  {
    if a == [] {
      assert (set x | x in a) == {};
    } else {
      var last := |a| - 1;
      ElementsAreFew(a[..last]);
      assert a == a[..last] + [a[last]];
      assert (set x | x in a) == (set x | x in a[..last]) + {a[last]};
    }
  }

  /** Two lists without repetition have the same length if each holds the other's elements. */
  lemma SameElementsSameLength<T>(a: seq<T>, b: seq<T>)
    requires forall i, j :: 0 <= i < j < |a| ==> a[i] != a[j]
    requires forall i, j :: 0 <= i < j < |b| ==> b[i] != b[j]
    requires forall x :: x in a <==> x in b
    ensures |a| == |b|
  {
    DistinctIsSmall(a, set x | x in b);
    DistinctIsSmall(b, set x | x in a);
    ElementsAreFew(a);
    ElementsAreFew(b);
  }

  /** Between a hand's start and its end, `EndsBefore` is the hand's own number. */
  lemma InsideItsHand(log: seq<GameEvent>, i: nat, end: nat, k: nat)
    requires Alternating(log) && i < |StartsOf(log)| && end < |log| && log[end].EndKyoku? && EndsBefore(log, end) == i
    requires k < |log| && IsTerminal(log[k]) && InsideHands(log)
    ensures StartsOf(log)[i] < k < end <==> TerminalOf(log, k, i)
  {
    hide StartsBefore, EndsBefore, CountStarts, CountEnds, StartsOf;
    StartBeforeIff(log, i, k);
    EndsGrow(log, k, end);
    EndsGrow(log, end + 1, k);
    CountsAfterOne(log, end);
  }

  lemma EndsGrow(log: seq<GameEvent>, i: nat, k: nat)
    requires i <= |log| && k <= |log|
    ensures i <= k ==> EndsBefore(log, i) <= EndsBefore(log, k)
  {
    hide CountStarts, CountEnds;
    if i <= k { CountsGrow(log, i, k); }
  }

  lemma ListedIff(log: seq<GameEvent>, i: nat, end: nat, k: nat)
    requires Alternating(log) && i < |StartsOf(log)| && end < |log| && log[end].EndKyoku? && EndsBefore(log, end) == i
    requires k < |log| && IsTerminal(log[k]) && InsideHands(log) && StartsOf(log)[i] < end
    ensures k in TerminalsBetween(log, StartsOf(log)[i] + 1, end) <==> TerminalOf(log, k, i)
  {
    hide StartsBefore, EndsBefore, StartsOf, Alternating, InsideHands, TerminalOf;
    InsideItsHand(log, i, end, k);
    if StartsOf(log)[i] < k < end { TerminalsAreListed(log, StartsOf(log)[i] + 1, end, k); }
  }

  lemma ToldAt(log: seq<GameEvent>, r: KyokuResultRecord, i: nat, k: nat)
    requires HandTold(log, r, i) && TerminalOf(log, k, i)
    ensures TerminalMatches(log[k], k, r)
  {
    hide TerminalMatches, EndsBefore;
  }

  /** A record told by its hand's events passes the one-to-one check against them. */
  lemma ToldMatches(log: seq<GameEvent>, mode: GameMode, r: KyokuResultRecord, i: nat)
    requires Alternating(log) && InsideHands(log) && i < |StartsOf(log)|
    requires RecordInPlace(log, mode, StartsOf(log), r, i) && EndsBefore(log, r.endEventIndex) == i
    requires HandTold(log, r, i)
    ensures var terminal := TerminalsBetween(log, StartsOf(log)[i] + 1, r.endEventIndex);
      TerminalsIn(log, terminal) && TerminalsMatch(log, terminal, r)
  {
    hide StartsBefore, EndsBefore, StartsOf, Alternating, InsideHands, TerminalMatches, TerminalOf, HandTold;
    hide TerminalsBetween;
    var start, end := StartsOf(log)[i], r.endEventIndex;
    var terminal := TerminalsBetween(log, start + 1, end);
    forall k | 0 <= k < |log| && IsTerminal(log[k])
      ensures k in terminal <==> TerminalOf(log, k, i)
    {
      ListedIff(log, i, end, k);
    }
    forall n | 0 <= n < |terminal|
      ensures TerminalMatches(log[terminal[n]], terminal[n], r)
    {
      assert terminal[n] in terminal;
      ToldAt(log, r, i, terminal[n]);
    }
    if r.wins == [] { OneTerminal(log, r, i, terminal); } else { TerminalPerWin(log, r, i, terminal, start, end); }
  }

  lemma OneTerminal(log: seq<GameEvent>, r: KyokuResultRecord, i: nat, terminal: seq<nat>)
    requires TerminalsIn(log, terminal) && HandTold(log, r, i) && r.wins == []
    requires forall m, n :: 0 <= m < n < |terminal| ==> terminal[m] < terminal[n]
    requires forall k :: 0 <= k < |log| && IsTerminal(log[k]) ==> (k in terminal <==> TerminalOf(log, k, i))
    ensures |terminal| == 1
  {
    hide TerminalMatches, EndsBefore;
    var k :| 0 <= k < |log| && OnlyTerminalOf(log, k, i);
    assert k in terminal;
    assert |terminal| > 1 ==> terminal[0] < terminal[1];
    forall n | 0 <= n < |terminal|
      ensures terminal[n] == k
    {
      assert terminal[n] in terminal;
    }
  }

  lemma TerminalPerWin(log: seq<GameEvent>, r: KyokuResultRecord, i: nat, terminal: seq<nat>, start: nat, end: nat)
    requires TerminalsIn(log, terminal) && r.wins != [] && start < end <= |log|
    requires terminal == TerminalsBetween(log, start + 1, end)
    requires forall n :: 0 <= n < |terminal| ==> TerminalMatches(log[terminal[n]], terminal[n], r)
    requires forall k :: 0 <= k < |r.wins| ==>
      start < r.wins[k].eventIndex < end && log[r.wins[k].eventIndex].Hora?
    requires forall k :: 0 <= k < |r.wins| - 1 ==> r.wins[k].eventIndex < r.wins[k + 1].eventIndex
    ensures |terminal| == |r.wins|
  {
    hide TerminalsBetween, TerminalMatches;
    var positions := seq(|r.wins|, k requires 0 <= k < |r.wins| => r.wins[k].eventIndex);
    forall m, n | 0 <= m < n < |positions|
      ensures positions[m] < positions[n]
    {
      StepsIncrease(r.wins, m, n);
    }
    forall n | 0 <= n < |terminal|
      ensures terminal[n] in positions
    {
      MatchIsAWin(log, r, terminal[n]);
      var k :| 0 <= k < |r.wins| && r.wins[k].eventIndex == terminal[n];
      assert positions[k] == terminal[n];
    }
    forall k | 0 <= k < |positions|
      ensures positions[k] in terminal
    {
      TerminalsAreListed(log, start + 1, end, r.wins[k].eventIndex);
    }
    SameElementsSameLength(terminal, positions);
  }

  lemma MatchIsAWin(log: seq<GameEvent>, r: KyokuResultRecord, k: nat)
    requires k < |log| && IsTerminal(log[k]) && TerminalMatches(log[k], k, r) && r.wins != []
    ensures exists n :: 0 <= n < |r.wins| && r.wins[n].eventIndex == k
  {
  }

  lemma {:induction false} StepsIncrease(wins: seq<WinResult>, m: nat, n: nat)
    requires m < n < |wins|
    requires forall k :: 0 <= k < |wins| - 1 ==> wins[k].eventIndex < wins[k + 1].eventIndex
    ensures wins[m].eventIndex < wins[n].eventIndex
    decreases n
  {
    if m < n - 1 { StepsIncrease(wins, m, n - 1); }
  }

  // ----- End to end -----------------------------------------------------------------------------------

  /**
   * The timeline built from any run's own journal takes that run's records: once every started hand
   * has ended, every record passes the boundary checks of the join. That the log folds at all is
   * what makes its hands start and end in turn.
   */
  lemma RunsRecordsFitItsReplay(mode: GameMode, players: seq<Participant>, initial: seq<GameEvent>,
                                timeControl: TimeControl, timing: TimingConfig, cs: seq<Call>,
                                aux: seq<AuxiliaryRecord>)
    requires RosterValid(mode, players) && EndKyoku !in initial
    requires CallsFit(mode, cs) && CallsEndAtMostOne(cs)
    ensures Inv(Start(mode, players, initial, timeControl, timing))
    ensures var h := Run(Start(mode, players, initial, timeControl, timing), cs).h;
      && CountStarts(h.journal) == CountEnds(h.journal) > 0
      && |h.journal| <= MAX_REPLAY_EVENTS && FramesOf(mode, h.journal, aux).Some? ==>
      Placed(FramesOf(mode, h.journal, aux).value, h.records)
  {
    hide Inv, Alternating, WinsInsideHands, InsideHands, CountStarts, CountEnds, RecordsPoint, FramesOf, StartsOf, Fold;
    hide CallsEndAtMostOne, CallsFit, RecordInPlace;
    StartInv(mode, players, initial, timeControl, timing);
    RecordsLineUpWithTheJournal(mode, players, initial, timeControl, timing, cs);
    var h := Run(Start(mode, players, initial, timeControl, timing), cs).h;
    if |h.journal| <= MAX_REPLAY_EVENTS && FramesOf(mode, h.journal, aux).Some? {
      var frames := FramesOf(mode, h.journal, aux).value;
      FramesShowTheLog(mode, h.journal, aux);
      BuiltLogFolds(mode, h.journal, aux);
      FoldedLogAlternates(mode, h.journal);
      InsideMeansWinsInside(h.journal);
      var starts := StartsOf(LogOf(frames));
      if |starts| == |h.records| { assert ModesAt(frames, starts) == seq(|h.records|, i => mode); }
    }
  }

  /** What is left to agree on: each win's points for its dealer, and the settlement. */
  predicate MoneyAgrees(frames: seq<ReplayFrame>, records: seq<KyokuResultRecord>, p: nat)
    requires Placed(frames, records) && p < |records|
  {
    var log, starts, record := LogOf(frames), StartsOf(LogOf(frames)), records[p];
    assert RecordInPlace(log, ModesAt(frames, starts)[p], starts, record, p);
    var terminal := TerminalsBetween(log, starts[p] + 1, record.endEventIndex);
    && (frames[starts[p]].visibleState.round.Some? ==>
          forall k :: 0 <= k < |record.wins| ==>
            PaymentFits(record.wins[k], frames[starts[p]].visibleState.round.value.dealer))
    && (terminal != [] ==>
          SettlementAccepted(log, starts[p], record.endEventIndex, terminal, record, p + 1 == |records|))
  }

  lemma ToldJoinsIff(frames: seq<ReplayFrame>, records: seq<KyokuResultRecord>, p: nat)
    requires Placed(frames, records) && p < |records|
    requires Alternating(LogOf(frames)) && InsideHands(LogOf(frames))
    requires EndsBefore(LogOf(frames), records[p].endEventIndex) == p && HandTold(LogOf(frames), records[p], p)
    requires RecordValid(records[p], RosterOf(records[p].settlement.changes))
    requires frames[StartsOf(LogOf(frames))[p]].visibleState.round.Some?
    ensures RecordJoinsAt(frames, records, p) <==> MoneyAgrees(frames, records, p)
  {
    hide StartsOf, Alternating, InsideHands, EndsBefore, HandTold, RecordValid, SettlementAccepted, PaymentFits;
    hide TerminalsBetween, TerminalMatches, TerminalsIn, RecordInPlace, ModesAt;
    var log, starts := LogOf(frames), StartsOf(LogOf(frames));
    var mode := ModesAt(frames, starts)[p];
    assert RecordInPlace(log, mode, starts, records[p], p);
    ToldMatches(log, mode, records[p], p);
  }

  /**
   * And where every hand's end is announced in the batch that ends it, a run's own records fail the
   * join on money or size alone: the verdict on the attachment is success exactly when the joined
   * frames are small enough and each record's points and settlement agree with the log.
   */
  lemma RunsRecordsJoinIff(mode: GameMode, players: seq<Participant>, initial: seq<GameEvent>,
                           timeControl: TimeControl, timing: TimingConfig, cs: seq<Call>,
                           aux: seq<AuxiliaryRecord>, size: ReplayFrame -> nat)
    requires RosterValid(mode, players) && EndKyoku !in initial && NoTerminals(initial)
    requires CallsFit(mode, cs) && CallsEndAtMostOne(cs) && CallsEndTheirHands(cs)
    ensures Inv(Start(mode, players, initial, timeControl, timing))
    ensures var h := Run(Start(mode, players, initial, timeControl, timing), cs).h;
      && CountStarts(h.journal) == CountEnds(h.journal) > 0
      && |h.journal| <= MAX_REPLAY_EVENTS && FramesOf(mode, h.journal, aux).Some? ==>
      var frames := FramesOf(mode, h.journal, aux).value;
      && Placed(frames, h.records) && |h.records| == |StartsOf(LogOf(frames))|
      && (Verdict(frames, h.records, size) == Ok(()) <==>
          && EncodedSize(JoinedFrames(frames, h.records), size) <= MAX_REPLAY_FRAME_BYTES
          && forall p :: 0 <= p < |h.records| ==> MoneyAgrees(frames, h.records, p))
  {
    hide Inv, Start, Alternating, InsideHands, CountStarts, CountEnds, FramesOf, StartsOf, Fold, MoneyAgrees;
    hide CallsEndAtMostOne, CallsEndTheirHands, CallsFit, RecordInPlace, RecordJoinsAt, HandTold, RecordValid, Settled;
    hide StartsBefore, EndsBefore;
    StartInv(mode, players, initial, timeControl, timing);
    StartIsTold(mode, players, initial, timeControl, timing);
    var w := Start(mode, players, initial, timeControl, timing);
    assert w.m.mode == mode by { StartHasMode(mode, players, initial, timeControl, timing); }
    RunKeepsTold(w, cs);
    RecordsLineUpWithTheJournal(mode, players, initial, timeControl, timing, cs);
    RunsRecordsFitItsReplay(mode, players, initial, timeControl, timing, cs, aux);
    var h := Run(w, cs).h;
    if CountStarts(h.journal) == CountEnds(h.journal) > 0
      && |h.journal| <= MAX_REPLAY_EVENTS && FramesOf(mode, h.journal, aux).Some?
    {
      BuiltFramesJoinIff(mode, h.journal, aux, h.records, Run(w, cs).m.mode);
    }
  }

  lemma StartHasMode(mode: GameMode, players: seq<Participant>, initial: seq<GameEvent>, timeControl: TimeControl,
                     timing: TimingConfig)
    ensures Start(mode, players, initial, timeControl, timing).m.mode == mode
  {
  }

  lemma BuiltFramesJoinIff(mode: GameMode, log: seq<GameEvent>, aux: seq<AuxiliaryRecord>,
                           records: seq<KyokuResultRecord>, recorded: GameMode)
    requires |log| <= MAX_REPLAY_EVENTS && FramesOf(mode, log, aux).Some?
    requires Placed(FramesOf(mode, log, aux).value, records)
    requires forall i :: 0 <= i < |records| ==>
      && RecordPoints(log, recorded, records[i], i) && HandTold(log, records[i], i)
      && RecordValid(records[i], RosterOf(records[i].settlement.changes))
    ensures var frames := FramesOf(mode, log, aux).value;
      && |records| <= |frames| && |records| == |StartsOf(LogOf(frames))|
      && forall p :: 0 <= p < |records| ==> (RecordJoinsAt(frames, records, p) <==> MoneyAgrees(frames, records, p))
  {
    hide FramesOf, StartsOf, Fold, Alternating, InsideHands, HandTold, RecordValid, MoneyAgrees, RecordJoinsAt;
    hide EndsBefore, StartsBefore, WinsPoint, CountStarts;
    var frames := FramesOf(mode, log, aux).value;
    FramesShowTheLog(mode, log, aux);
    assert LogOf(frames) == log;
    BuiltLogFolds(mode, log, aux);
    FoldedLogAlternates(mode, log);
    FewStarts(log);
    forall p | 0 <= p < |records|
      ensures RecordJoinsAt(frames, records, p) <==> MoneyAgrees(frames, records, p)
    {
      assert RecordPoints(log, recorded, records[p], p);
      StartsShowTheRound(mode, log, aux, StartsOf(log)[p]);
      ToldJoinsIff(frames, records, p);
    }
  }

  lemma {:induction false} FewStarts(log: seq<GameEvent>)
    ensures CountStarts(log) <= |log|
  {
    if log != [] { FewStarts(log[..|log| - 1]); }
  }
}
