// What a run's records say of the events that ended their hands, and that they stand on their own.

module RecordTerminals {
  import opened Wrappers
  import opened Domain
  import opened EventLog
  import opened Results
  import opened Engine
  import opened MatchSpec
  import opened MatchRuns
  import opened RecordAlignment
  import opened ReplayJoin

  // ----- What the recorder reads off a batch ----------------------------------------------------------

  /** The reason kept is that of the batch's last draw. */
  predicate DrawRead(reason: Option<string>, events: seq<GameEvent>) {
    match reason
    case None => forall k :: 0 <= k < |events| ==> !events[k].Ryukyoku?
    case Some(_) => exists k :: 0 <= k < |events| && LastDraw(reason, events, k)
  }

  predicate LastDraw(reason: Option<string>, events: seq<GameEvent>, k: nat)
    requires k < |events|
  {
    && events[k].Ryukyoku? && events[k].reason == reason
    && forall l :: k < l < |events| ==> !events[l].Ryukyoku?
  }

  lemma {:induction false} ScanReadsDraws(events: seq<GameEvent>, first: nat, ended: EngineKyokuEnd,
                                          roster: seq<Participant>)
    requires ScanEvents(events, first, ended, roster).Ok?
    ensures DrawRead(ScanEvents(events, first, ended, roster).value.drawReason, events)
  {
    if events != [] {
      var last := |events| - 1;
      ScanReadsDraws(events[..last], first, ended, roster);
      var before := ScanEvents(events[..last], first, ended, roster).value.drawReason;
      var after := ScanEvents(events, first, ended, roster).value.drawReason;
      if events[last].Ryukyoku? {
        assert LastDraw(after, events, last);
      } else if before.Some? {
        var k :| 0 <= k < last && LastDraw(before, events[..last], k);
        assert LastDraw(after, events, k);
      }
    }
  }

  lemma {:induction false} DrawHasDelta(events: seq<GameEvent>, k: nat)
    requires k < |events| && events[k].Ryukyoku?
    ensures |DrawDeltas(events)| >= 1
  {
    if k > 0 { DrawHasDelta(events[1..], k - 1); }
  }

  lemma {:induction false} TwoDrawsTwoDeltas(events: seq<GameEvent>, k: nat, l: nat)
    requires k < l < |events| && events[k].Ryukyoku? && events[l].Ryukyoku?
    ensures |DrawDeltas(events)| >= 2
  {
    if k == 0 { DrawHasDelta(events[1..], l - 1); } else { TwoDrawsTwoDeltas(events[1..], k - 1, l - 1); }
  }

  predicate OnlyTerminal(events: seq<GameEvent>, k: nat)
    requires k < |events|
  {
    IsTerminal(events[k]) && forall l :: 0 <= l < |events| && IsTerminal(events[l]) ==> l == k
  }

  /** The record agrees with every terminal event of its batch; one without wins is of a single draw. */
  predicate RecordTells(r: KyokuResultRecord, events: seq<GameEvent>, first: nat) {
    && (forall k :: 0 <= k < |events| && IsTerminal(events[k]) ==> TerminalMatches(events[k], first + k, r))
    && (r.wins == [] ==> exists k :: 0 <= k < |events| && OnlyTerminal(events, k))
  }

  lemma RecordOfTells(ended: EngineKyokuEnd, mode: GameMode, roster: seq<Participant>, sequence: nat, first: nat,
                      events: seq<GameEvent>)
    requires |ended.preAction.scores| == mode.SeatCount()
    requires RecordOf(ended, mode, roster, sequence, first, events).Ok?
    ensures RecordTells(RecordOf(ended, mode, roster, sequence, first, events).value, events, first)
    ensures RecordValid(RecordOf(ended, mode, roster, sequence, first, events).value, roster)
  {
    hide ScanEvents, ChangesOf, WinsFit, HandsFit, SettlementFits, AdjustmentsOf, DrawDeltas;
    hide WinsRead, EveryHoraRead, EndRead, DrawRead, RecordTells;
    ScanMeaning(events, first, ended, roster);
    ScanReadsDraws(events, first, ended, roster);
    var r := RecordOf(ended, mode, roster, sequence, first, events).value;
    assert r.wins == [] ==> |DrawDeltas(events)| == 1;
    ReadIsTold(r, events, first);
  }

  lemma ReadIsTold(r: KyokuResultRecord, events: seq<GameEvent>, first: nat)
    requires WinsRead(r.wins, events, first) && EveryHoraRead(r.wins, events, first)
    requires DrawRead(r.settlement.drawReason, events)
    requires r.wins == [] <==> r.settlement.drawReason.Some?
    requires r.wins == [] ==> |DrawDeltas(events)| == 1
    ensures RecordTells(r, events, first)
  {
    hide DrawDeltas, WinsRead, EveryHoraRead, TerminalMatches, LastDraw;
    if r.wins == [] {
      var k :| 0 <= k < |events| && LastDraw(r.settlement.drawReason, events, k);
      ReadDrawIsTold(r, events, first, k);
    } else {
      forall k | 0 <= k < |events| && IsTerminal(events[k])
        ensures TerminalMatches(events[k], first + k, r)
      {
        ReadWinIsTold(r, events, first, k);
      }
    }
  }

  lemma ReadDrawIsTold(r: KyokuResultRecord, events: seq<GameEvent>, first: nat, k: nat)
    requires EveryHoraRead(r.wins, events, first) && k < |events| && LastDraw(r.settlement.drawReason, events, k)
    requires r.wins == [] && |DrawDeltas(events)| == 1
    ensures OnlyTerminal(events, k) && TerminalMatches(events[k], first + k, r)
  {
    hide DrawDeltas;
    forall l | 0 <= l < |events| && IsTerminal(events[l])
      ensures l == k
    {
      if l < k && events[l].Ryukyoku? { TwoDrawsTwoDeltas(events, l, k); }
    }
  }

  lemma ReadWinIsTold(r: KyokuResultRecord, events: seq<GameEvent>, first: nat, k: nat)
    requires WinsRead(r.wins, events, first) && EveryHoraRead(r.wins, events, first)
    requires k < |events| && events[k].Hora?
    ensures TerminalMatches(events[k], first + k, r)
  {
    var i :| 0 <= i < |r.wins| && r.wins[i].eventIndex == first + k;
    assert WinReads(r.wins[i], events, first);
  }

  /** A record needs no roster but the one it brings along. */
  lemma ValidOnItsOwn(r: KyokuResultRecord, roster: seq<Participant>)
    requires RecordValid(r, roster)
    ensures RecordValid(r, RosterOf(r.settlement.changes))
  {
    hide HandsFit;
    var own := RosterOf(r.settlement.changes);
    forall i | 0 <= i < |roster|
      ensures own[i].id == roster[i].id && ChangeFits(r.settlement.changes[i], i, own[i])
    {
      assert ChangeFits(r.settlement.changes[i], i, roster[i]);
    }
    forall k | 0 <= k < |r.wins|
      ensures WinFits(r.wins[k], own, r.endEventIndex)
    {
      assert WinFits(r.wins[k], roster, r.endEventIndex);
    }
  }

  // ----- And in the whole journal ---------------------------------------------------------------------

  /** Position `k` holds a terminal event of the hand after `i` ended ones. */
  predicate TerminalOf(log: seq<GameEvent>, k: nat, i: nat) {
    k < |log| && IsTerminal(log[k]) && EndsBefore(log, k) == i
  }

  predicate OnlyTerminalOf(log: seq<GameEvent>, k: nat, i: nat) {
    TerminalOf(log, k, i) && forall l :: 0 <= l < |log| && TerminalOf(log, l, i) ==> l == k
  }

  predicate HandTold(log: seq<GameEvent>, r: KyokuResultRecord, i: nat) {
    && (forall k :: 0 <= k < |log| && TerminalOf(log, k, i) ==> TerminalMatches(log[k], k, r))
    && (r.wins == [] ==> exists k :: 0 <= k < |log| && OnlyTerminalOf(log, k, i))
  }

  /** No terminal event waits for the end of its hand. */
  predicate Settled(log: seq<GameEvent>) {
    forall k :: 0 <= k < |log| && IsTerminal(log[k]) ==> EndsBefore(log, k) < CountEnds(log)
  }

  predicate RecordsTold(w: World) {
    && |w.h.records| == CountEnds(w.h.journal) && Settled(w.h.journal)
    && forall i :: 0 <= i < |w.h.records| ==>
         HandTold(w.h.journal, w.h.records[i], i)
         && RecordValid(w.h.records[i], RosterOf(w.h.records[i].settlement.changes))
  }

  /** Events that end a hand come in the batch that ends it, before the end itself. */
  predicate EndsItsHand(events: seq<GameEvent>) {
    forall k :: 0 <= k < |events| && IsTerminal(events[k]) ==>
      FirstEnd(events).Some? && k < FirstEnd(events).value
  }

  predicate CallEndsItsHand(c: Call) {
    RecordingCall(c) && c.env.applied.Ok? ==> EndsItsHand(c.env.applied.value.events)
  }

  predicate CallsEndTheirHands(cs: seq<Call>) { forall i :: 0 <= i < |cs| ==> CallEndsItsHand(cs[i]) }

  lemma EndsAheadOf(log: seq<GameEvent>, more: seq<GameEvent>, k: nat)
    requires k < |log + more|
    ensures k < |log| ==> EndsBefore(log + more, k) == EndsBefore(log, k) && (log + more)[k] == log[k]
    ensures k >= |log| ==>
      EndsBefore(log + more, k) == CountEnds(log) + EndsBefore(more, k - |log|) && (log + more)[k] == more[k - |log|]
  {
    hide EndsBefore, StartsBefore, CountEnds, CountStarts;
    if k < |log| { CountsBeforeStay(log, more, k); } else { CountsBeforeJoin(log, more, k - |log|); }
  }

  /** What later batches add concerns later hands. */
  lemma ToldStays(log: seq<GameEvent>, more: seq<GameEvent>, r: KyokuResultRecord, i: nat)
    requires HandTold(log, r, i) && i < CountEnds(log)
    ensures HandTold(log + more, r, i)
  {
    hide EndsBefore, CountEnds, TerminalMatches;
    forall k | 0 <= k < |log + more|
      ensures TerminalOf(log + more, k, i) <==> k < |log| && TerminalOf(log, k, i)
      ensures TerminalOf(log + more, k, i) ==> (log + more)[k] == log[k]
    {
      EndsAheadOf(log, more, k);
    }
    if r.wins == [] {
      var k :| 0 <= k < |log| && OnlyTerminalOf(log, k, i);
      assert OnlyTerminalOf(log + more, k, i);
    }
  }

  lemma SettledGrows(log: seq<GameEvent>, events: seq<GameEvent>)
    requires Settled(log) && EndsItsHand(events)
    ensures Settled(log + events)
  {
    hide EndsBefore, StartsBefore, CountStarts, CountEnds;
    CountsAdd(log, events);
    forall k | 0 <= k < |log + events| && IsTerminal((log + events)[k])
      ensures EndsBefore(log + events, k) < CountEnds(log + events)
    {
      EndsAheadOf(log, events, k);
      if k >= |log| {
        NothingEndsBefore(events, k - |log|, FirstEnd(events).value);
        AnEndCounts(events, FirstEnd(events).value);
      }
    }
  }

  lemma AnEndCounts(events: seq<GameEvent>, e: nat)
    requires e < |events| && events[e].EndKyoku?
    ensures CountEnds(events) >= 1
  {
    CountsAfterOne(events, e);
    CountsGrow(events, e + 1, |events|);
    assert events[..|events|] == events;
  }

  /** A new record tells of the hand its batch ended. */
  lemma NewHandTold(log: seq<GameEvent>, events: seq<GameEvent>, r: KyokuResultRecord)
    requires Settled(log) && EndsItsHand(events) && RecordTells(r, events, |log|)
    ensures HandTold(log + events, r, CountEnds(log))
  {
    hide EndsBefore, CountEnds, TerminalMatches, FirstEnd;
    var all, i := log + events, CountEnds(log);
    forall k | 0 <= k < |all|
      ensures TerminalOf(all, k, i) <==> k >= |log| && IsTerminal(events[k - |log|])
      ensures k >= |log| ==> all[k] == events[k - |log|]
    {
      EndsAheadOf(log, events, k);
      if k >= |log| && IsTerminal(events[k - |log|]) {
        NothingEndsBefore(events, k - |log|, FirstEnd(events).value);
      }
    }
    forall k | 0 <= k < |all| && TerminalOf(all, k, i)
      ensures TerminalMatches(all[k], k, r)
    {
      var j := k - |log|;
      assert TerminalMatches(events[j], |log| + j, r);
    }
    if r.wins == [] {
      var j :| 0 <= j < |events| && OnlyTerminal(events, j);
      assert OnlyTerminalOf(all, |log| + j, i);
    }
  }

  lemma NewRecordTells(m: MatchState, h: History, o: EngineOutcome)
    requires SeatsFit(m) && OutcomeFits(m.mode, o) && o.ended.Some? && BuildHold(m, o).Ok?
    requires Partitioned(World(m, h))
    ensures var r := BuildHold(m, o).value.record;
      RecordTells(r, o.events, |h.journal|) && RecordValid(r, RosterOf(r.settlement.changes))
  {
    hide RecordOf, RecordTells, RecordValid, ResultValid, HandSequence, FinalResultOf;
    RecordOfTells(o.ended.value, m.mode, m.players, HandSequence(m, o), m.journalEventCount, o.events);
    ValidOnItsOwn(BuildHold(m, o).value.record, m.players);
  }

  lemma NewRecordIsTold(m: MatchState, h: History, o: EngineOutcome)
    requires SeatsFit(m) && OutcomeFits(m.mode, o) && o.ended.Some? && BuildHold(m, o).Ok?
    requires Partitioned(World(m, h)) && Settled(h.journal) && EndsItsHand(o.events) && AtMostOneEnd(o.events)
    ensures var r := BuildHold(m, o).value.record;
      HandTold(h.journal + o.events, r, CountEnds(h.journal)) && RecordValid(r, RosterOf(r.settlement.changes))
    ensures CountEnds(h.journal + o.events) == CountEnds(h.journal) + 1
  {
    hide BuildHold, RecordTells, RecordValid, EndsItsHand, Settled, Partitioned, HandTold, CountEnds, CountStarts;
    NewRecordTells(m, h, o);
    NewHandTold(h.journal, o.events, BuildHold(m, o).value.record);
    OneEndCounts(o.events, FirstEnd(o.events).value);
    CountsAdd(h.journal, o.events);
  }

  /** The run's notes after an outcome that was recorded. */
  lemma NotingKeepsTold(m: MatchState, h: History, o: EngineOutcome)
    requires SeatsFit(m) && OutcomeFits(m.mode, o) && Partitioned(World(m, h)) && RecordsTold(World(m, h))
    requires EndsItsHand(o.events) && AtMostOneEnd(o.events)
    ensures RecordsTold(World(m, NoteOutcome(h, m, Ok(o))))
  {
    hide Partitioned, BuildHold, HandTold, RecordValid, Settled, EndsItsHand, AtMostOneEnd, CountEnds;
    SettledGrows(h.journal, o.events);
    forall i | 0 <= i < |h.records|
      ensures HandTold(h.journal + o.events, h.records[i], i)
    {
      ToldStays(h.journal, o.events, h.records[i], i);
    }
    if o.ended.None? {
      NoEndCountsNone(o.events);
      CountsAdd(h.journal, o.events);
    } else if Recorded(m, o) {
      NewRecordIsTold(m, h, o);
    }
  }

  lemma StepKeepsTold(w: World, c: Call)
    requires Inv(w) && CallFits(w.m.mode, c) && CallEndsAtMostOne(c) && CallEndsItsHand(c) && RecordsTold(w)
    ensures RecordsTold(Step(w, c))
  {
    hide FinishActions, OpenWindow, HoldFollowed, EndsSettled, Prepare, BuildHold, HandTold, RecordValid, Settled;
    hide EndsItsHand, AtMostOneEnd, CountEnds;
    PrepareFits(w.m, c);
    var (m1, applied) := Prepare(w.m, c);
    if applied.Some? && applied.value.Ok? { NotingKeepsTold(m1, w.h, applied.value.value); }
  }

  /** Over every run each record agrees with the terminal events of its hand and validates by itself. */
  lemma {:induction false} RunKeepsTold(w: World, cs: seq<Call>)
    requires Inv(w) && CallsFit(w.m.mode, cs) && CallsEndAtMostOne(cs) && CallsEndTheirHands(cs) && RecordsTold(w)
    ensures RecordsTold(Run(w, cs))
    decreases |cs|
  {
    if cs != [] {
      hide Inv, Step, CallFits, CallEndsAtMostOne, CallEndsItsHand, RecordsTold;
      StepKeepsInv(w, cs[0]);
      StepKeepsTold(w, cs[0]);
      RunKeepsTold(Step(w, cs[0]), cs[1..]);
    }
  }

  predicate NoTerminals(events: seq<GameEvent>) { forall k :: 0 <= k < |events| ==> !IsTerminal(events[k]) }

  lemma StartIsTold(mode: GameMode, players: seq<Participant>, initial: seq<GameEvent>, timeControl: TimeControl,
                    timing: TimingConfig)
    requires RosterValid(mode, players) && EndKyoku !in initial && NoTerminals(initial)
    ensures RecordsTold(Start(mode, players, initial, timeControl, timing))
  {
    NoEndCountsNone(initial);
  }
}
