// Whole runs of the match machine: the recorded journal, its three views, and hand publication.

module MatchRuns {
  import opened Wrappers
  import opened Checked
  import opened Domain
  import opened DecisionSpec
  import opened Results
  import opened Projection
  import opened Engine
  import opened MatchSpec

  /** What an observer of the run has noted; the machine itself keeps none of it. */
  datatype History = History(
    initial: seq<GameEvent>,
    journal: seq<GameEvent>,
    drained: seq<GameEvent>,
    records: seq<KyokuResultRecord>,
    published: seq<nat>)

  datatype World = World(m: MatchState, h: History)

  datatype Call =
    | CallCurrentDecision(env: Env)
    | CallSubmit(env: Env, seat: Seat, decisionId: DecisionId, actionId: ActionId)
    | CallResolveExpired(env: Env)
    | CallApply(env: Env, seat: Seat, action: GameAction)
    | CallLegalActions(env: Env, seat: Seat)
    | CallProject(env: Env, table: Result<TableState, string>, audience: Audience)
    | CallPublishStep(step: nat)
    | CallRelease
    | CallTakePersistence
    | CallDisconnect(seat: Seat, now: nat)
    | CallReconnect(seat: Seat, now: nat)
    | CallSetPermanentAuto(seat: Seat)
    | CallSetTimeControl(timeControl: TimeControl)
    | CallSetTiming(timing: TimingConfig)

  predicate CallFits(mode: GameMode, c: Call) {
    (c.CallCurrentDecision? || c.CallSubmit? || c.CallResolveExpired? || c.CallApply? || c.CallLegalActions?
     || c.CallProject?) ==> EnvFits(mode, c.env)
  }

  /** The state in which a call reaches the engine's apply with its reply, or the final state. */
  function Prepare(m: MatchState, c: Call): (MatchState, Option<Result<EngineOutcome, string>>)
    requires Fits(m) && CallFits(m.mode, c)
  {
    match c
    case CallCurrentDecision(env) => (CurrentDecision(m, env).0, None)
    case CallSubmit(env, seat, decisionId, actionId) =>
      var (m1, r) := SubmitPhase(m, env, seat, decisionId, actionId);
      if r.Ok? && r.value.Resolved? then (m1.(decision := None), Some(env.applied)) else (m1, None)
    case CallResolveExpired(env) =>
      var (m1, r) := ExpirePhase(m, env);
      if r.Ok? && r.value.Some? then (m1.(decision := None), Some(env.applied)) else (m1, None)
    case CallApply(env, seat, action) =>
      if EnsureRunning(m).None? && SeatInMatch(m, seat) && env.legal[seat].Ok? && action in env.legal[seat].value
      then (m.(decision := None), Some(env.applied)) else (ApplyDirect(m, env, seat, action).0, None)
    case CallLegalActions(env, seat) => (LegalActions(m, env, seat).0, None)
    case CallProject(env, table, a) => (Project(m, env, table, a).0, None)
    case CallPublishStep(step) => (PublishStep(m, step).0, None)
    case CallRelease => (ReleaseKyoku(m).0, None)
    case CallTakePersistence => (m.(persistenceEvents := []), None)
    case CallDisconnect(seat, now) => (Disconnect(m, seat, now).0, None)
    case CallReconnect(seat, now) => (Reconnect(m, seat, now).0, None)
    case CallSetPermanentAuto(seat) => (SetPermanentAuto(m, seat).0, None)
    case CallSetTimeControl(timeControl) => (m.(timeControl := timeControl, decision := None), None)
    case CallSetTiming(timing) => (m.(timing := timing, decision := None), None)
  }

  /** The machine took the engine's events into its journal. */
  predicate Recorded(m: MatchState, o: EngineOutcome)
    requires SeatsFit(m) && OutcomeFits(m.mode, o)
  {
    o.ended.None? || BuildHold(m, o).Ok?
  }

  function NoteOutcome(h: History, m: MatchState, applied: Result<EngineOutcome, string>): History
    requires SeatsFit(m) && (applied.Ok? ==> OutcomeFits(m.mode, applied.value))
  {
    if applied.Err? || !Recorded(m, applied.value) then h
    else
      var o := applied.value;
      if o.ended.None? then h.(journal := h.journal + o.events)
      else h.(journal := h.journal + o.events, records := h.records + [BuildHold(m, o).value.record], published := [])
  }

  function NoteCall(h: History, m: MatchState, c: Call): History
    requires Fits(m)
  {
    match c
    case CallPublishStep(step) => if PublishStep(m, step).1.Ok? then h.(published := h.published + [step]) else h
    case CallRelease => if ReleaseKyoku(m).1.Ok? then h.(published := []) else h
    case CallTakePersistence => h.(drained := h.drained + m.persistenceEvents)
    case _ => h
  }

  function Step(w: World, c: Call): World
    requires Fits(w.m) && CallFits(w.m.mode, c)
  {
    var (m1, applied) := Prepare(w.m, c);
    PrepareFits(w.m, c);
    if applied.None? then World(m1, NoteCall(w.h, w.m, c))
    else World(FinishActions(m1, applied.value).0, NoteOutcome(w.h, m1, applied.value))
  }

  /** The machine's calls and the steps of a run change the state alike. */
  lemma StepIsTheCall(w: World, c: Call)
    requires Fits(w.m) && CallFits(w.m.mode, c)
    ensures c.CallSubmit? ==> Step(w, c).m == SubmitAction(w.m, c.env, c.seat, c.decisionId, c.actionId).0
    ensures c.CallResolveExpired? ==> Step(w, c).m == ResolveExpired(w.m, c.env).0
    ensures c.CallApply? ==> Step(w, c).m == ApplyDirect(w.m, c.env, c.seat, c.action).0
    ensures c.CallProject? ==> Step(w, c).m == Project(w.m, c.env, c.table, c.audience).0
    ensures c.CallLegalActions? ==> Step(w, c).m == LegalActions(w.m, c.env, c.seat).0
  {
    hide Project, LegalActions, SubmitPhase, ExpirePhase, FinishActions, OpenWindow;
    match c {
      case CallSubmit(env, seat, decisionId, actionId) =>
        SubmitPhaseFits(w.m, env, seat, decisionId, actionId);
        var (m1, r) := SubmitPhase(w.m, env, seat, decisionId, actionId);
        if r.Ok? && r.value.Resolved? {
          var m2 := m1.(decision := None);
          assert m2.(decision := None) == m2;
          assert Step(w, c).m == FinishActions(m2, env.applied).0;
        }
      case CallResolveExpired(env) =>
        ExpirePhaseFits(w.m, env);
        var (m1, r) := ExpirePhase(w.m, env);
        if r.Ok? && r.value.Some? {
          var m2 := m1.(decision := None);
          assert m2.(decision := None) == m2;
          assert Step(w, c).m == FinishActions(m2, env.applied).0;
        }
      case _ =>
    }
  }

  // ----- Shape ----------------------------------------------------------------------

  /** Nothing the journal, its views or the held hand depend on has changed. */
  predicate SameRecords(m: MatchState, m1: MatchState) {
    && m1.mode == m.mode && m1.players == m.players && m1.events == m.events && m1.held == m.held
    && m1.journalEventCount == m.journalEventCount && m1.persistenceEvents == m.persistenceEvents
    && m1.lastSettlementScores == m.lastSettlementScores
  }

  lemma OpeningKeepsRecords(m: MatchState, env: Env)
    requires Fits(m) && EnvFits(m.mode, env)
    ensures SameRecords(m, CurrentDecision(m, env).0)
    ensures m.held.Some? ==> CurrentDecision(m, env).0 == m
    ensures !m.status.Running? ==> CurrentDecision(m, env).0 == m
    ensures CurrentDecision(m, env).1.Ok? ==> CurrentDecision(m, env).0.status == m.status
  {
    hide OpenDecision, KindOf, Fits;
  }

  lemma SubmitPhaseKeepsRecords(m: MatchState, env: Env, seat: Seat, decisionId: DecisionId, actionId: ActionId)
    requires Fits(m) && EnvFits(m.mode, env)
    ensures var (m1, r) := SubmitPhase(m, env, seat, decisionId, actionId);
      && SameRecords(m, m1) && SeatsFit(m1)
      && (m.held.Some? || !m.status.Running? ==> m1 == m && r.Err?)
      && (r.Ok? && r.value.Resolved? ==> m1.status.Running?)
  {
    hide Sound, Submit, CurrentDecision, OpenWindow;
    OpeningKeepsRecords(m, env);
    SubmitPhaseFits(m, env, seat, decisionId, actionId);
    OpeningFits(m, env);
  }

  lemma ExpirePhaseKeepsRecords(m: MatchState, env: Env)
    requires Fits(m) && EnvFits(m.mode, env)
    ensures var (m1, r) := ExpirePhase(m, env);
      && SameRecords(m, m1) && SeatsFit(m1)
      && (m.held.Some? || !m.status.Running? ==> m1 == m && r.Err?)
      && (r.Ok? && r.value.Some? ==> m1.status.Running?)
  {
    hide Sound, ResolveAt, CurrentDecision, OpenWindow;
    OpeningKeepsRecords(m, env);
    ExpirePhaseFits(m, env);
    OpeningFits(m, env);
  }

  /** Projecting leaves the state as it was, or as opening the window left it, or aborts an unheld match. */
  lemma ProjectingIsOpening(m: MatchState, env: Env, table: Result<TableState, string>, a: Audience)
    requires Fits(m) && EnvFits(m.mode, env)
    ensures var m1 := Project(m, env, table, a).0;
      || m1 == m || m1 == CurrentDecision(m, env).0
      || (m.held.None? && table.Err?
          && (m1 == AbortForEngine(m, table.error) || m1 == AbortForEngine(CurrentDecision(m, env).0, table.error)))
  {
    hide CurrentDecision, ProjectTable, PublishedResults, OpenWindow;
    OpeningKeepsRecords(m, env);
  }

  predicate RecordingCall(c: Call) { c.CallSubmit? || c.CallResolveExpired? || c.CallApply? }

  predicate PublishingCall(c: Call) { c.CallPublishStep? || c.CallRelease? || c.CallTakePersistence? }

  lemma RetimeKeepsFit(m: MatchState, m1: MatchState, seat: Seat, now: nat, duration: Option<nat>, watchdog: bool)
    requires Fits(m) && m.decision.Some?
    requires m1.mode == m.mode && m1.decision == m.decision && SeatsFit(m1)
    ensures Fits(RetimeSeat(m1, seat, now, duration, watchdog))
  {
    hide Sound, Extends, RetimeFor;
    RetimeKeeps(m.decision.value, seat, now, duration, watchdog);
    WindowStaysOpen(m.decision.value, RetimeFor(m.decision.value, seat, now, duration, watchdog), m.mode.SeatCount());
  }

  lemma SeatCallFits(m: MatchState, c: Call)
    requires Fits(m) && (c.CallDisconnect? || c.CallReconnect?)
    ensures Fits(Prepare(m, c).0) && SameRecords(m, Prepare(m, c).0)
    ensures Prepare(m, c).0.status == m.status
  {
    hide Sound, RetimeFor, OpenWindow, DecisionTimingFor, EntryIndex;
    if c.seat < |m.presence| && m.decision.Some? {
      var m1 := m.(presence := m.presence[c.seat := if c.CallDisconnect? then Disconnected else Connected]);
      if c.CallDisconnect? {
        RetimeKeepsFit(m, m1, c.seat, c.now, Some(m.timing.watchdog), true);
      } else {
        var m2 := if m.controllers[c.seat].TemporaryAuto? then m1.(controllers := m.controllers[c.seat := Interactive])
                  else m1;
        var (duration, watchdog) := DecisionTimingFor(m2, m.decision.value.kind, c.seat);
        RetimeKeepsFit(m, m2, c.seat, c.now, duration, watchdog);
      }
    }
  }

  lemma PrepareFits(m: MatchState, c: Call)
    requires Fits(m) && CallFits(m.mode, c)
    ensures var (m1, applied) := Prepare(m, c);
      && Fits(m1) && m1.mode == m.mode
      && (applied.Some? ==>
            && RecordingCall(c) && applied.value == c.env.applied
            && m1.decision.None? && m1.status.Running? && m1.held.None? && m.held.None?)
      && (!PublishingCall(c) ==> SameRecords(m, m1))
  {
    hide OpenWindow, SubmitPhase, ExpirePhase, Project, CurrentDecision, Disconnect, Reconnect, FinishActions;
    hide OutcomeFits;
    match c {
      case CallCurrentDecision(env) => OpeningFits(m, env); OpeningKeepsRecords(m, env);
      case CallProject(env, table, a) =>
        OpeningFits(m, env);
        OpeningKeepsRecords(m, env);
        ProjectingIsOpening(m, env, table, a);
      case CallSubmit(env, seat, decisionId, actionId) =>
        SubmitPhaseFits(m, env, seat, decisionId, actionId);
        SubmitPhaseKeepsRecords(m, env, seat, decisionId, actionId);
      case CallResolveExpired(env) =>
        ExpirePhaseFits(m, env);
        ExpirePhaseKeepsRecords(m, env);
      case CallDisconnect(_, _) => SeatCallFits(m, c);
      case CallReconnect(_, _) => SeatCallFits(m, c);
      case _ =>
    }
  }

  // ----- Invariants of a run -----------------------------------------------------------

  /** Recorded events that the public log does not show yet. */
  function HeldBack(m: MatchState): seq<GameEvent> {
    if m.held.None? then [] else m.held.value.terminalEvents + m.held.value.futureEvents
  }

  /**
   * Three views of one journal: public events and held-back events in order; its length; and
   * the initial deal, what persistence has drained and what still waits there.
   */
  predicate Partitioned(w: World) {
    && w.m.events + HeldBack(w.m) == w.h.journal
    && w.m.journalEventCount == |w.h.journal|
    && w.h.initial + w.h.drained + w.m.persistenceEvents == w.h.journal
  }

  function Upto(n: nat): (r: seq<nat>)
    ensures |r| == n && forall i :: 0 <= i < n ==> r[i] == i
  {
    seq(n, i requires 0 <= i < n => i)
  }

  predicate SettlementShown(hold: HeldKyoku) { hold.nextStep > |hold.record.wins| }

  /** The frozen table carries the scores and pot of the stage published so far. */
  predicate TableShows(t: TableState, scores: seq<I32>, pot: U32) {
    && |t.players| == |scores| && t.kyotaku == Some(pot)
    && forall i :: 0 <= i < |scores| ==> t.players[i].score == scores[i]
  }

  predicate HoldFits(hold: HeldKyoku) {
    var settlement := hold.record.settlement;
    && hold.nextStep <= |hold.record.wins| + 1
    && (hold.terminalEvents == [] <==> SettlementShown(hold))
    && (hold.terminalEvents != [] ==> IsTerminal(hold.terminalEvents[0]))
    && EndKyoku !in hold.terminalEvents
    && hold.futureEvents != [] && hold.futureEvents[0] == EndKyoku
    && TableShows(hold.table,
         if SettlementShown(hold) then Afters(settlement) else Befores(settlement),
         if SettlementShown(hold) then settlement.potAfter else settlement.potBefore)
    && (hold.finalResult.Some? ==>
          ResultValid(hold.finalResult.value) && hold.finalResult.value.finalScores == Afters(settlement))
  }

  /** While a hand is held nothing is open, and its steps went out in order, none skipped or repeated. */
  predicate HoldFollowed(w: World) {
    w.m.held.Some? ==>
      var hold := w.m.held.value;
      && HoldFits(hold) && w.m.decision.None? && w.m.status.Running?
      && w.h.records != [] && w.h.records[|w.h.records| - 1] == hold.record
      && w.h.published == Upto(hold.nextStep)
      && w.m.lastSettlementScores == Some(Afters(hold.record.settlement))
  }

  /** A completed match has a valid result, on the scores of its last settlement if any hand was settled. */
  predicate EndsSettled(m: MatchState) {
    m.status.Completed? ==>
      && ResultValid(m.status.result)
      && (m.lastSettlementScores.Some? ==> m.status.result.finalScores == m.lastSettlementScores.value)
  }

  predicate Inv(w: World) { Fits(w.m) && Partitioned(w) && HoldFollowed(w) && EndsSettled(w.m) }

  // ----- Recording keeps them ------------------------------------------------------------

  lemma WithSettlementShows(t: TableState, scores: seq<I32>, pot: U32)
    requires |t.players| == |scores|
    ensures TableShows(WithSettlementState(t, scores, pot), scores, pot)
  {
  }

  /** How a hold cuts the batch it was built from. */
  predicate Cuts(hold: HeldKyoku, o: EngineOutcome) {
    var t, e := FirstTerminal(o.events), FirstEnd(o.events);
    && t.Some? && e.Some? && t.value < e.value
    && hold.terminalEvents == o.events[t.value..e.value] && hold.futureEvents == o.events[e.value..]
  }

  lemma BuiltHoldCuts(m: MatchState, o: EngineOutcome)
    requires SeatsFit(m) && OutcomeFits(m.mode, o) && o.ended.Some? && BuildHold(m, o).Ok?
    ensures var hold := BuildHold(m, o).value; var settlement := hold.record.settlement;
      && Cuts(hold, o) && hold.nextStep == 0
      && o.endedTable.Ok?
      && hold.table == WithSettlementState(o.endedTable.value, Befores(settlement), settlement.potBefore)
      && (hold.finalResult.Some? ==>
            ResultValid(hold.finalResult.value) && hold.finalResult.value.finalScores == Afters(settlement))
  {
    hide RecordOf, RecordValid, ResultValid, BuiltResult, WithSettlementState;
  }

  lemma CutKeepsAll(hold: HeldKyoku, o: EngineOutcome)
    requires Cuts(hold, o)
    ensures var t := FirstTerminal(o.events).GetOr(0);
      && t <= |o.events| && o.events[..t] + (hold.terminalEvents + hold.futureEvents) == o.events
      && hold.terminalEvents != [] && IsTerminal(hold.terminalEvents[0])
      && EndKyoku !in hold.terminalEvents && hold.futureEvents != [] && hold.futureEvents[0] == EndKyoku
  {
  }

  /** A freshly built hold is one nobody has published from. */
  lemma BuiltHoldFits(m: MatchState, o: EngineOutcome)
    requires SeatsFit(m) && OutcomeFits(m.mode, o) && o.ended.Some? && BuildHold(m, o).Ok?
    ensures var hold := BuildHold(m, o).value; var t := FirstTerminal(o.events).GetOr(0);
      && HoldFits(hold) && hold.nextStep == 0
      && t <= |o.events| && o.events[..t] + (hold.terminalEvents + hold.futureEvents) == o.events
  {
    hide BuildHold, Cuts, TableShows, WithSettlementState, ResultValid;
    var hold := BuildHold(m, o).value;
    BuiltHoldCuts(m, o);
    CutKeepsAll(hold, o);
    RecordHasSeatCount(m, o);
    WithSettlementShows(o.endedTable.value, Befores(hold.record.settlement), hold.record.settlement.potBefore);
  }

  lemma RecordHasSeatCount(m: MatchState, o: EngineOutcome)
    requires SeatsFit(m) && OutcomeFits(m.mode, o) && o.ended.Some? && BuildHold(m, o).Ok?
    ensures |BuildHold(m, o).value.record.settlement.changes| == m.mode.SeatCount()
    ensures RecordValid(BuildHold(m, o).value.record, m.players)
  {
    hide ScanEvents, DrawEvidence, ResultValid;
  }

  lemma Joined<T>(a: seq<T>, b: seq<T>, c: seq<T>)
    ensures (a + b) + c == a + (b + c)
  {
  }

  lemma HoldingKeepsJournal(m: MatchState, h: History, o: EngineOutcome, hold: HeldKyoku, h1: History)
    requires Partitioned(World(m, h)) && m.held.None?
    requires h1.initial == h.initial && h1.drained == h.drained && h1.journal == h.journal + o.events
    requires var t := FirstTerminal(o.events).GetOr(0);
      t <= |o.events| && o.events[..t] + (hold.terminalEvents + hold.futureEvents) == o.events
    ensures Partitioned(World(HoldKyoku(m, o, hold), h1))
  {
    var t := FirstTerminal(o.events).GetOr(0);
    Joined(m.events, o.events[..t], hold.terminalEvents + hold.futureEvents);
    Joined(h.initial + h.drained, m.persistenceEvents, o.events);
    assert m.events + [] == m.events;
  }

  lemma HoldingFollows(m: MatchState, o: EngineOutcome, hold: HeldKyoku, h1: History)
    requires HoldFits(hold) && hold.nextStep == 0 && m.status.Running?
    requires h1.records != [] && h1.records[|h1.records| - 1] == hold.record && h1.published == []
    ensures HoldFollowed(World(HoldKyoku(m, o, hold), h1))
  {
    hide HoldFits;
  }

  lemma HoldingKeeps(m: MatchState, h: History, o: EngineOutcome)
    requires SeatsFit(m) && OutcomeFits(m.mode, o) && o.ended.Some? && BuildHold(m, o).Ok?
    requires m.held.None? && m.status.Running? && Partitioned(World(m, h))
    ensures Inv(World(HoldKyoku(m, o, BuildHold(m, o).value), NoteOutcome(h, m, Ok(o))))
  {
    hide BuildHold, HoldFits, OutcomeFits, Partitioned, HoldFollowed;
    var hold := BuildHold(m, o).value;
    BuiltHoldFits(m, o);
    var h1 := NoteOutcome(h, m, Ok(o));
    HoldingKeepsJournal(m, h, o, hold, h1);
    HoldingFollows(m, o, hold, h1);
  }

  lemma PublishingAllKeeps(m: MatchState, h: History, o: EngineOutcome)
    requires SeatsFit(m) && OutcomeFits(m.mode, o) && o.ended.None?
    requires m.decision.None? && m.held.None? && m.status.Running? && Partitioned(World(m, h))
    ensures Inv(World(RecordEvents(m, o).0, NoteOutcome(h, m, Ok(o))))
  {
    hide ResultValid, BuiltResult, BuildHold;
  }

  lemma FinishingKeeps(m: MatchState, h: History, applied: Result<EngineOutcome, string>)
    requires SeatsFit(m) && (applied.Ok? ==> OutcomeFits(m.mode, applied.value))
    requires m.decision.None? && m.held.None? && m.status.Running? && Partitioned(World(m, h))
    ensures Inv(World(FinishActions(m, applied).0, NoteOutcome(h, m, applied)))
  {
    if applied.Ok? {
      var o := applied.value;
      if o.ended.None? {
        PublishingAllKeeps(m, h, o);
      } else if BuildHold(m, o).Ok? {
        HoldingKeeps(m, h, o);
      }
    }
    hide Inv, OutcomeFits, BuildHold, RecordEvents, HoldKyoku;
    assert applied.Err? || !Recorded(m, applied.value) ==>
      Inv(World(AbortForEngine(m, "" ), h)) by { AbortKeeps(m, h, ""); }
    if applied.Err? {
      AbortKeeps(m, h, applied.error);
    } else if applied.value.ended.Some? && BuildHold(m, applied.value).Err? {
      AbortKeeps(m, h, BuildHold(m, applied.value).error);
    }
  }

  lemma AbortKeeps(m: MatchState, h: History, reason: string)
    requires SeatsFit(m) && m.decision.None? && m.held.None? && Partitioned(World(m, h))
    ensures Inv(World(AbortForEngine(m, reason), h))
  {
  }

  // ----- Publishing keeps them -------------------------------------------------------------

  lemma PublishKeeps(w: World, step: nat)
    requires Inv(w)
    ensures Inv(Step(w, CallPublishStep(step)))
  {
    hide OpenWindow, Sound;
    var w1 := Step(w, CallPublishStep(step));
    if PublishStep(w.m, step).1.Ok? {
      var hold := w.m.held.value;
      assert Upto(step + 1) == Upto(step) + [step];
      if step == |hold.record.wins| {
        var settlement := hold.record.settlement;
        WithSettlementShows(hold.table, Afters(settlement), settlement.potAfter);
        assert w1.m.events + HeldBack(w1.m) == w.m.events + HeldBack(w.m);
      }
    }
  }

  lemma ReleaseKeeps(w: World)
    requires Inv(w)
    ensures Inv(Step(w, CallRelease))
  {
    hide OpenWindow, TableShows;
    if ReleaseKyoku(w.m).1.Ok? {
      assert w.m.events + HeldBack(w.m) == w.m.events + w.m.held.value.futureEvents;
    }
  }

  lemma DrainKeeps(w: World)
    requires Inv(w)
    ensures Inv(Step(w, CallTakePersistence))
  {
    hide OpenWindow, HoldFits;
    assert w.h.initial + (w.h.drained + w.m.persistenceEvents) + [] == w.h.journal;
  }

  /** Calls that only touch seats, clocks and the window keep every invariant too. */
  lemma QuietCallKeeps(w: World, c: Call)
    requires Inv(w) && CallFits(w.m.mode, c) && !PublishingCall(c) && Prepare(w.m, c).1.None?
    ensures Inv(Step(w, c))
  {
    PrepareFits(w.m, c);
    QuietCallKeepsStatus(w.m, c);
    hide Prepare, OpenWindow, HoldFits, Fits;
  }

  lemma QuietCallKeepsStatus(m: MatchState, c: Call)
    requires Fits(m) && CallFits(m.mode, c) && !PublishingCall(c) && Prepare(m, c).1.None?
    ensures var m1 := Prepare(m, c).0;
      && (m1.status == m.status || (m1.status.Aborted? && m.held.None?))
      && (m.held.Some? && m.decision.None? ==> m1.decision.None?)
  {
    hide OpenWindow, CurrentDecision, Submit, ResolveAt, Project, RetimeFor, DecisionTimingFor, FinishActions;
    hide OutcomeFits;
    match c {
      case CallCurrentDecision(env) => OpeningKeepsRecords(m, env); OpeningStatus(m, env);
      case CallProject(env, table, a) =>
        OpeningKeepsRecords(m, env);
        OpeningStatus(m, env);
        ProjectingIsOpening(m, env, table, a);
      case CallSubmit(env, seat, decisionId, actionId) =>
        SubmitPhaseKeepsRecords(m, env, seat, decisionId, actionId);
        OpeningStatus(m, env);
        OpeningFits(m, env);
      case CallResolveExpired(env) =>
        ExpirePhaseKeepsRecords(m, env);
        OpeningStatus(m, env);
        OpeningFits(m, env);
      case CallDisconnect(seat, now) => SeatCallFits(m, c);
      case CallReconnect(seat, now) => SeatCallFits(m, c);
      case _ =>
    }
  }

  lemma OpeningStatus(m: MatchState, env: Env)
    requires Fits(m) && EnvFits(m.mode, env)
    ensures var m1 := CurrentDecision(m, env).0;
      m1.status == m.status || (m1.status.Aborted? && m.held.None?)
  {
    hide OpenDecision, KindOf, Fits;
  }

  // ----- Whole runs -------------------------------------------------------------------------

  /** Each step of a run keeps the journal partitioned, the held hand in order, and the end settled. */
  lemma StepKeepsInv(w: World, c: Call)
    requires Inv(w) && CallFits(w.m.mode, c)
    ensures Inv(Step(w, c)) && Step(w, c).m.mode == w.m.mode
    ensures Step(w, c).h.initial == w.h.initial
  {
    StepKeepsMode(w, c);
    if c.CallPublishStep? {
      PublishKeeps(w, c.step);
    } else if c.CallRelease? {
      ReleaseKeeps(w);
    } else if c.CallTakePersistence? {
      DrainKeeps(w);
    } else if Prepare(w.m, c).1.None? {
      QuietCallKeeps(w, c);
    } else {
      PrepareFits(w.m, c);
      var (m1, applied) := Prepare(w.m, c);
      hide Prepare, FinishActions, OpenWindow, HoldFits, EndsSettled;
      FinishingKeeps(m1, w.h, applied.value);
    }
  }

  lemma FinishKeepsMode(m: MatchState, h: History, applied: Result<EngineOutcome, string>)
    requires SeatsFit(m) && (applied.Ok? ==> OutcomeFits(m.mode, applied.value))
    ensures var m1 := FinishActions(m, applied).0; m1.mode == m.mode && m1.players == m.players
    ensures NoteOutcome(h, m, applied).initial == h.initial
  {
    hide BuildHold, ResultValid, OutcomeFits;
  }

  lemma StepKeepsMode(w: World, c: Call)
    requires Inv(w) && CallFits(w.m.mode, c)
    ensures Step(w, c).m.mode == w.m.mode && Step(w, c).h.initial == w.h.initial
    ensures Step(w, c).m.players == w.m.players
  {
    hide FinishActions, NoteOutcome, OpenWindow, HoldFollowed, Partitioned, SubmitPhase, ExpirePhase,
      CurrentDecision, ApplyDirect, Disconnect, Reconnect;
    PrepareFits(w.m, c);
    var (m1, applied) := Prepare(w.m, c);
    if applied.Some? { FinishKeepsMode(m1, w.h, applied.value); }
    hide FinishActions, NoteOutcome, OpenWindow, HoldFollowed, Partitioned;
    if !PublishingCall(c) { hide Prepare; }
  }

  /** A machine just after its constructor ran, whatever its clocks. */
  function Start(mode: GameMode, players: seq<Participant>, initial: seq<GameEvent>, timeControl: TimeControl,
                 timing: TimingConfig): World
  {
    World(
      MatchState(mode, players, Running, initial, None, None, |initial|, [], timeControl, timing,
        seq(mode.SeatCount(), i => Connected),
        seq(|players|, i requires 0 <= i < |players| =>
          if players[i].kind.BuiltInBot? then PermanentAuto else Interactive),
        1, 1, None),
      History(initial, initial, [], [], []))
  }

  predicate CallsFit(mode: GameMode, cs: seq<Call>) { forall i :: 0 <= i < |cs| ==> CallFits(mode, cs[i]) }

  ghost function Run(w: World, cs: seq<Call>): World
    requires Inv(w) && CallsFit(w.m.mode, cs)
    decreases |cs|
  {
    if cs == [] then w
    else
      StepKeepsInv(w, cs[0]);
      Run(Step(w, cs[0]), cs[1..])
  }

  lemma StartInv(mode: GameMode, players: seq<Participant>, initial: seq<GameEvent>, timeControl: TimeControl,
                 timing: TimingConfig)
    requires RosterValid(mode, players)
    ensures Inv(Start(mode, players, initial, timeControl, timing))
  {
  }

  /**
   * In every reachable state the public log followed by the held-back events is the whole
   * journal, the counter is its length, and the initial deal, the drained and the pending
   * persistence events are that journal again.
   */
  lemma {:induction false} RunKeepsInv(w: World, cs: seq<Call>)
    requires Inv(w) && CallsFit(w.m.mode, cs)
    ensures Inv(Run(w, cs)) && Run(w, cs).m.mode == w.m.mode && Run(w, cs).h.initial == w.h.initial
    decreases |cs|
  {
    if cs != [] {
      StepKeepsInv(w, cs[0]);
      hide Inv, Step, CallFits;
      RunKeepsInv(Step(w, cs[0]), cs[1..]);
    }
  }
}
