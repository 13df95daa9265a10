// The match machine on values: what each call does to the whole state.
// The rules engine answers from outside; its replies arrive in `Env`.

module MatchSpec {
  import opened Wrappers
  import opened Sequences
  import opened Checked
  import opened Domain
  import opened EventLog
  import opened DecisionSpec
  import opened DecisionProofs
  import opened Results
  import opened Projection
  import opened Engine
  import Decimal

  datatype TimeControl = RiichiDev | Casual | Unlimited
  datatype Presence = Connected | Disconnected
  datatype ControllerState = Interactive | TemporaryAuto | PermanentAuto

  /** Durations in milliseconds. */
  datatype TimingConfig = TimingConfig(turn: nat, response: nat, watchdog: nat)

  const CASUAL_TIMING := TimingConfig(30_000, 10_000, 300_000)

  datatype MatchStatus = Running | Completed(result: MatchResult) | Aborted(reason: string)

  datatype MatchError =
    | InvalidSeat(seat: Seat)
    | IllegalAction(seat: Seat)
    | NoDecision
    | ResultsPending
    | DecisionFailed(error: DecisionError)
    | Finished
    | MatchAborted(reason: string)

  datatype DecisionResult =
    | Waiting(decisionId: DecisionId)
    | ResolvedWith(decisionId: DecisionId, actions: seq<ResolvedAction>, events: seq<GameEvent>)

  datatype HeldKyoku = HeldKyoku(
    table: TableState,
    record: KyokuResultRecord,
    nextStep: nat,
    terminalEvents: seq<GameEvent>,
    futureEvents: seq<GameEvent>,
    finalResult: Option<MatchResult>)

  datatype MatchState = MatchState(
    mode: GameMode,
    players: seq<Participant>,
    status: MatchStatus,
    events: seq<GameEvent>,
    lastSettlementScores: Option<seq<I32>>,
    held: Option<HeldKyoku>,
    journalEventCount: nat,
    persistenceEvents: seq<GameEvent>,
    timeControl: TimeControl,
    timing: TimingConfig,
    presence: seq<Presence>,
    controllers: seq<ControllerState>,
    nextDecisionId: nat,
    nextActionId: nat,
    decision: Option<DecisionState>)

  /** What applying actions to the engine yields: its events, and its state afterwards. */
  datatype EngineOutcome = EngineOutcome(
    events: seq<GameEvent>,
    ended: Option<EngineKyokuEnd>,
    endedTable: Result<TableState, string>,
    done: bool,
    scores: seq<I32>)

  /** The engine's replies and the clock readings one call may use. */
  datatype Env = Env(
    openedAt: nat,
    now: nat,
    legal: seq<Result<seq<GameAction>, string>>,
    applied: Result<EngineOutcome, string>)

  /** One reply and one score per seat; a hand end is captured exactly when the log ends a hand. */
  predicate OutcomeFits(mode: GameMode, o: EngineOutcome) {
    && |o.scores| == mode.SeatCount()
    && (o.ended.Some? <==> EndKyoku in o.events)
    && (o.ended.Some? ==> |o.ended.value.preAction.scores| == mode.SeatCount())
    && (o.endedTable.Ok? ==> |o.endedTable.value.players| == mode.SeatCount())
  }

  predicate EnvFits(mode: GameMode, env: Env) {
    && |env.legal| == mode.SeatCount()
    && (env.applied.Ok? ==> OutcomeFits(mode, env.applied.value))
  }

  // ----- Small helpers -----------------------------------------------------------

  function DecisionName(n: nat): DecisionId { "d" + Decimal.Text(n) }

  function ActionName(n: nat): ActionId { "a" + Decimal.Text(n) }

  function FirstTerminal(events: seq<GameEvent>): (r: Option<nat>)
    ensures r.Some? ==> r.value < |events| && IsTerminal(events[r.value])
    ensures r.Some? ==> forall j :: 0 <= j < r.value ==> !IsTerminal(events[j])
    ensures r.None? ==> forall j :: 0 <= j < |events| ==> !IsTerminal(events[j])
  {
    First(events, (e: GameEvent) => IsTerminal(e))
  }

  function FirstEnd(events: seq<GameEvent>): (r: Option<nat>)
    ensures r.Some? ==> r.value < |events| && events[r.value].EndKyoku?
    ensures r.Some? ==> forall j :: 0 <= j < r.value ==> !events[j].EndKyoku?
    ensures r.None? ==> forall j :: 0 <= j < |events| ==> !events[j].EndKyoku?
  {
    First(events, (e: GameEvent) => e.EndKyoku?)
  }

  function EnsureRunning(m: MatchState): Option<MatchError> {
    if m.held.Some? then Some(ResultsPending)
    else match m.status
      case Running => None
      case Aborted(reason) => Some(MatchAborted(reason))
      case Completed(_) => Some(Finished)
  }

  predicate SeatInMatch(m: MatchState, seat: Seat) { seat < m.mode.SeatCount() }

  function AbortForEngine(m: MatchState, reason: string): MatchState {
    m.(held := None, status := Aborted(reason))
  }

  predicate SeatsFit(m: MatchState) {
    && |m.players| == m.mode.SeatCount()
    && |m.presence| == |m.players| && |m.controllers| == |m.players|
  }

  /** A window that is sound, still open, and asks each of the first `n` seats at most once. */
  predicate OpenWindow(d: DecisionState, n: nat) {
    && Sound(d) && !d.closed && d.entries != [] && DistinctSeats(d.entries)
    && forall i :: 0 <= i < |d.entries| ==> d.entries[i].seat < n
  }

  predicate WindowFits(m: MatchState) {
    m.decision.Some? ==> OpenWindow(m.decision.value, m.mode.SeatCount())
  }

  predicate Fits(m: MatchState) { SeatsFit(m) && WindowFits(m) }

  // ----- Recording engine outcomes ---------------------------------------------

  /** Hands started in a batch before its first `EndKyoku`, or in all of it. */
  function StartsUntilEnd(events: seq<GameEvent>): nat {
    match FirstEnd(events)
    case None => StartsBefore(events, |events|)
    case Some(e) => StartsBefore(events, e)
  }

  function HandSequence(m: MatchState, o: EngineOutcome): nat {
    CountStarts(m.events) + StartsUntilEnd(o.events)
  }

  function FinalResultOf(m: MatchState, o: EngineOutcome, after: seq<I32>): Result<Option<MatchResult>, string>
    requires SeatsFit(m) && |o.scores| == m.mode.SeatCount()
  {
    if !o.done then Ok(None)
    else
      var result := BuiltResult(m.mode, m.players, o.scores);
      if !ResultValid(result) then Err("invalid final result")
      else if after != result.finalScores then Err("final scores differ from settlement")
      else Ok(Some(result))
  }

  /** Everything a held hand needs, or the reason the match must abort. */
  function BuildHold(m: MatchState, o: EngineOutcome): Result<HeldKyoku, string>
    requires SeatsFit(m) && OutcomeFits(m.mode, o) && o.ended.Some?
  {
    match RecordOf(o.ended.value, m.mode, m.players, HandSequence(m, o), m.journalEventCount, o.events)
    case Err(e) => Err(e)
    case Ok(record) =>
      match o.endedTable
      case Err(e) => Err(e)
      case Ok(table) =>
        var shown := WithSettlementState(table, Befores(record.settlement), record.settlement.potBefore);
        match FinalResultOf(m, o, Afters(record.settlement))
        case Err(e) => Err(e)
        case Ok(final) =>
          match FirstTerminal(o.events)
          case None => Err("ended kyoku without terminal event")
          case Some(terminal) =>
            var end := FirstEnd(o.events);
            if end.None? then Err("ended kyoku without EndKyoku")
            else if terminal >= end.value then Err("terminal follows EndKyoku")
            else Ok(HeldKyoku(shown, record, 0, o.events[terminal..end.value], o.events[end.value..], final))
  }

  /** The journal grows by the whole batch; only what precedes the first terminal becomes public. */
  function HoldKyoku(m: MatchState, o: EngineOutcome, hold: HeldKyoku): MatchState {
    m.(lastSettlementScores := Some(Afters(hold.record.settlement)),
       journalEventCount := m.journalEventCount + |o.events|,
       persistenceEvents := m.persistenceEvents + o.events,
       events := m.events + o.events[..FirstTerminal(o.events).GetOr(0)],
       decision := None,
       held := Some(hold))
  }

  function PublishAll(m: MatchState, events: seq<GameEvent>): MatchState {
    m.(journalEventCount := m.journalEventCount + |events|,
       persistenceEvents := m.persistenceEvents + events,
       events := m.events + events)
  }

  function RecordEvents(m: MatchState, o: EngineOutcome): (MatchState, Result<seq<GameEvent>, MatchError>)
    requires SeatsFit(m) && |o.scores| == m.mode.SeatCount()
  {
    var m1 := PublishAll(m, o.events);
    if !o.done then (m1, Ok(o.events))
    else
      var result := BuiltResult(m.mode, m.players, o.scores);
      if !ResultValid(result) then
        (AbortForEngine(m1, "invalid final result"), Err(MatchAborted("invalid final result")))
      else if m.lastSettlementScores.Some? && m.lastSettlementScores.value != result.finalScores then
        (AbortForEngine(m1, "final scores differ from settlement"),
         Err(MatchAborted("final scores differ from settlement")))
      else (m1.(status := Completed(result)), Ok(o.events))
  }

  function RecordOutcome(m: MatchState, o: EngineOutcome): (MatchState, Result<seq<GameEvent>, MatchError>)
    requires SeatsFit(m) && OutcomeFits(m.mode, o)
  {
    if o.ended.None? then RecordEvents(m, o)
    else match BuildHold(m, o)
      case Err(e) => (AbortForEngine(m, e), Err(MatchAborted(e)))
      case Ok(hold) => (HoldKyoku(m, o, hold), Ok(o.events[..FirstTerminal(o.events).GetOr(0)]))
  }

  /** Applies the engine's reply to an action batch. */
  function FinishActions(m: MatchState, applied: Result<EngineOutcome, string>)
    : (MatchState, Result<seq<GameEvent>, MatchError>)
    requires SeatsFit(m) && (applied.Ok? ==> OutcomeFits(m.mode, applied.value))
  {
    match applied
    case Err(e) => (AbortForEngine(m, e), Err(MatchAborted(e)))
    case Ok(o) => RecordOutcome(m, o)
  }

  // ----- Publication ---------------------------------------------------------------

  function PublishStep(m: MatchState, step: nat): (MatchState, Result<seq<GameEvent>, MatchError>) {
    if m.held.None? then (m, Err(NoDecision))
    else
      var hold := m.held.value;
      if step != hold.nextStep || step > |hold.record.wins| then (m, Err(ResultsPending))
      else if step == |hold.record.wins| then
        var settlement := hold.record.settlement;
        var table := WithSettlementState(hold.table, Afters(settlement), settlement.potAfter);
        (m.(held := Some(hold.(nextStep := step + 1, table := table, terminalEvents := [])),
            events := m.events + hold.terminalEvents),
         Ok(hold.terminalEvents))
      else (m.(held := Some(hold.(nextStep := step + 1))), Ok([]))
  }

  function ReleaseKyoku(m: MatchState): (MatchState, Result<seq<GameEvent>, MatchError>) {
    if m.held.None? || m.held.value.nextStep <= |m.held.value.record.wins| then (m, Err(ResultsPending))
    else
      var hold := m.held.value;
      (m.(held := None,
          events := m.events + hold.futureEvents,
          status := if hold.finalResult.Some? then Completed(hold.finalResult.value) else m.status),
       Ok(hold.futureEvents))
  }

  function PublishedResults(m: MatchState): Option<PublishedKyokuResults> {
    if m.held.None? || m.held.value.nextStep == 0 then None
    else
      var hold := m.held.value;
      var shown := if hold.nextStep < |hold.record.wins| then hold.nextStep else |hold.record.wins|;
      Some(PublishedKyokuResults(hold.record.kyokuSequence, hold.record.wins[..shown],
        if hold.nextStep > |hold.record.wins| then Some(hold.record.settlement) else None))
  }

  // ----- Seats and clocks ------------------------------------------------------------

  function DecisionTimingFor(m: MatchState, kind: DecisionKind, seat: nat): (Option<nat>, bool)
    requires SeatsFit(m) && seat < |m.players|
  {
    if !m.controllers[seat].Interactive? then (Some(0), false)
    else match m.timeControl
      case Casual => (Some(if kind.Turn? then 30_000 else 10_000), false)
      case RiichiDev => (Some(if kind.Turn? then m.timing.turn else m.timing.response), false)
      case Unlimited =>
        if m.players[seat].kind.BuiltInBot? then (Some(0), false)
        else if m.players[seat].kind.Human? && m.presence[seat].Connected? then (None, false)
        else (Some(m.timing.watchdog), true)
  }

  predicate InWindow(m: MatchState, seat: Seat) {
    && m.decision.Some?
    && var k := EntryIndex(m.decision.value.entries, seat);
       k.Some? && m.decision.value.entries[k.value].actions != []
  }

  function RetimeSeat(m: MatchState, seat: Seat, now: nat, duration: Option<nat>, watchdog: bool): MatchState
    requires m.decision.Some?
  {
    m.(decision := Some(RetimeFor(m.decision.value, seat, now, duration, watchdog)))
  }

  function Disconnect(m: MatchState, seat: Seat, now: nat): (MatchState, Result<(), MatchError>)
    requires Fits(m)
  {
    if !SeatInMatch(m, seat) then (m, Err(InvalidSeat(seat)))
    else
      var m1 := m.(presence := m.presence[seat := Disconnected]);
      if m.timeControl.Unlimited? && m.players[seat].kind.Human? && m.controllers[seat].Interactive?
        && InWindow(m, seat)
        && m.decision.value.entries[EntryIndex(m.decision.value.entries, seat).value].deadline.None?
      then (RetimeSeat(m1, seat, now, Some(m.timing.watchdog), true), Ok(()))
      else (m1, Ok(()))
  }

  function Reconnect(m: MatchState, seat: Seat, now: nat): (MatchState, Result<(), MatchError>)
    requires Fits(m)
  {
    if !SeatInMatch(m, seat) then (m, Err(InvalidSeat(seat)))
    else
      var m1 := m.(presence := m.presence[seat := Connected]);
      if m.controllers[seat].TemporaryAuto? then
        var m2 := m1.(controllers := m.controllers[seat := Interactive]);
        if InWindow(m, seat) then
          var (duration, watchdog) := DecisionTimingFor(m2, m.decision.value.kind, seat);
          (RetimeSeat(m2, seat, now, duration, watchdog), Ok(()))
        else (m2, Ok(()))
      else if m.timeControl.Unlimited? && m.players[seat].kind.Human? && InWindow(m, seat)
        && m.decision.value.entries[EntryIndex(m.decision.value.entries, seat).value].watchdog
      then
        var (duration, watchdog) := DecisionTimingFor(m1, m.decision.value.kind, seat);
        (RetimeSeat(m1, seat, now, duration, watchdog), Ok(()))
      else (m1, Ok(()))
  }

  function SetPermanentAuto(m: MatchState, seat: Seat): (MatchState, Result<(), MatchError>)
    requires Fits(m)
  {
    if !SeatInMatch(m, seat) then (m, Err(InvalidSeat(seat)))
    else (m.(controllers := m.controllers[seat := PermanentAuto], decision := None), Ok(()))
  }

  // ----- Decisions ----------------------------------------------------------------------

  predicate IsResponseAction(a: GameAction) { a.Chi? || a.Pon? || a.Daiminkan? || a.Ron? || a.Pass? }

  /** The first engine error over the seats, in seat order. */
  function FirstLegalError(legal: seq<Result<seq<GameAction>, string>>): (r: Option<string>)
    ensures r.None? <==> forall i :: 0 <= i < |legal| ==> legal[i].Ok?
  {
    if legal == [] then None
    else if legal[0].Err? then Some(legal[0].error)
    else FirstLegalError(legal[1..])
  }

  predicate AllLegal(legal: seq<Result<seq<GameAction>, string>>) {
    forall i :: 0 <= i < |legal| ==> legal[i].Ok?
  }

  function KindOf(legal: seq<Result<seq<GameAction>, string>>): DecisionKind
    requires AllLegal(legal)
  {
    if exists i, j :: 0 <= i < |legal| && 0 <= j < |legal[i].value| && IsResponseAction(legal[i].value[j])
    then Response else Turn
  }

  function NameActions(actions: seq<GameAction>, first: nat): (r: seq<DecisionAction>)
    ensures |r| == |actions|
    ensures forall j :: 0 <= j < |actions| ==> r[j] == DecisionAction(ActionName(first + j), actions[j])
  {
    seq(|actions|, j requires 0 <= j < |actions| => DecisionAction(ActionName(first + j), actions[j]))
  }

  function CountActions(legal: seq<Result<seq<GameAction>, string>>): nat
    requires AllLegal(legal)
  {
    if legal == [] then 0
    else CountActions(legal[..|legal| - 1]) + |legal[|legal| - 1].value|
  }

  /** One offer per seat with something to do, action ids running on from `m.nextActionId`. */
  function OffersUpTo(m: MatchState, legal: seq<Result<seq<GameAction>, string>>, kind: DecisionKind, n: nat)
    : seq<SeatOffer>
    requires SeatsFit(m) && |legal| == |m.players| && AllLegal(legal) && n <= |legal|
  {
    if n == 0 then []
    else
      var before := OffersUpTo(m, legal, kind, n - 1);
      var actions := legal[n - 1].value;
      if actions == [] then before
      else
        var (duration, watchdog) := DecisionTimingFor(m, kind, n - 1);
        before + [SeatOffer(n - 1, NameActions(actions, m.nextActionId + CountActions(legal[..n - 1])),
                            duration, watchdog)]
  }

  /** Opens the window the engine's state calls for, unless one is open or nobody can act. */
  function CurrentDecision(m: MatchState, env: Env): (MatchState, Result<Option<DecisionState>, MatchError>)
    requires Fits(m) && EnvFits(m.mode, env)
  {
    if m.held.Some? then (m, Ok(None))
    else if EnsureRunning(m).Some? then (m, Err(EnsureRunning(m).value))
    else if m.decision.Some? then (m, Ok(m.decision))
    else if FirstLegalError(env.legal).Some? then
      var reason := FirstLegalError(env.legal).value;
      (AbortForEngine(m, reason), Err(MatchAborted(reason)))
    else
      var kind := KindOf(env.legal);
      var offers := OffersUpTo(m, env.legal, kind, |env.legal|);
      if offers == [] then (m, Ok(None))
      else
        var named := m.(nextDecisionId := m.nextDecisionId + 1,
                        nextActionId := m.nextActionId + CountActions(env.legal));
        match OpenDecision(DecisionName(m.nextDecisionId), kind, offers, env.openedAt)
        case Err(_) => (named.(status := Aborted("no safe default")), Err(MatchAborted("no safe default")))
        case Ok(d) => (named.(decision := Some(d)), Ok(Some(d)))
  }

  /** Closes the window and hands its actions to the engine. */
  function ResolveActions(m: MatchState, resolution: DecisionResolution, env: Env)
    : (MatchState, Result<DecisionResult, MatchError>)
    requires Fits(m) && EnvFits(m.mode, env)
  {
    var (m1, r) := FinishActions(m.(decision := None), env.applied);
    match r
    case Err(e) => (m1, Err(e))
    case Ok(events) => (m1, Ok(ResolvedWith(resolution.decisionId, resolution.actions, events)))
  }

  /** A submission before any engine call: the reply so far, or the resolution to apply. */
  function SubmitPhase(m: MatchState, env: Env, seat: Seat, decisionId: DecisionId, actionId: ActionId)
    : (MatchState, Result<DecisionSubmission, MatchError>)
    requires Fits(m) && EnvFits(m.mode, env)
  {
    if EnsureRunning(m).Some? then (m, Err(EnsureRunning(m).value))
    else if !SeatInMatch(m, seat) then (m, Err(InvalidSeat(seat)))
    else
      var (m1, opening) := CurrentDecision(m, env);
      OpeningFits(m, env);
      if opening.Err? then (m1, Err(opening.error))
      else if m1.decision.None? then (m1, Err(NoDecision))
      else
        var (d, r) := SubmitWithDecisionId(m1.decision.value, decisionId, seat, actionId, env.now);
        match r
        case Err(e) => (m1, Err(DecisionFailed(e)))
        case Ok(submission) => (m1.(decision := Some(d)), Ok(submission))
  }

  function SubmitAction(m: MatchState, env: Env, seat: Seat, decisionId: DecisionId, actionId: ActionId)
    : (MatchState, Result<DecisionResult, MatchError>)
    requires Fits(m) && EnvFits(m.mode, env)
  {
    var (m1, r) := SubmitPhase(m, env, seat, decisionId, actionId);
    SubmitPhaseFits(m, env, seat, decisionId, actionId);
    match r
    case Err(e) => (m1, Err(e))
    case Ok(Accepted(_)) => (m1, Ok(Waiting(decisionId)))
    case Ok(Resolved(resolution)) => ResolveActions(m1.(decision := None), resolution, env)
  }

  predicate TimedOutSeat(d: DecisionState, seat: Seat) {
    var k := EntryIndex(d.entries, seat);
    k.Some? && d.entries[k.value].timedOut
  }

  /** A disconnected seat that let its clock run out is played automatically from then on. */
  function AutoStarted(m: MatchState, d: DecisionState): MatchState
    requires SeatsFit(m)
  {
    m.(controllers := seq(|m.controllers|, i requires 0 <= i < |m.controllers| =>
      if i < 4 && TimedOutSeat(d, i) && m.presence[i].Disconnected? && m.controllers[i].Interactive?
      then TemporaryAuto else m.controllers[i]))
  }

  function ExpirePhase(m: MatchState, env: Env): (MatchState, Result<Option<DecisionResolution>, MatchError>)
    requires Fits(m) && EnvFits(m.mode, env)
  {
    if EnsureRunning(m).Some? then (m, Err(EnsureRunning(m).value))
    else
      var (m1, opening) := CurrentDecision(m, env);
      OpeningFits(m, env);
      if opening.Err? then (m1, Err(opening.error))
      else if m1.decision.None? then (m1, Ok(None))
      else
        var (d, r) := ResolveAt(m1.decision.value, env.now);
        (AutoStarted(m1.(decision := Some(d)), d), Ok(r))
  }

  function ResolveExpired(m: MatchState, env: Env): (MatchState, Result<Option<DecisionResult>, MatchError>)
    requires Fits(m) && EnvFits(m.mode, env)
  {
    var (m1, r) := ExpirePhase(m, env);
    ExpirePhaseFits(m, env);
    match r
    case Err(e) => (m1, Err(e))
    case Ok(None) => (m1, Ok(None))
    case Ok(Some(resolution)) =>
      var (m2, reply) := ResolveActions(m1.(decision := None), resolution, env);
      (m2, match reply case Err(e) => Err(e) case Ok(result) => Ok(Some(result)))
  }

  /** The compatibility path: apply one already canonical action directly. */
  function ApplyDirect(m: MatchState, env: Env, seat: Seat, action: GameAction)
    : (MatchState, Result<seq<GameEvent>, MatchError>)
    requires Fits(m) && EnvFits(m.mode, env)
  {
    if EnsureRunning(m).Some? then (m, Err(EnsureRunning(m).value))
    else if !SeatInMatch(m, seat) then (m, Err(InvalidSeat(seat)))
    else match env.legal[seat]
      case Err(e) => (AbortForEngine(m, e), Err(MatchAborted(e)))
      case Ok(actions) =>
        if action !in actions then (m, Err(IllegalAction(seat)))
        else FinishActions(m.(decision := None), env.applied)
  }

  /** What one seat may do; an engine error aborts the match. */
  function LegalActions(m: MatchState, env: Env, seat: Seat): (MatchState, Result<seq<GameAction>, MatchError>)
    requires Fits(m) && EnvFits(m.mode, env)
  {
    if !SeatInMatch(m, seat) then (m, Err(InvalidSeat(seat)))
    else if m.held.Some? then (m, Ok([]))
    else if EnsureRunning(m).Some? then (m, Err(EnsureRunning(m).value))
    else match env.legal[seat]
      case Err(e) => (AbortForEngine(m, e), Err(MatchAborted(e)))
      case Ok(actions) => (m, Ok(actions))
  }

  /** Shows the table to an audience: the held hand's frozen one, else the engine's, opening the window if need be. */
  function Project(m: MatchState, env: Env, table: Result<TableState, string>, a: Audience)
    : (MatchState, Result<AudienceProjection, MatchError>)
    requires Fits(m) && EnvFits(m.mode, env)
  {
    if m.status.Aborted? then (m, Err(MatchAborted(m.status.reason)))
    else
      var (m1, opening) := if m.status.Running? then CurrentDecision(m, env) else (m, Ok(None));
      if opening.Err? then (m1, Err(opening.error))
      else if m1.held.None? && table.Err? then (AbortForEngine(m1, table.error), Err(MatchAborted(table.error)))
      else
        var state := if m1.held.Some? then m1.held.value.table else table.value;
        var shown := if opening.value.Some? then state.(decision := opening.value) else state;
        (m1, Ok(ProjectTable(shown, a, env.now).(kyokuResults := PublishedResults(m1))))
  }

  // ----- The machine keeps its shape -----------------------------------------------------

  predicate OffersFit(offers: seq<SeatOffer>, n: nat) {
    && (forall i :: 0 <= i < |offers| ==> offers[i].seat < n)
    && forall i, j :: 0 <= i < j < |offers| ==> offers[i].seat != offers[j].seat
  }

  lemma {:induction false} OffersAskEachSeatOnce(m: MatchState, legal: seq<Result<seq<GameAction>, string>>,
                                                 kind: DecisionKind, n: nat)
    requires SeatsFit(m) && |legal| == |m.players| && AllLegal(legal) && n <= |legal|
    ensures OffersFit(OffersUpTo(m, legal, kind, n), n)
  {
    if n > 0 { OffersAskEachSeatOnce(m, legal, kind, n - 1); }
  }

  lemma WindowOpensFit(id: DecisionId, kind: DecisionKind, offers: seq<SeatOffer>, openedAt: nat, n: nat)
    requires offers != [] && OffersFit(offers, n) && OpenDecision(id, kind, offers, openedAt).Ok?
    ensures OpenWindow(OpenDecision(id, kind, offers, openedAt).value, n)
  {
    OpenDecisionSound(id, kind, offers, openedAt);
    var d := OpenDecision(id, kind, offers, openedAt).value;
    forall i | 0 <= i < |offers|
      ensures d.entries[i].seat == offers[i].seat
    {
      assert OpenEntry(offers[i], openedAt) == Ok(d.entries[i]);
    }
  }

  lemma OpeningFits(m: MatchState, env: Env)
    requires Fits(m) && EnvFits(m.mode, env)
    ensures Fits(CurrentDecision(m, env).0) && CurrentDecision(m, env).0.mode == m.mode
  {
    if m.held.None? && EnsureRunning(m).None? && m.decision.None? && FirstLegalError(env.legal).None? {
      var kind := KindOf(env.legal);
      var offers := OffersUpTo(m, env.legal, kind, |env.legal|);
      OffersAskEachSeatOnce(m, env.legal, kind, |env.legal|);
      var window := OpenDecision(DecisionName(m.nextDecisionId), kind, offers, env.openedAt);
      if offers != [] && window.Ok? {
        WindowOpensFit(DecisionName(m.nextDecisionId), kind, offers, env.openedAt, |env.legal|);
      }
    }
  }

  /** Answers and clocks leave an open window open until everyone has answered. */
  lemma WindowStaysOpen(d: DecisionState, d': DecisionState, n: nat)
    requires OpenWindow(d, n) && Extends(d, d') && Sound(d') && !d'.closed
    ensures OpenWindow(d', n)
  {
    assert forall i :: 0 <= i < |d.entries| ==> SameOffer(d.entries[i], d'.entries[i]);
  }

  /** A submission leaves the window open, or resolves it. */
  lemma SubmitKeepsWindow(d: DecisionState, n: nat, seat: Seat, id: ActionId, now: nat)
    requires OpenWindow(d, n)
    ensures var (d', r) := Submit(d, seat, id, now);
      ((r.Ok? && r.value.Resolved?) <==> d'.closed) && (!d'.closed ==> OpenWindow(d', n))
  {
    SubmitKeeps(d, seat, id, now);
    var (d', r) := Submit(d, seat, id, now);
    if r.Ok? { SubmitReply(d, Submission(seat, id, now)); }
    hide Sound, Extends, Submit, Answered, AcceptedResolution;
    if !d'.closed { WindowStaysOpen(d, d', n); }
  }

  /** So does a timeout. */
  lemma ResolveKeepsWindow(d: DecisionState, n: nat, now: nat)
    requires OpenWindow(d, n)
    ensures var (d', r) := ResolveAt(d, now);
      (r.Some? <==> d'.closed) && (!d'.closed ==> OpenWindow(d', n))
  {
    ResolveKeeps(d, now);
    ResolveClosesIff(d, now);
    var (d', r) := ResolveAt(d, now);
    hide Sound, Extends, ResolveAt;
    if !d'.closed { WindowStaysOpen(d, d', n); }
  }

  lemma SubmitPhaseFits(m: MatchState, env: Env, seat: Seat, decisionId: DecisionId, actionId: ActionId)
    requires Fits(m) && EnvFits(m.mode, env)
    ensures var (m1, r) := SubmitPhase(m, env, seat, decisionId, actionId);
      && SeatsFit(m1) && m1.mode == m.mode
      && ((r.Ok? && r.value.Resolved?) || Fits(m1))
  {
    hide OpenWindow, Sound, CurrentDecision, Submit;
    OpeningFits(m, env);
    var m1 := CurrentDecision(m, env).0;
    if m1.decision.Some? {
      SubmitKeepsWindow(m1.decision.value, m.mode.SeatCount(), seat, actionId, env.now);
    }
  }

  lemma ExpirePhaseFits(m: MatchState, env: Env)
    requires Fits(m) && EnvFits(m.mode, env)
    ensures var (m1, r) := ExpirePhase(m, env);
      && SeatsFit(m1) && m1.mode == m.mode
      && ((r.Ok? && r.value.Some?) || Fits(m1))
  {
    hide OpenWindow, Sound, CurrentDecision, ResolveAt;
    OpeningFits(m, env);
    var m1 := CurrentDecision(m, env).0;
    if m1.decision.Some? {
      ResolveKeepsWindow(m1.decision.value, m.mode.SeatCount(), env.now);
    }
  }
}
