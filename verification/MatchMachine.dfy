// The match machine as the server runs it: one object updated in place, owning its open window.

module MatchMachines {
  import opened Wrappers
  import opened Checked
  import opened Domain
  import opened EventLog
  import opened DecisionSpec
  import opened DecisionWindow
  import opened Results
  import opened Projection
  import opened Engine
  import opened MatchSpec

  class MatchMachine {
    var mode: GameMode
    var players: seq<Participant>
    var status: MatchStatus
    var events: seq<GameEvent>
    var lastSettlementScores: Option<seq<I32>>
    var held: Option<HeldKyoku>
    var journalEventCount: nat
    var persistenceEvents: seq<GameEvent>
    var timeControl: TimeControl
    var timing: TimingConfig
    var presence: seq<Presence>
    var controllers: seq<ControllerState>
    var nextDecisionId: nat
    var nextActionId: nat
    var decision: Decision?

    /** The objects whose fields make up the machine's state. */
    ghost function Repr(): set<object>
      reads this
    {
      if decision == null then {this} else {this, decision}
    }

    ghost function State(): MatchState
      reads this, Repr()
    {
      MatchState(mode, players, status, events, lastSettlementScores, held, journalEventCount, persistenceEvents,
        timeControl, timing, presence, controllers, nextDecisionId, nextActionId,
        if decision == null then None else Some(decision.State()))
    }

    constructor (mode: GameMode, players: seq<Participant>, initial: seq<GameEvent>, timeControl: TimeControl,
                 timing: TimingConfig)
      requires RosterValid(mode, players)
      ensures fresh(Repr()) && decision == null
      ensures State() == MatchState(mode, players, Running, initial, None, None, |initial|, [], timeControl, timing,
        seq(mode.SeatCount(), i => Connected),
        seq(|players|, i requires 0 <= i < |players| =>
          if players[i].kind.BuiltInBot? then PermanentAuto else Interactive),
        1, 1, None)
    {
      this.mode, this.players, status, events := mode, players, Running, initial;
      lastSettlementScores, held, journalEventCount, persistenceEvents := None, None, |initial|, [];
      this.timeControl, this.timing := timeControl, timing;
      presence := seq(mode.SeatCount(), i => Connected);
      controllers := seq(|players|, i requires 0 <= i < |players| =>
        if players[i].kind.BuiltInBot? then PermanentAuto else Interactive);
      nextDecisionId, nextActionId, decision := 1, 1, null;
    }

    method TakePersistenceEvents() returns (taken: seq<GameEvent>)
      modifies this
      ensures taken == old(persistenceEvents) && State() == old(State()).(persistenceEvents := [])
    {
      taken := persistenceEvents;
      persistenceEvents := [];
    }

    method PublishKyokuStep(step: nat) returns (r: Result<seq<GameEvent>, MatchError>)
      modifies this
      ensures (State(), r) == PublishStep(old(State()), step) && decision == old(decision)
    {
      if held.None? { return Err(NoDecision); }
      var hold := held.value;
      if step != hold.nextStep || step > |hold.record.wins| { return Err(ResultsPending); }
      hold := hold.(nextStep := hold.nextStep + 1);
      var published := [];
      if step == |hold.record.wins| {
        var settlement := hold.record.settlement;
        hold := hold.(table := WithSettlementState(hold.table, Afters(settlement), settlement.potAfter));
        published := hold.terminalEvents;
        hold := hold.(terminalEvents := []);
        events := events + published;
      }
      held := Some(hold);
      return Ok(published);
    }

    method Release() returns (r: Result<seq<GameEvent>, MatchError>)
      modifies this
      ensures (State(), r) == ReleaseKyoku(old(State())) && decision == old(decision)
    {
      if held.None? || !(held.value.nextStep > |held.value.record.wins|) { return Err(ResultsPending); }
      var hold := held.value;
      held := None;
      events := events + hold.futureEvents;
      if hold.finalResult.Some? { status := Completed(hold.finalResult.value); }
      return Ok(hold.futureEvents);
    }

    method SetTimeControl(timeControl: TimeControl)
      modifies this
      ensures State() == old(State()).(timeControl := timeControl, decision := None) && decision == null
    {
      this.timeControl := timeControl;
      decision := null;
    }

    method SetTiming(timing: TimingConfig)
      modifies this
      ensures State() == old(State()).(timing := timing, decision := None) && decision == null
    {
      this.timing := timing;
      decision := null;
    }

    method LeaveSeat(seat: Seat, now: nat) returns (r: Result<(), MatchError>)
      requires Fits(State())
      modifies this, Repr()
      ensures (State(), r) == Disconnect(old(State()), seat, now) && decision == old(decision)
    {
      hide Sound, RetimeFor;
      if seat >= mode.SeatCount() { return Err(InvalidSeat(seat)); }
      presence := presence[seat := Disconnected];
      if timeControl.Unlimited? && players[seat].kind.Human? && controllers[seat].Interactive? && decision != null {
        var k := EntryIndex(decision.entries, seat);
        if k.Some? && decision.entries[k.value].actions != [] && decision.entries[k.value].deadline.None? {
          decision.Retime(seat, now, Some(timing.watchdog), true);
        }
      }
      return Ok(());
    }

    function TimingFor(kind: DecisionKind, seat: nat): (Option<nat>, bool)
      requires SeatsFit(State()) && seat < |players|
      reads this, Repr()
    {
      DecisionTimingFor(
        MatchState(mode, players, status, events, lastSettlementScores, held, journalEventCount, persistenceEvents,
          timeControl, timing, presence, controllers, nextDecisionId, nextActionId, None), kind, seat)
    }

    method ReturnToSeat(seat: Seat, now: nat) returns (r: Result<(), MatchError>)
      requires Fits(State())
      modifies this, Repr()
      ensures (State(), r) == Reconnect(old(State()), seat, now) && decision == old(decision)
    {
      hide Sound, RetimeFor;
      if seat >= mode.SeatCount() { return Err(InvalidSeat(seat)); }
      presence := presence[seat := Connected];
      if controllers[seat].TemporaryAuto? {
        controllers := controllers[seat := Interactive];
        if decision != null {
          var k := EntryIndex(decision.entries, seat);
          if k.Some? && decision.entries[k.value].actions != [] {
            var (duration, watchdog) := TimingFor(decision.kind, seat);
            decision.Retime(seat, now, duration, watchdog);
          }
        }
      } else if timeControl.Unlimited? && players[seat].kind.Human? && decision != null {
        var k := EntryIndex(decision.entries, seat);
        if k.Some? && decision.entries[k.value].watchdog && decision.entries[k.value].actions != [] {
          var (duration, watchdog) := TimingFor(decision.kind, seat);
          decision.Retime(seat, now, duration, watchdog);
        }
      }
      return Ok(());
    }

    method LeaveToComputer(seat: Seat) returns (r: Result<(), MatchError>)
      requires Fits(State())
      modifies this
      ensures (State(), r) == SetPermanentAuto(old(State()), seat)
      ensures decision == null || decision == old(decision)
    {
      if seat >= mode.SeatCount() { return Err(InvalidSeat(seat)); }
      controllers := controllers[seat := PermanentAuto];
      decision := null;
      return Ok(());
    }

    method Abort(reason: string) returns (e: MatchError)
      modifies this
      ensures State() == AbortForEngine(old(State()), reason) && e == MatchAborted(reason)
      ensures decision == old(decision)
    {
      held := None;
      status := Aborted(reason);
      e := MatchAborted(reason);
    }

    method RecordAllEvents(o: EngineOutcome) returns (r: Result<seq<GameEvent>, MatchError>)
      requires SeatsFit(State()) && |o.scores| == mode.SeatCount()
      modifies this
      ensures (State(), r) == RecordEvents(old(State()), o) && decision == old(decision)
    {
      hide ResultValid, BuiltResult;
      journalEventCount := journalEventCount + |o.events|;
      persistenceEvents := persistenceEvents + o.events;
      events := events + o.events;
      if o.done {
        var result := BuildResult(mode, players, o.scores);
        var valid := ValidateResult(result);
        if !valid {
          var e := Abort("invalid final result");
          return Err(e);
        }
        if lastSettlementScores.Some? && lastSettlementScores.value != result.finalScores {
          var e := Abort("final scores differ from settlement");
          return Err(e);
        }
        status := Completed(result);
      }
      return Ok(o.events);
    }

    /** The hold for an ended hand, or the reason to abort; nothing is changed yet. */
    method PrepareHold(o: EngineOutcome) returns (r: Result<HeldKyoku, string>)
      requires SeatsFit(State()) && OutcomeFits(mode, o) && o.ended.Some?
      ensures r == BuildHold(State(), o)
    {
      hide ResultValid, RecordOf;
      var sequence := CountStarts(events) + StartsUntilEnd(o.events);
      var record := ResultRecord(o.ended.value, mode, players, sequence, journalEventCount, o.events);
      if record.Err? { return Err(record.error); }
      var settlement := record.value.settlement;
      if o.endedTable.Err? { return Err(o.endedTable.error); }
      var shown := WithSettlementState(o.endedTable.value, Befores(settlement), settlement.potBefore);
      var finalResult: Option<MatchResult> := None;
      if o.done {
        var result := BuildResult(mode, players, o.scores);
        var valid := ValidateResult(result);
        if !valid { return Err("invalid final result"); }
        if Afters(settlement) != result.finalScores { return Err("final scores differ from settlement"); }
        finalResult := Some(result);
      }
      var terminal := FirstTerminal(o.events);
      if terminal.None? { return Err("ended kyoku without terminal event"); }
      var end := FirstEnd(o.events);
      if end.None? { return Err("ended kyoku without EndKyoku"); }
      if terminal.value >= end.value { return Err("terminal follows EndKyoku"); }
      return Ok(HeldKyoku(shown, record.value, 0, o.events[terminal.value..end.value], o.events[end.value..],
                          finalResult));
    }

    method Hold(o: EngineOutcome, hold: HeldKyoku)
      modifies this
      ensures State() == HoldKyoku(old(State()), o, hold) && decision == null
    {
      hide Afters, FirstTerminal;
      lastSettlementScores := Some(Afters(hold.record.settlement));
      journalEventCount := journalEventCount + |o.events|;
      persistenceEvents := persistenceEvents + o.events;
      events := events + o.events[..FirstTerminal(o.events).GetOr(0)];
      decision := null;
      held := Some(hold);
    }

    method Record(o: EngineOutcome) returns (r: Result<seq<GameEvent>, MatchError>)
      requires SeatsFit(State()) && OutcomeFits(mode, o)
      modifies this
      ensures (State(), r) == RecordOutcome(old(State()), o)
      ensures decision == null || decision == old(decision)
    {
      hide BuildHold, HoldKyoku, AbortForEngine, RecordEvents;
      if o.ended.None? {
        r := RecordAllEvents(o);
        return;
      }
      var hold := PrepareHold(o);
      if hold.Err? {
        var e := Abort(hold.error);
        return Err(e);
      }
      Hold(o, hold.value);
      return Ok(o.events[..FirstTerminal(o.events).GetOr(0)]);
    }

    method Finish(applied: Result<EngineOutcome, string>) returns (r: Result<seq<GameEvent>, MatchError>)
      requires SeatsFit(State()) && (applied.Ok? ==> OutcomeFits(mode, applied.value))
      modifies this
      ensures (State(), r) == FinishActions(old(State()), applied)
      ensures decision == null || decision == old(decision)
    {
      hide RecordOutcome, OutcomeFits, AbortForEngine;
      if applied.Err? {
        var e := Abort(applied.error);
        return Err(e);
      }
      r := Record(applied.value);
    }

    method CheckRunning() returns (e: Option<MatchError>)
      ensures e == EnsureRunning(State())
    {
      if held.Some? { return Some(ResultsPending); }
      match status
      case Running => return None;
      case Aborted(reason) => return Some(MatchAborted(reason));
      case Completed(_) => return Some(Finished);
    }

    /** One offer per seat that can act; hands out action ids as it goes. */
    method NameOffers(legal: seq<Result<seq<GameAction>, string>>, kind: DecisionKind)
      returns (offers: seq<SeatOffer>)
      requires SeatsFit(State()) && |legal| == |players| && AllLegal(legal)
      modifies this
      ensures offers == OffersUpTo(old(State()), legal, kind, |legal|)
      ensures State() == old(State()).(nextActionId := old(nextActionId) + CountActions(legal))
      ensures decision == old(decision)
    {
      hide OffersUpTo, CountActions, DecisionTimingFor, NameActions, WindowFits;
      offers := [];
      var seat := 0;
      NoOffersYet(State(), legal, kind);
      while seat < |legal|
        invariant 0 <= seat <= |legal| && decision == old(decision)
        invariant offers == OffersUpTo(old(State()), legal, kind, seat)
        invariant State() == old(State()).(nextActionId := old(nextActionId) + CountActions(legal[..seat]))
      {
        var actions := legal[seat].value;
        NextOffer(old(State()), legal, kind, seat);
        if actions != [] {
          var (duration, watchdog) := TimingFor(kind, seat);
          TimingIsOfSeats(State(), old(State()), kind, seat);
          offers := offers + [SeatOffer(seat, NameActions(actions, nextActionId), duration, watchdog)];
          nextActionId := nextActionId + |actions|;
        }
        seat := seat + 1;
      }
      assert legal[..seat] == legal;
    }

    method CurrentWindow(env: Env) returns (r: Result<Option<DecisionState>, MatchError>)
      requires Fits(State()) && EnvFits(mode, env)
      modifies this
      ensures (State(), r) == CurrentDecision(old(State()), env)
      ensures decision == null || decision == old(decision) || fresh(decision)
    {
      hide OpenWindow, OpenDecision, OffersUpTo, KindOf, CountActions, FirstLegalError, OutcomeFits, DecisionName;
      if held.Some? { return Ok(None); }
      var running := CheckRunning();
      if running.Some? { return Err(running.value); }
      if decision != null { return Ok(Some(decision.State())); }
      var options := [];
      for seat := 0 to |env.legal|
        invariant forall i :: 0 <= i < seat ==> env.legal[i].Ok?
        invariant State() == old(State()) && decision == null
        invariant options == [] <==> forall i :: 0 <= i < seat ==> env.legal[i].value == []
      {
        if env.legal[seat].Err? {
          FirstErrorIs(env.legal, seat);
          var e := Abort(env.legal[seat].error);
          return Err(e);
        }
        if env.legal[seat].value != [] { options := options + [seat]; }
      }
      var kind := KindOf(env.legal);
      NoOffersIff(State(), env.legal, kind, |env.legal|);
      if options == [] { return Ok(None); }
      r := OpenNew(kind, env);
    }

    /** Opens the window somebody is to be asked in. */
    method OpenNew(kind: DecisionKind, env: Env) returns (r: Result<Option<DecisionState>, MatchError>)
      requires Fits(State()) && EnvFits(mode, env) && EnsureRunning(State()).None? && decision == null
      requires AllLegal(env.legal) && kind == KindOf(env.legal)
      requires OffersUpTo(State(), env.legal, kind, |env.legal|) != []
      modifies this
      ensures (State(), r) == CurrentDecision(old(State()), env)
      ensures decision == null || fresh(decision)
    {
      hide OpenWindow, OpenDecision, OffersUpTo, KindOf, CountActions, OutcomeFits, DecisionName, Sound;
      var id := DecisionName(nextDecisionId);
      var offers := NameOffers(env.legal, kind);
      nextDecisionId := nextDecisionId + 1;
      var window := Decision.FromActionIdsWithTimings(id, kind, offers, env.openedAt);
      if window.Err? {
        status := Aborted("no safe default");
        return Err(MatchAborted("no safe default"));
      }
      decision := window.value;
      return Ok(Some(decision.State()));
    }

    /** Closes the window and hands its actions to the engine. */
    method ResolveNow(resolution: DecisionResolution, env: Env) returns (r: Result<DecisionResult, MatchError>)
      requires SeatsFit(State()) && EnvFits(mode, env)
      modifies this
      ensures (State(), r) == ResolveActions(old(State()).(decision := None), resolution, env)
      ensures decision == null
    {
      hide FinishActions, OutcomeFits;
      decision := null;
      FinishLeavesNoWindow(State(), env.applied);
      var finished := Finish(env.applied);
      if finished.Err? { return Err(finished.error); }
      return Ok(ResolvedWith(resolution.decisionId, resolution.actions, finished.value));
    }

    method Submit(env: Env, seat: Seat, decisionId: DecisionId, actionId: ActionId)
      returns (r: Result<DecisionResult, MatchError>)
      requires Fits(State()) && EnvFits(mode, env)
      modifies this, Repr()
      ensures (State(), r) == SubmitAction(old(State()), env, seat, decisionId, actionId)
      ensures decision == null || decision == old(decision) || fresh(decision)
    {
      hide Sound, OpenDecision, OffersUpTo, CurrentDecision, ResolveActions, DecisionSpec.Submit, OutcomeFits;
      ghost var before := State();
      OpeningFits(before, env);
      SubmitPhaseFits(before, env, seat, decisionId, actionId);
      var running := CheckRunning();
      if running.Some? { return Err(running.value); }
      if seat >= mode.SeatCount() { return Err(InvalidSeat(seat)); }
      if decision == null {
        var opening := CurrentWindow(env);
        if opening.Err? { return Err(opening.error); }
      } else {
        OpenWindowStays(before, env);
      }
      if decision == null { return Err(NoDecision); }
      var submission := decision.SubmitForDecision(decisionId, seat, actionId, env.now);
      if submission.Err? { return Err(DecisionFailed(submission.error)); }
      match submission.value
      case Accepted(_) => return Ok(Waiting(decisionId));
      case Resolved(resolution) => r := ResolveNow(resolution, env);
    }

    /** Puts every seat that timed out while disconnected on automatic play. */
    method StartAuto()
      requires SeatsFit(State()) && decision != null
      requires forall i :: 0 <= i < |decision.entries| ==> decision.entries[i].seat < |players|
      modifies this
      ensures State() == AutoStarted(old(State()), old(decision.State())) && decision == old(decision)
    {
      hide EntryIndex;
      var entries := decision.entries;
      ghost var d, before := decision.State(), controllers;
      for i := 0 to |entries|
        invariant State() == old(State()).(controllers := controllers) && decision == old(decision)
        invariant |controllers| == |before|
        invariant forall s :: 0 <= s < |before| ==>
          controllers[s] ==
            if s < 4 && SeatListed(entries[..i], s) && TimedOutSeat(d, s) && presence[s].Disconnected?
              && before[s].Interactive?
            then TemporaryAuto else before[s]
      {
        var seat := entries[i].seat;
        assert entries[..i + 1] == entries[..i] + [entries[i]];
        var k := EntryIndex(entries, seat);
        if k.Some? && entries[k.value].timedOut && presence[seat].Disconnected? && controllers[seat].Interactive? {
          controllers := controllers[seat := TemporaryAuto];
        }
      }
      assert entries[..|entries|] == entries;
      assert forall s: Seat :: TimedOutSeat(d, s) ==> SeatListed(entries, s);
    }

    method ResolveTimeouts(env: Env) returns (r: Result<Option<DecisionResult>, MatchError>)
      requires Fits(State()) && EnvFits(mode, env)
      modifies this, Repr()
      ensures (State(), r) == ResolveExpired(old(State()), env)
      ensures decision == null || decision == old(decision) || fresh(decision)
    {
      hide Sound, OpenDecision, OffersUpTo, CurrentDecision, ResolveActions, ResolveAt, OutcomeFits, AutoStarted;
      ghost var before := State();
      OpeningFits(before, env);
      ExpirePhaseFits(before, env);
      var running := CheckRunning();
      if running.Some? { return Err(running.value); }
      if decision == null {
        var opening := CurrentWindow(env);
        if opening.Err? { return Err(opening.error); }
      } else {
        OpenWindowStays(before, env);
      }
      if decision == null { return Ok(None); }
      ResolvingKeepsSeats(decision.State(), mode.SeatCount(), env.now);
      var resolution := decision.Resolve(env.now);
      StartAuto();
      if resolution.None? { return Ok(None); }
      var resolved := ResolveNow(resolution.value, env);
      if resolved.Err? { return Err(resolved.error); }
      return Ok(Some(resolved.value));
    }

    method Apply(env: Env, seat: Seat, action: GameAction) returns (r: Result<seq<GameEvent>, MatchError>)
      requires Fits(State()) && EnvFits(mode, env)
      modifies this
      ensures (State(), r) == ApplyDirect(old(State()), env, seat, action)
      ensures decision == null || decision == old(decision)
    {
      hide FinishActions, OutcomeFits;
      var running := CheckRunning();
      if running.Some? { return Err(running.value); }
      if seat >= mode.SeatCount() { return Err(InvalidSeat(seat)); }
      if env.legal[seat].Err? {
        var e := Abort(env.legal[seat].error);
        return Err(e);
      }
      if action !in env.legal[seat].value { return Err(IllegalAction(seat)); }
      decision := null;
      r := Finish(env.applied);
    }

    method LegalFor(env: Env, seat: Seat) returns (r: Result<seq<GameAction>, MatchError>)
      requires Fits(State()) && EnvFits(mode, env)
      modifies this
      ensures (State(), r) == LegalActions(old(State()), env, seat) && decision == old(decision)
    {
      hide OpenWindow, OutcomeFits;
      if seat >= mode.SeatCount() { return Err(InvalidSeat(seat)); }
      if held.Some? { return Ok([]); }
      var running := CheckRunning();
      if running.Some? { return Err(running.value); }
      if env.legal[seat].Ok? { return Ok(env.legal[seat].value); }
      var e := Abort(env.legal[seat].error);
      return Err(e);
    }

    /** Shows the match to an audience; may open the window, and aborts if the engine cannot answer. */
    method ProjectFor(env: Env, table: Result<TableState, string>, a: Audience)
      returns (r: Result<AudienceProjection, MatchError>)
      requires Fits(State()) && EnvFits(mode, env)
      modifies this
      ensures (State(), r) == Project(old(State()), env, table, a)
      ensures decision == null || decision == old(decision) || fresh(decision)
    {
      hide OpenWindow, OutcomeFits, CurrentDecision, ProjectTable, PublishedResults;
      if status.Aborted? { return Err(MatchAborted(status.reason)); }
      var opening: Result<Option<DecisionState>, MatchError> := Ok(None);
      if status.Running? { opening := CurrentWindow(env); }
      if opening.Err? { return Err(opening.error); }
      var state;
      if held.Some? {
        state := held.value.table;
      } else if table.Ok? {
        state := table.value;
      } else {
        var e := Abort(table.error);
        return Err(e);
      }
      if opening.value.Some? { state := state.(decision := opening.value); }
      var results := ShownResults();
      return Ok(ProjectTable(state, a, env.now).(kyokuResults := results));
    }

    /** The results of the held hand published so far, if any. */
    method ShownResults() returns (r: Option<PublishedKyokuResults>)
      ensures r == PublishedResults(State())
    {
      if held.None? || held.value.nextStep == 0 { return None; }
      var hold := held.value;
      var shown := if hold.nextStep < |hold.record.wins| then hold.nextStep else |hold.record.wins|;
      return Some(PublishedKyokuResults(hold.record.kyokuSequence, hold.record.wins[..shown],
        if hold.nextStep > |hold.record.wins| then Some(hold.record.settlement) else None));
    }
  }

  predicate SeatListed(entries: seq<DecisionSeat>, seat: nat) {
    exists j :: 0 <= j < |entries| && entries[j].seat == seat
  }

  lemma ResolvingKeepsSeats(d: DecisionState, n: nat, now: nat)
    requires OpenWindow(d, n)
    ensures var d1 := ResolveAt(d, now).0;
      forall i :: 0 <= i < |d1.entries| ==> d1.entries[i].seat < n
  {
    hide Sound, AllSubmitted, Due, AcceptedResolution;
  }

  lemma FinishLeavesNoWindow(m: MatchState, applied: Result<EngineOutcome, string>)
    requires SeatsFit(m) && (applied.Ok? ==> OutcomeFits(m.mode, applied.value)) && m.decision.None?
    ensures FinishActions(m, applied).0.decision.None?
  {
    hide BuildHold, OutcomeFits, ResultValid;
  }

  /** An open window of a running match is the current one. */
  lemma OpenWindowStays(m: MatchState, env: Env)
    requires Fits(m) && EnvFits(m.mode, env) && m.decision.Some? && EnsureRunning(m).None?
    ensures CurrentDecision(m, env) == (m, Ok(m.decision))
  {
    hide OpenWindow, OpenDecision, OffersUpTo, KindOf;
  }

  lemma NoOffersYet(m: MatchState, legal: seq<Result<seq<GameAction>, string>>, kind: DecisionKind)
    requires SeatsFit(m) && |legal| == |m.players| && AllLegal(legal)
    ensures OffersUpTo(m, legal, kind, 0) == [] && CountActions(legal[..0]) == 0
  {
  }

  lemma NextOffer(m: MatchState, legal: seq<Result<seq<GameAction>, string>>, kind: DecisionKind, n: nat)
    requires SeatsFit(m) && |legal| == |m.players| && AllLegal(legal) && n < |legal|
    ensures var (duration, watchdog) := DecisionTimingFor(m, kind, n); var actions := legal[n].value;
      OffersUpTo(m, legal, kind, n + 1) ==
        OffersUpTo(m, legal, kind, n) + (if actions == [] then [] else
          [SeatOffer(n, NameActions(actions, m.nextActionId + CountActions(legal[..n])), duration, watchdog)])
    ensures CountActions(legal[..n + 1]) == CountActions(legal[..n]) + |legal[n].value|
  {
    hide DecisionTimingFor, NameActions;
    assert legal[..n + 1][..n] == legal[..n];
  }

  /** Clocks depend on the seats and the time control, not on ids or the window. */
  lemma TimingIsOfSeats(m: MatchState, m1: MatchState, kind: DecisionKind, seat: nat)
    requires SeatsFit(m) && SeatsFit(m1) && seat < |m.players| && seat < |m1.players|
    requires m1.controllers == m.controllers && m1.players == m.players && m1.presence == m.presence
    requires m1.timeControl == m.timeControl && m1.timing == m.timing
    ensures DecisionTimingFor(m1, kind, seat) == DecisionTimingFor(m, kind, seat)
    ensures DecisionTimingFor(m.(decision := None), kind, seat) == DecisionTimingFor(m, kind, seat)
  {
  }

  /** Nobody is asked exactly when nobody has anything to do. */
  lemma {:induction false} NoOffersIff(m: MatchState, legal: seq<Result<seq<GameAction>, string>>,
                                       kind: DecisionKind, n: nat)
    requires SeatsFit(m) && |legal| == |m.players| && AllLegal(legal) && n <= |legal|
    ensures OffersUpTo(m, legal, kind, n) == [] <==> forall i :: 0 <= i < n ==> legal[i].value == []
  {
    hide DecisionTimingFor, NameActions, CountActions;
    if n > 0 { NoOffersIff(m, legal, kind, n - 1); }
  }

  lemma {:induction false} FirstErrorIs(legal: seq<Result<seq<GameAction>, string>>, k: nat)
    requires k < |legal| && legal[k].Err? && forall i :: 0 <= i < k ==> legal[i].Ok?
    ensures FirstLegalError(legal) == Some(legal[k].error)
  {
    if k > 0 { FirstErrorIs(legal[1..], k - 1); }
  }
}
