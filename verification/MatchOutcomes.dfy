// What the machine's calls leave behind and answer, in plain terms.

module MatchOutcomes {
  import opened Wrappers
  import opened Checked
  import opened Domain
  import opened DecisionSpec
  import opened Results
  import opened Projection
  import opened Engine
  import opened MatchSpec
  import opened MatchRuns
  import opened Clocks
  import opened WindowOpening

  // ----- The end of a match ----------------------------------------------------------------------------

  /** The final result on these scores: every seat with its player, score and counting rank. */
  predicate FinalOn(r: MatchResult, m: MatchState, scores: seq<I32>) {
    && r.mode == m.mode && r.finalScores == scores && |r.players| == |m.players| == |scores|
    && forall i :: 0 <= i < |scores| ==>
         var p := r.players[i];
         && p.participantId == m.players[i].id && p.displayName == m.players[i].displayName
         && p.kind == m.players[i].kind && p.seat == i && p.finalScore == scores[i]
         && p.rank == 1 + |set other | 0 <= other < |scores|
                            && (scores[other] > scores[i] || (scores[other] == scores[i] && other < i))|
  }

  predicate NoEmptyIds(m: MatchState) { forall i :: 0 <= i < |m.players| ==> m.players[i].id != "" }

  lemma BuiltIsFinal(m: MatchState, scores: seq<I32>)
    requires SeatsFit(m) && |scores| == m.mode.SeatCount()
    ensures FinalOn(BuiltResult(m.mode, m.players, scores), m, scores)
  {
    var r := BuiltResult(m.mode, m.players, scores);
    forall i | 0 <= i < |scores|
      ensures r.players[i].rank == 1 + |set other | 0 <= other < |scores|
                && (scores[other] > scores[i] || (scores[other] == scores[i] && other < i))|
    {
      assert BetterSeats(scores, i) == set other | 0 <= other < |scores|
        && (scores[other] > scores[i] || (scores[other] == scores[i] && other < i));
    }
  }

  /**
   * A reply that ends no hand is published whole. If the engine is done, the match is completed on
   * the engine's scores, or aborted when an id is empty or the last settlement says otherwise; if it
   * is not, the match runs on.
   */
  lemma PlainReplyMeans(m: MatchState, o: EngineOutcome)
    requires SeatsFit(m) && OutcomeFits(m.mode, o) && o.ended.None? && RosterValid(m.mode, m.players)
    requires m.status.Running? && m.held.None?
    ensures var (m1, r) := FinishActions(m, Ok(o));
      && m1.events == m.events + o.events && m1.held.None?
      && (!o.done ==> m1.status.Running? && r == Ok(o.events))
      && (o.done ==>
            if NoEmptyIds(m) && (m.lastSettlementScores.None? || m.lastSettlementScores.value == o.scores) then
              m1.status.Completed? && FinalOn(m1.status.result, m, o.scores) && r == Ok(o.events)
            else m1.status.Aborted? && r.Err?)
  {
    hide ResultValid, BuiltResult, FinalOn, RosterValid;
    BuiltIsFinal(m, o.scores);
    BuiltResultValidIff(m.mode, m.players, o.scores);
    BuiltHasScores(m, o.scores);
  }

  lemma BuiltHasScores(m: MatchState, scores: seq<I32>)
    requires SeatsFit(m) && |scores| == m.mode.SeatCount()
    ensures BuiltResult(m.mode, m.players, scores).finalScores == scores
  {
  }

  /**
   * A reply that ends a hand is held back from its first win or draw on, or aborts the match. It is
   * held with the table as captured, but on the scores and sticks from before; with its record; and
   * with a final result, on the engine's scores and equal to the settled ones, exactly when the
   * engine is done.
   */
  lemma EndingReplyMeans(m: MatchState, o: EngineOutcome)
    requires SeatsFit(m) && OutcomeFits(m.mode, o) && o.ended.Some? && RosterValid(m.mode, m.players)
    requires m.status.Running? && m.held.None?
    ensures var (m1, r) := FinishActions(m, Ok(o));
      && (r.Err? <==> m1.status.Aborted?) && (r.Err? ==> m1.held.None? && m1.events == m.events)
      && (r.Ok? ==>
            && m1.status.Running? && m1.decision.None? && m1.held.Some? && m1.events == m.events + r.value
            && var hold := m1.held.value;
               && r.value + hold.terminalEvents + hold.futureEvents == o.events && hold.nextStep == 0
               && (forall k :: 0 <= k < |r.value| ==> !IsTerminal(r.value[k]))
               && hold.terminalEvents != [] && IsTerminal(hold.terminalEvents[0])
               && (forall k :: 0 <= k < |hold.terminalEvents| ==> !hold.terminalEvents[k].EndKyoku?)
               && hold.futureEvents != [] && hold.futureEvents[0].EndKyoku?
               && m1.lastSettlementScores == Some(Afters(hold.record.settlement))
               && (hold.finalResult.Some? <==> o.done)
               && (o.done ==> FinalOn(hold.finalResult.value, m, o.scores)
                              && o.scores == Afters(hold.record.settlement)))
  {
    hide ResultValid, BuiltResult, FinalOn, RosterValid, RecordOf, WithSettlementState, RecordValid;
    BuiltIsFinal(m, o.scores);
    BuiltHasScores(m, o.scores);
    if BuildHold(m, o).Ok? { CutsAdd(m, o); }
  }

  lemma CutsAdd(m: MatchState, o: EngineOutcome)
    requires SeatsFit(m) && OutcomeFits(m.mode, o) && o.ended.Some? && BuildHold(m, o).Ok?
    ensures var t, e, hold := FirstTerminal(o.events), FirstEnd(o.events), BuildHold(m, o).value;
      && t.Some? && e.Some? && t.value < e.value
      && o.events[..t.value] + hold.terminalEvents + hold.futureEvents == o.events
      && (forall k :: 0 <= k < |hold.terminalEvents| ==> !hold.terminalEvents[k].EndKyoku?)
  {
    hide RecordOf, WithSettlementState, ResultValid, BuiltResult;
    BuiltHoldCuts(m, o);
    var t, e := FirstTerminal(o.events).value, FirstEnd(o.events).value;
    assert o.events == o.events[..t] + o.events[t..e] + o.events[e..];
  }

  /** The hand's number is that of the hands started so far, this batch's before its end included. */
  lemma HeldHandIsNumbered(m: MatchState, o: EngineOutcome)
    requires SeatsFit(m) && OutcomeFits(m.mode, o) && o.ended.Some? && BuildHold(m, o).Ok?
    ensures var e := FirstEnd(o.events);
      && e.Some? && e.value < |o.events|
      && BuildHold(m, o).value.record.kyokuSequence == StartsIn(m.events) + StartsIn(o.events[..e.value])
  {
    hide RecordValid, ScanEvents, DrawEvidence, ResultValid, BuiltResult, WithSettlementState, ChangesOf;
    var e := FirstEnd(o.events).value;
    StartsInIs(m.events);
    StartsInIs(o.events[..e]);
  }

  /** Hands started in a list of events. */
  function StartsIn(events: seq<GameEvent>): nat {
    if events == [] then 0 else (if events[0].StartKyoku? then 1 else 0) + StartsIn(events[1..])
  }

  lemma {:induction false} StartsInIs(events: seq<GameEvent>)
    ensures StartsIn(events) == EventLog.CountStarts(events)
  {
    if events != [] {
      StartsInIs(events[1..]);
      assert events == [events[0]] + events[1..];
      EventLog.CountsAdd([events[0]], events[1..]);
      assert [events[0]][..0] == [];
      assert EventLog.CountStarts([events[0]]) == if events[0].StartKyoku? then 1 else 0;
    }
  }

  // ----- Presence --------------------------------------------------------------------------------------

  /** Only seat `seat` of a list changes, to this. */
  predicate OnlySets<T(==)>(before: seq<T>, after: seq<T>, seat: nat, x: T) {
    |after| == |before| && forall i :: 0 <= i < |after| ==> after[i] == if i == seat then x else before[i]
  }

  /** An entry put on a new clock at a moment; offers and answers as they were. */
  predicate ClockedAnew(before: DecisionSeat, after: DecisionSeat, now: nat) {
    && SameOffer(before, after) && after.submitted == before.submitted && after.timedOut == before.timedOut
    && after.openedAt == now
    && (after.duration.None? ==> after.deadline.None?)
    && (after.duration.Some? ==> after.deadline == Some(now + after.duration.value))
  }

  /** The window is the same but for one seat's clock. */
  predicate OnlySeatReclocked(d: DecisionState, d1: DecisionState, seat: Seat, now: nat) {
    && d1.id == d.id && d1.kind == d.kind && d1.closed == d.closed && |d1.entries| == |d.entries|
    && forall i :: 0 <= i < |d.entries| ==>
         if d.entries[i].seat == seat then ClockedAnew(d.entries[i], d1.entries[i], now)
         else d1.entries[i] == d.entries[i]
  }

  lemma RetimedMeans(d: DecisionState, n: nat, seat: Seat, now: nat, duration: Option<nat>, watchdog: bool)
    requires OpenWindow(d, n) && EntryIndex(d.entries, seat).Some?
    ensures var d1 := RetimeFor(d, seat, now, duration, watchdog);
      && OnlySeatReclocked(d, d1, seat, now)
      && forall i :: 0 <= i < |d1.entries| && d1.entries[i].seat == seat ==>
           d1.entries[i].duration == duration && d1.entries[i].watchdog == watchdog
  {
    hide Sound;
    RecomputeKeepsEntries(d.(entries := d.entries[EntryIndex(d.entries, seat).value :=
      Retimed(d.entries[EntryIndex(d.entries, seat).value], now, duration, watchdog)]));
  }

  lemma RecomputeKeepsEntries(d: DecisionState)
    ensures RecomputeTiming(d).entries == d.entries && RecomputeTiming(d).id == d.id
    ensures RecomputeTiming(d).kind == d.kind && RecomputeTiming(d).closed == d.closed
  {
  }

  /** A seat is asked in the open window, by the entry at `i`. */
  predicate AskedAt(m: MatchState, seat: Seat, i: nat)
    requires m.decision.Some? && i < |m.decision.value.entries|
  {
    m.decision.value.entries[i].seat == seat && m.decision.value.entries[i].actions != []
  }

  predicate Asked(m: MatchState, seat: Seat) {
    m.decision.Some? && exists i :: 0 <= i < |m.decision.value.entries| && AskedAt(m, seat, i)
  }

  predicate AskedWithoutLimit(m: MatchState, seat: Seat) {
    m.decision.Some?
    && exists i :: 0 <= i < |m.decision.value.entries|
         && AskedAt(m, seat, i) && m.decision.value.entries[i].deadline.None?
  }

  predicate AskedOnWatchdog(m: MatchState, seat: Seat) {
    m.decision.Some?
    && exists i :: 0 <= i < |m.decision.value.entries|
         && AskedAt(m, seat, i) && m.decision.value.entries[i].watchdog
  }

  lemma AskedIff(m: MatchState, seat: Seat)
    requires Fits(m)
    ensures Asked(m, seat) <==> InWindow(m, seat)
    ensures InWindow(m, seat) ==>
      var e := m.decision.value.entries[EntryIndex(m.decision.value.entries, seat).value];
      (AskedWithoutLimit(m, seat) <==> e.deadline.None?) && (AskedOnWatchdog(m, seat) <==> e.watchdog)
  {
    hide Sound;
    if m.decision.Some? {
      var entries := m.decision.value.entries;
      if Asked(m, seat) {
        var i :| 0 <= i < |entries| && AskedAt(m, seat, i);
        var k := EntryIndex(entries, seat).value;
        assert k == i;
      }
      if InWindow(m, seat) {
        var k := EntryIndex(entries, seat).value;
        forall i | 0 <= i < |entries| && entries[i].seat == seat
          ensures i == k
        {
        }
        assert AskedAt(m, seat, k);
      }
    }
  }

  /**
   * Leaving notes the absence and nothing else, except that a human who plays without a limit and is
   * being waited for gets the watchdog's time from now on.
   */
  lemma LeavingMeans(m: MatchState, seat: Seat, now: nat)
    requires Fits(m) && seat < m.mode.SeatCount()
    ensures var (m1, r) := Disconnect(m, seat, now);
      && r.Ok? && OnlySets(m.presence, m1.presence, seat, Disconnected)
      && m1.controllers == m.controllers && m1.status == m.status && m1.held == m.held
      && if m.timeControl.Unlimited? && m.players[seat].kind.Human? && m.controllers[seat].Interactive?
            && AskedWithoutLimit(m, seat) then
           && m.decision.Some? && m1.decision.Some?
           && OnlySeatReclocked(m.decision.value, m1.decision.value, seat, now)
           && forall i :: 0 <= i < |m1.decision.value.entries| && m1.decision.value.entries[i].seat == seat ==>
                m1.decision.value.entries[i].duration == Some(m.timing.watchdog)
                && m1.decision.value.entries[i].watchdog
         else m1.decision == m.decision
  {
    hide Sound, RetimeFor, OnlySeatReclocked, AskedWithoutLimit;
    AskedIff(m, seat);
    NotAskedNotWaited(m, seat);
    if InWindow(m, seat) {
      RetimedMeans(m.decision.value, m.mode.SeatCount(), seat, now, Some(m.timing.watchdog), true);
    }
  }

  lemma NotAskedNotWaited(m: MatchState, seat: Seat)
    ensures AskedWithoutLimit(m, seat) || AskedOnWatchdog(m, seat) ==> Asked(m, seat)
  {
  }

  /**
   * Coming back notes the presence. A seat played for the time being is the player's again, and if
   * it is being asked it gets the time its state calls for, from now on; so does a human on the
   * watchdog who plays without a limit. Nobody else's clock and no other controller changes.
   */
  lemma ComingBackMeans(m: MatchState, seat: Seat, now: nat)
    requires Fits(m) && seat < m.mode.SeatCount()
    ensures var (m1, r) := Reconnect(m, seat, now);
      && r.Ok? && SeatsFit(m1) && OnlySets(m.presence, m1.presence, seat, Connected)
      && m1.status == m.status && m1.held == m.held
      && OnlySets(m.controllers, m1.controllers, seat,
                  if m.controllers[seat].TemporaryAuto? then Interactive else m.controllers[seat])
      && if (m.controllers[seat].TemporaryAuto? && Asked(m, seat))
            || (!m.controllers[seat].TemporaryAuto? && m.timeControl.Unlimited? && m.players[seat].kind.Human?
                && AskedOnWatchdog(m, seat)) then
           && m.decision.Some? && m1.decision.Some?
           && OnlySeatReclocked(m.decision.value, m1.decision.value, seat, now)
           && forall i :: 0 <= i < |m1.decision.value.entries| && m1.decision.value.entries[i].seat == seat ==>
                SeatGets(m1, seat, m.decision.value.kind,
                         m1.decision.value.entries[i].duration, m1.decision.value.entries[i].watchdog)
         else m1.decision == m.decision
  {
    hide Sound, RetimeFor, OnlySeatReclocked, AskedOnWatchdog, Asked, DecisionTimingFor, SeatGets;
    AskedIff(m, seat);
    NotAskedNotWaited(m, seat);
    var m1 := m.(presence := m.presence[seat := Connected]);
    var m2 := m1.(controllers := m.controllers[seat := Interactive]);
    if InWindow(m, seat) {
      var kind := m.decision.value.kind;
      var (d1, w1) := DecisionTimingFor(m1, kind, seat);
      var (d2, w2) := DecisionTimingFor(m2, kind, seat);
      RetimedMeans(m.decision.value, m.mode.SeatCount(), seat, now, d1, w1);
      RetimedMeans(m.decision.value, m.mode.SeatCount(), seat, now, d2, w2);
      TimingGives(m1, kind, seat);
      TimingGives(m2, kind, seat);
      SeatGetsBySeats(m1, Reconnect(m, seat, now).0, kind, seat, d1, w1);
      SeatGetsBySeats(m2, Reconnect(m, seat, now).0, kind, seat, d2, w2);
    }
  }

  lemma SeatGetsBySeats(m: MatchState, m1: MatchState, kind: DecisionKind, seat: nat, duration: Option<nat>,
                        watchdog: bool)
    requires SeatsFit(m) && SeatsFit(m1) && seat < |m.players| && SeatGets(m, seat, kind, duration, watchdog)
    ensures SameSeats(m, m1) ==> SeatGets(m1, seat, kind, duration, watchdog)
  {
  }

  /** A seat left to the computer for good is just that; the open window is gone, so it is asked anew. */
  lemma LeavingForGoodMeans(m: MatchState, seat: Seat)
    requires Fits(m) && seat < m.mode.SeatCount()
    ensures var (m1, r) := SetPermanentAuto(m, seat);
      && r.Ok? && OnlySets(m.controllers, m1.controllers, seat, PermanentAuto)
      && m1.decision.None? && m1.presence == m.presence && m1.status == m.status && m1.held == m.held
  {
  }

  /** Seats the table does not have are refused, and nothing happens. */
  lemma StrangersAreRefused(m: MatchState, seat: Seat, now: nat, env: Env)
    requires Fits(m) && EnvFits(m.mode, env) && seat >= m.mode.SeatCount()
    ensures Disconnect(m, seat, now) == (m, Err(InvalidSeat(seat)))
    ensures Reconnect(m, seat, now) == (m, Err(InvalidSeat(seat)))
    ensures SetPermanentAuto(m, seat) == (m, Err(InvalidSeat(seat)))
    ensures LegalActions(m, env, seat) == (m, Err(InvalidSeat(seat)))
  {
  }

  // ----- Listing and answering --------------------------------------------------------------------------

  /** Why a match takes no decisions just now, if it takes none. */
  predicate Refuses(m: MatchState, e: MatchError) {
    if m.held.Some? then e == ResultsPending
    else if m.status.Aborted? then e == MatchAborted(m.status.reason)
    else m.status.Completed? && e == Finished
  }

  predicate Takes(m: MatchState) { m.held.None? && m.status.Running? }

  /** Listing answers with the engine's list while the match takes decisions, and with none while a hand is held. */
  lemma ListingMeans(m: MatchState, env: Env, seat: Seat)
    requires Fits(m) && EnvFits(m.mode, env) && seat < m.mode.SeatCount()
    ensures var (m1, r) := LegalActions(m, env, seat);
      && (m.held.Some? ==> m1 == m && r == Ok([]))
      && (m.held.None? && !m.status.Running? ==> m1 == m && r.Err? && Refuses(m, r.error))
      && (Takes(m) && env.legal[seat].Ok? ==> m1 == m && r == Ok(env.legal[seat].value))
      && (Takes(m) && env.legal[seat].Err? ==>
            m1 == m.(status := Aborted(env.legal[seat].error)) && r == Err(MatchAborted(env.legal[seat].error)))
  {
  }

  /** Applying directly needs a match that takes decisions and an action the engine lists for the seat. */
  lemma ApplyingMeans(m: MatchState, env: Env, seat: Seat, action: GameAction)
    requires Fits(m) && EnvFits(m.mode, env)
    ensures var (m1, r) := ApplyDirect(m, env, seat, action);
      && (!Takes(m) ==> m1 == m && r.Err? && Refuses(m, r.error))
      && (Takes(m) && seat >= m.mode.SeatCount() ==> m1 == m && r == Err(InvalidSeat(seat)))
      && (Takes(m) && seat < m.mode.SeatCount() ==>
            && (env.legal[seat].Err? ==>
                  m1 == m.(status := Aborted(env.legal[seat].error)) && r == Err(MatchAborted(env.legal[seat].error)))
            && (env.legal[seat].Ok? && action !in env.legal[seat].value ==> m1 == m && r == Err(IllegalAction(seat)))
            && (env.legal[seat].Ok? && action in env.legal[seat].value ==>
                  (m1, r) == FinishActions(m.(decision := None), env.applied)))
  {
    hide FinishActions;
  }

  /** An engine that refuses aborts the match with its reason. */
  lemma RefusalAborts(m: MatchState, error: string)
    requires SeatsFit(m) && m.held.None?
    ensures FinishActions(m, Err(error)) == (m.(status := Aborted(error)), Err(MatchAborted(error)))
  {
  }

  /** A step that resolves a window answers with that window's id, its answers, and what became public. */
  predicate AnswersWith(r: DecisionResult, d: DecisionState, shown: seq<GameEvent>) {
    && r.ResolvedWith? && r.decisionId == d.id && r.events == shown && |r.actions| == |d.entries|
    && forall i :: 0 <= i < |d.entries| ==>
         && r.actions[i].seat == d.entries[i].seat && d.entries[i].submitted == Some(r.actions[i].actionId)
         && r.actions[i].timedOut == d.entries[i].timedOut
         && DecisionAction(r.actions[i].actionId, r.actions[i].action) in d.entries[i].actions
  }

  lemma ResolvingAnswers(m: MatchState, d: DecisionState, resolution: DecisionResolution, env: Env)
    requires Fits(m) && EnvFits(m.mode, env) && Answered(d.entries) && resolution == AcceptedResolution(d)
    requires ResolveActions(m, resolution, env).1.Ok?
    ensures var (m1, r) := ResolveActions(m, resolution, env);
      m1.events == m.events + (if r.value.ResolvedWith? then r.value.events else [])
      && AnswersWith(r.value, d, if r.value.ResolvedWith? then r.value.events else [])
  {
    hide FinishActions;
    ReplyIsShown(m.(decision := None), env.applied);
    forall i | 0 <= i < |d.entries|
      ensures var a := ResolvedOf(d.entries[i]);
        && a.seat == d.entries[i].seat && d.entries[i].submitted == Some(a.actionId)
        && a.timedOut == d.entries[i].timedOut && DecisionAction(a.actionId, a.action) in d.entries[i].actions
    {
    }
  }

  /** Whatever a reply answers with is exactly what the public log grew by. */
  lemma ReplyIsShown(m: MatchState, applied: Result<EngineOutcome, string>)
    requires SeatsFit(m) && (applied.Ok? ==> OutcomeFits(m.mode, applied.value))
    ensures var (m1, r) := FinishActions(m, applied); r.Ok? ==> m1.events == m.events + r.value
  {
    hide BuildHold, BuiltResult, ResultValid;
  }

  /** The last answer of a window resolves it: the submission's reply lists every seat's choice. */
  lemma LastAnswerResolves(m: MatchState, env: Env, seat: Seat, decisionId: DecisionId, actionId: ActionId)
    requires Fits(m) && EnvFits(m.mode, env) && m.decision.Some?
    requires SubmitAction(m, env, seat, decisionId, actionId).1.Ok?
    ensures var (m1, r) := SubmitAction(m, env, seat, decisionId, actionId);
      var d := Submit(m.decision.value, seat, actionId, env.now).0;
      && decisionId == m.decision.value.id
      && if d.closed then m.events <= m1.events && AnswersWith(r.value, d, m1.events[|m.events|..])
         else r == Ok(Waiting(m.decision.value.id)) && m1 == m.(decision := Some(d))
  {
    hide OpenWindow, CurrentDecision, ResolveActions, Sound, AnswersWith;
    SubmitPhaseFits(m, env, seat, decisionId, actionId);
    OpenStaysOpen(m, env);
    OpenWindowIsSound(m.decision.value, m.mode.SeatCount());
    var d := Submit(m.decision.value, seat, actionId, env.now).0;
    if d.closed {
      ClosedIsAnswered(m.decision.value, seat, actionId, env.now);
      ResolvingAnswers(m.(decision := None), d, AcceptedResolution(d), env);
    }
  }

  lemma OpenWindowIsSound(d: DecisionState, n: nat)
    requires OpenWindow(d, n)
    ensures Sound(d) && !d.closed
  {
  }

  lemma ClosedIsAnswered(d: DecisionState, seat: Seat, id: ActionId, now: nat)
    requires Sound(d) && !d.closed && Submit(d, seat, id, now).0.closed
    ensures Answered(Submit(d, seat, id, now).0.entries)
  {
    SubmitKeeps(d, seat, id, now);
  }

  lemma OpenStaysOpen(m: MatchState, env: Env)
    requires Fits(m) && EnvFits(m.mode, env) && m.decision.Some?
    ensures EnsureRunning(m).None? ==> CurrentDecision(m, env) == (m, Ok(m.decision))
  {
    hide OpenWindow, OpenDecision, OffersUpTo, KindOf;
  }

  // ----- The beginning of a match -------------------------------------------------------------------------

  /**
   * A new match runs with everyone present and nothing open, held or settled; its deal is public and
   * journalled. Built-in bots are the computer's for good, everybody else plays for themselves.
   */
  lemma NewMatchMeans(mode: GameMode, players: seq<Participant>, initial: seq<GameEvent>, timeControl: TimeControl,
                      timing: TimingConfig)
    requires RosterValid(mode, players)
    ensures var m := Start(mode, players, initial, timeControl, timing).m;
      && m.mode == mode && m.players == players && m.status.Running? && m.events == initial
      && m.journalEventCount == |initial| && m.persistenceEvents == []
      && m.held.None? && m.decision.None? && m.lastSettlementScores.None?
      && m.timeControl == timeControl && m.timing == timing
      && |m.presence| == |m.controllers| == |players|
      && forall i :: 0 <= i < |players| ==>
           && m.presence[i].Connected?
           && (players[i].kind.BuiltInBot? ==> m.controllers[i].PermanentAuto?)
           && (!players[i].kind.BuiltInBot? ==> m.controllers[i].Interactive?)
  {
  }
}
