// Seats, clocks and identifiers over whole runs of the match machine.

module Clocks {
  import opened Wrappers
  import opened Domain
  import opened DecisionSpec
  import opened Results
  import opened Projection
  import opened MatchSpec
  import opened MatchRuns

  // ----- Without a time limit, a clock runs exactly for the absent ---------------------

  /** An interactive human in the window is on the watchdog exactly while disconnected. */
  predicate ClockFits(m: MatchState, e: DecisionSeat)
    requires SeatsFit(m) && e.seat < |m.players|
  {
    m.players[e.seat].kind.Human? && m.controllers[e.seat].Interactive? ==>
      && (e.deadline.Some? <==> m.presence[e.seat].Disconnected?)
      && (e.watchdog <==> m.presence[e.seat].Disconnected?)
  }

  predicate EntriesClocked(m: MatchState, entries: seq<DecisionSeat>)
    requires SeatsFit(m)
  {
    forall i :: 0 <= i < |entries| ==> entries[i].seat < |m.players| && ClockFits(m, entries[i])
  }

  predicate UnlimitedClocks(m: MatchState)
    requires SeatsFit(m)
  {
    m.timeControl.Unlimited? && m.decision.Some? ==> EntriesClocked(m, m.decision.value.entries)
  }

  /** Only an absent seat is played automatically for a while. */
  predicate AutoFits(m: MatchState)
    requires SeatsFit(m)
  {
    forall s :: 0 <= s < |m.controllers| && m.controllers[s].TemporaryAuto? ==> m.presence[s].Disconnected?
  }

  predicate SeatsRun(m: MatchState) { Fits(m) && UnlimitedClocks(m) && AutoFits(m) }

  /** Seats and clock settings as they were. */
  predicate SameSeats(m: MatchState, m1: MatchState) {
    && m1.mode == m.mode && m1.players == m.players && m1.presence == m.presence
    && m1.controllers == m.controllers && m1.timeControl == m.timeControl && m1.timing == m.timing
  }

  predicate OfferTimed(m: MatchState, kind: DecisionKind, offer: SeatOffer)
    requires SeatsFit(m)
  {
    && offer.seat < |m.players|
    && (offer.duration, offer.watchdog) == DecisionTimingFor(m, kind, offer.seat)
  }

  predicate OffersTimed(m: MatchState, kind: DecisionKind, offers: seq<SeatOffer>)
    requires SeatsFit(m)
  {
    forall i :: 0 <= i < |offers| ==> OfferTimed(m, kind, offers[i])
  }

  lemma {:induction false} OffersCarryTimings(m: MatchState, legal: seq<Result<seq<GameAction>, string>>,
                                              kind: DecisionKind, n: nat)
    requires SeatsFit(m) && |legal| == |m.players| && AllLegal(legal) && n <= |legal|
    ensures OffersTimed(m, kind, OffersUpTo(m, legal, kind, n))
  {
    hide DecisionTimingFor;
    if n > 0 {
      OffersCarryTimings(m, legal, kind, n - 1);
      var (duration, watchdog) := DecisionTimingFor(m, kind, n - 1);
      var last := SeatOffer(n - 1, NameActions(legal[n - 1].value, m.nextActionId + CountActions(legal[..n - 1])),
                            duration, watchdog);
      assert OfferTimed(m, kind, last);
    }
  }

  lemma OpenedEntryIsClocked(m: MatchState, kind: DecisionKind, offer: SeatOffer, openedAt: nat)
    requires SeatsFit(m) && m.timeControl.Unlimited? && OfferTimed(m, kind, offer)
    requires OpenEntry(offer, openedAt).Ok?
    ensures OpenEntry(offer, openedAt).value.seat < |m.players|
    ensures ClockFits(m, OpenEntry(offer, openedAt).value)
  {
  }

  /** A fresh window has every clock as the machine's timing says. */
  lemma FreshWindowIsClocked(m: MatchState, id: DecisionId, kind: DecisionKind,
                             legal: seq<Result<seq<GameAction>, string>>, openedAt: nat)
    requires SeatsFit(m) && m.timeControl.Unlimited? && |legal| == |m.players| && AllLegal(legal)
    requires var offers := OffersUpTo(m, legal, kind, |legal|); OpenDecision(id, kind, offers, openedAt).Ok?
    ensures var offers := OffersUpTo(m, legal, kind, |legal|);
      EntriesClocked(m, OpenDecision(id, kind, offers, openedAt).value.entries)
  {
    hide ClockFits, OpenEntry, OfferTimed, OffersUpTo, OpenDecision, Sound;
    var offers := OffersUpTo(m, legal, kind, |legal|);
    OffersCarryTimings(m, legal, kind, |legal|);
    OpenDecisionSound(id, kind, offers, openedAt);
    var entries := OpenDecision(id, kind, offers, openedAt).value.entries;
    forall i | 0 <= i < |entries|
      ensures entries[i].seat < |m.players| && ClockFits(m, entries[i])
    {
      OpenedEntryIsClocked(m, kind, offers[i], openedAt);
    }
  }

  lemma OpeningKeepsSeats(m: MatchState, env: Env)
    requires Fits(m) && EnvFits(m.mode, env)
    ensures var m1 := CurrentDecision(m, env).0;
      && SameSeats(m, m1)
      && (m1.decision == m.decision || (m.decision.None? && m1.decision.Some? && AllLegal(env.legal) &&
            var offers := OffersUpTo(m, env.legal, KindOf(env.legal), |env.legal|);
            OpenDecision(DecisionName(m.nextDecisionId), KindOf(env.legal), offers, env.openedAt)
              == Ok(m1.decision.value)))
  {
    hide OpenWindow, OpenDecision, KindOf, OffersUpTo;
  }

  lemma OpeningIsClocked(m: MatchState, env: Env)
    requires SeatsRun(m) && EnvFits(m.mode, env)
    ensures SeatsRun(CurrentDecision(m, env).0) && SameSeats(m, CurrentDecision(m, env).0)
  {
    hide OpenWindow, ClockFits, OpenDecision, KindOf, CurrentDecision, OffersUpTo;
    OpeningFits(m, env);
    OpeningKeepsSeats(m, env);
    var m1 := CurrentDecision(m, env).0;
    if m1.timeControl.Unlimited? && m1.decision.Some? {
      if m1.decision != m.decision {
        FreshWindowIsClocked(m, DecisionName(m.nextDecisionId), KindOf(env.legal), env.legal, env.openedAt);
      }
      SameSeatsSameClocks(m, m1, m1.decision.value.entries);
    }
  }

  lemma SameSeatsSameClocks(m: MatchState, m1: MatchState, entries: seq<DecisionSeat>)
    requires SeatsFit(m) && SameSeats(m, m1) && EntriesClocked(m, entries)
    ensures EntriesClocked(m1, entries)
  {
    forall i | 0 <= i < |entries|
      ensures entries[i].seat < |m1.players| && ClockFits(m1, entries[i])
    {
      assert ClockFits(m, entries[i]);
    }
  }

  /** Entries keep seat and clock. */
  predicate SameClocks(before: seq<DecisionSeat>, after: seq<DecisionSeat>) {
    && |after| == |before|
    && forall i :: 0 <= i < |before| ==>
         && after[i].seat == before[i].seat && after[i].deadline == before[i].deadline
         && after[i].watchdog == before[i].watchdog
  }

  lemma SubmittingKeepsClocks(d: DecisionState, seat: Seat, id: ActionId, now: nat)
    requires Sound(d)
    ensures SameClocks(d.entries, Submit(d, seat, id, now).0.entries)
  {
    hide AcceptedResolution, AllSubmitted, Sound, EntryIndex, ActionIndex, Due;
  }

  lemma ResolvingKeepsClocks(d: DecisionState, now: nat)
    requires Sound(d)
    ensures SameClocks(d.entries, ResolveAt(d, now).0.entries)
  {
    hide AcceptedResolution, AllSubmitted, Due;
  }

  /** A seat handed to the computer leaves fewer clocks to account for. */
  lemma ClockedStays(m: MatchState, m1: MatchState, before: seq<DecisionSeat>, after: seq<DecisionSeat>)
    requires SeatsFit(m) && SeatsFit(m1) && EntriesClocked(m, before) && SameClocks(before, after)
    requires m1.players == m.players && m1.presence == m.presence
    requires forall s :: 0 <= s < |m.controllers| && m1.controllers[s].Interactive? ==> m.controllers[s].Interactive?
    ensures EntriesClocked(m1, after)
  {
    forall i | 0 <= i < |after|
      ensures after[i].seat < |m1.players| && ClockFits(m1, after[i])
    {
      assert ClockFits(m, before[i]);
    }
  }

  lemma SubmitPhaseIsClocked(m: MatchState, env: Env, seat: Seat, decisionId: DecisionId, actionId: ActionId)
    requires SeatsRun(m) && EnvFits(m.mode, env)
    ensures var (m1, r) := SubmitPhase(m, env, seat, decisionId, actionId);
      && SeatsFit(m1) && SameSeats(m, m1)
      && ((r.Ok? && r.value.Resolved?) || SeatsRun(m1))
  {
    hide OpenWindow, Sound, CurrentDecision, Submit, ClockFits, SameClocks, EntriesClocked;
    OpeningIsClocked(m, env);
    SubmitPhaseFits(m, env, seat, decisionId, actionId);
    var m1 := CurrentDecision(m, env).0;
    if m1.decision.Some? {
      var d := m1.decision.value;
      assert Sound(d) by { WindowIsSound(d, m.mode.SeatCount()); }
      SubmittingKeepsClocks(d, seat, actionId, env.now);
      if m1.timeControl.Unlimited? {
        var d' := Submit(d, seat, actionId, env.now).0;
        ClockedStays(m1, m1.(decision := Some(d')), d.entries, d'.entries);
      }
    }
  }

  lemma WindowIsSound(d: DecisionState, n: nat)
    requires OpenWindow(d, n)
    ensures Sound(d)
  {
  }

  lemma ExpirePhaseIsClocked(m: MatchState, env: Env)
    requires SeatsRun(m) && EnvFits(m.mode, env)
    ensures var (m1, r) := ExpirePhase(m, env);
      && SeatsFit(m1) && AutoFits(m1)
      && ((r.Ok? && r.value.Some?) || SeatsRun(m1))
  {
    hide OpenWindow, Sound, CurrentDecision, ResolveAt, ClockFits, SameClocks, EntriesClocked, TimedOutSeat;
    OpeningIsClocked(m, env);
    ExpirePhaseFits(m, env);
    var m1 := CurrentDecision(m, env).0;
    if m1.decision.Some? {
      var d := m1.decision.value;
      assert Sound(d) by { WindowIsSound(d, m.mode.SeatCount()); }
      ResolvingKeepsClocks(d, env.now);
      var d' := ResolveAt(d, env.now).0;
      if m1.timeControl.Unlimited? {
        ClockedStays(m1, AutoStarted(m1.(decision := Some(d')), d'), d.entries, d'.entries);
      }
    }
  }

  // ----- Leaving and coming back ------------------------------------------------------

  /** Only `seat`'s clock may differ, and only `seat`'s presence and controller. */
  predicate OnlySeatChanges(m: MatchState, m1: MatchState, seat: Seat)
    requires SeatsFit(m) && SeatsFit(m1)
  {
    && m1.mode == m.mode && m1.players == m.players
    && forall s :: 0 <= s < |m.players| && s != seat ==>
         m1.presence[s] == m.presence[s] && m1.controllers[s] == m.controllers[s]
  }

  lemma SeatClockSettled(m: MatchState, m1: MatchState, seat: Seat, before: seq<DecisionSeat>, after: seq<DecisionSeat>)
    requires SeatsFit(m) && SeatsFit(m1) && OnlySeatChanges(m, m1, seat) && EntriesClocked(m, before)
    requires |after| == |before|
    requires forall i :: 0 <= i < |before| ==>
      && after[i].seat == before[i].seat
      && (before[i].seat != seat ==> after[i] == before[i])
      && (before[i].seat == seat && seat < |m1.players| ==> ClockFits(m1, after[i]))
    ensures EntriesClocked(m1, after)
  {
    forall i | 0 <= i < |after|
      ensures after[i].seat < |m1.players| && ClockFits(m1, after[i])
    {
      assert ClockFits(m, before[i]);
    }
  }

  lemma WindowEntryOf(d: DecisionState, n: nat, seat: Seat, i: nat)
    requires OpenWindow(d, n) && i < |d.entries| && d.entries[i].seat == seat
    ensures EntryIndex(d.entries, seat) == Some(i) && d.entries[i].actions != []
  {
    assert SoundEntry(d.entries[i]);
  }

  /** Retiming a seat touches that seat's entry alone. */
  lemma RetimeTouchesOnly(d: DecisionState, n: nat, seat: Seat, openedAt: nat, duration: Option<nat>, watchdog: bool)
    requires OpenWindow(d, n)
    ensures var d1 := RetimeFor(d, seat, openedAt, duration, watchdog);
      && |d1.entries| == |d.entries|
      && forall i :: 0 <= i < |d.entries| ==>
           d1.entries[i] == if d.entries[i].seat == seat then Retimed(d.entries[i], openedAt, duration, watchdog)
                            else d.entries[i]
  {
    hide Sound;
  }

  lemma DisconnectEntry(m: MatchState, seat: Seat, now: nat, i: nat)
    requires SeatsRun(m) && SeatInMatch(m, seat) && m.timeControl.Unlimited?
    requires m.decision.Some? && i < |m.decision.value.entries|
    ensures var m1 := Disconnect(m, seat, now).0; var before := m.decision.value.entries;
      && SeatsFit(m1) && m1.players == m.players && m1.decision.Some?
      && |m1.decision.value.entries| == |before|
      && m1.decision.value.entries[i].seat == before[i].seat
      && (before[i].seat != seat ==> m1.decision.value.entries[i] == before[i])
      && (before[i].seat == seat ==> ClockFits(m1, m1.decision.value.entries[i]))
  {
    hide OpenWindow, RetimeFor;
    var d := m.decision.value;
    assert ClockFits(m, d.entries[i]);
    if d.entries[i].seat == seat { WindowEntryOf(d, m.mode.SeatCount(), seat, i); }
    RetimeTouchesOnly(d, m.mode.SeatCount(), seat, now, Some(m.timing.watchdog), true);
  }

  lemma DisconnectIsClocked(m: MatchState, seat: Seat, now: nat)
    requires SeatsRun(m)
    ensures SeatsRun(Disconnect(m, seat, now).0)
  {
    hide OpenWindow, RetimeFor, ClockFits;
    SeatCallFits(m, CallDisconnect(seat, now));
    var m1 := Disconnect(m, seat, now).0;
    if SeatInMatch(m, seat) && m.timeControl.Unlimited? && m.decision.Some? {
      var before, after := m.decision.value.entries, m1.decision.value.entries;
      if before != [] {
        DisconnectEntry(m, seat, now, 0);
        forall i | 0 <= i < |before|
          ensures after[i].seat == before[i].seat
          ensures before[i].seat != seat ==> after[i] == before[i]
          ensures before[i].seat == seat ==> ClockFits(m1, after[i])
        {
          DisconnectEntry(m, seat, now, i);
        }
        SeatClockSettled(m, m1, seat, before, after);
      }
    }
  }

  /** Coming back from automatic play. */
  lemma ReturningEntry(m: MatchState, seat: Seat, now: nat, i: nat)
    requires SeatsRun(m) && SeatInMatch(m, seat) && m.timeControl.Unlimited?
    requires m.decision.Some? && i < |m.decision.value.entries|
    requires m.controllers[seat].TemporaryAuto?
    ensures var m1 := Reconnect(m, seat, now).0; var before := m.decision.value.entries;
      && SeatsFit(m1) && m1.players == m.players && m1.decision.Some?
      && |m1.decision.value.entries| == |before|
      && m1.decision.value.entries[i].seat == before[i].seat
      && (before[i].seat != seat ==> m1.decision.value.entries[i] == before[i])
      && (before[i].seat == seat ==> ClockFits(m1, m1.decision.value.entries[i]))
  {
    hide OpenWindow, RetimeFor, ClockFits;
    var d := m.decision.value;
    var m2 := m.(presence := m.presence[seat := Connected], controllers := m.controllers[seat := Interactive]);
    var (duration, watchdog) := DecisionTimingFor(m2, d.kind, seat);
    RetimeTouchesOnly(d, m.mode.SeatCount(), seat, now, duration, watchdog);
    if d.entries[i].seat == seat {
      WindowEntryOf(d, m.mode.SeatCount(), seat, i);
      RetimedIsClocked(Reconnect(m, seat, now).0, d.kind, d.entries[i], now);
    }
  }

  lemma RetimedIsClocked(m: MatchState, kind: DecisionKind, e: DecisionSeat, now: nat)
    requires SeatsFit(m) && e.seat < |m.players| && m.timeControl.Unlimited?
    ensures var (duration, watchdog) := DecisionTimingFor(m, kind, e.seat);
      ClockFits(m, Retimed(e, now, duration, watchdog))
  {
  }

  /** Coming back without having been taken over. */
  lemma StayingEntry(m: MatchState, seat: Seat, now: nat, i: nat)
    requires SeatsRun(m) && SeatInMatch(m, seat) && m.timeControl.Unlimited?
    requires m.decision.Some? && i < |m.decision.value.entries|
    requires !m.controllers[seat].TemporaryAuto?
    ensures var m1 := Reconnect(m, seat, now).0; var before := m.decision.value.entries;
      && SeatsFit(m1) && m1.players == m.players && m1.decision.Some?
      && |m1.decision.value.entries| == |before|
      && m1.decision.value.entries[i].seat == before[i].seat
      && (before[i].seat != seat ==> m1.decision.value.entries[i] == before[i])
      && (before[i].seat == seat ==> ClockFits(m1, m1.decision.value.entries[i]))
  {
    hide OpenWindow, RetimeFor;
    var d := m.decision.value;
    assert ClockFits(m, d.entries[i]);
    var m1 := m.(presence := m.presence[seat := Connected]);
    var (duration, watchdog) := DecisionTimingFor(m1, d.kind, seat);
    RetimeTouchesOnly(d, m.mode.SeatCount(), seat, now, duration, watchdog);
    if d.entries[i].seat == seat {
      WindowEntryOf(d, m.mode.SeatCount(), seat, i);
      RetimedIsClocked(m1, d.kind, d.entries[i], now);
    }
  }

  lemma ReconnectEntry(m: MatchState, seat: Seat, now: nat, i: nat)
    requires SeatsRun(m) && SeatInMatch(m, seat) && m.timeControl.Unlimited?
    requires m.decision.Some? && i < |m.decision.value.entries|
    ensures var m1 := Reconnect(m, seat, now).0; var before := m.decision.value.entries;
      && SeatsFit(m1) && m1.players == m.players && m1.decision.Some?
      && |m1.decision.value.entries| == |before|
      && m1.decision.value.entries[i].seat == before[i].seat
      && (before[i].seat != seat ==> m1.decision.value.entries[i] == before[i])
      && (before[i].seat == seat ==> ClockFits(m1, m1.decision.value.entries[i]))
  {
    hide OpenWindow, EntriesClocked, Reconnect, ClockFits;
    if m.controllers[seat].TemporaryAuto? {
      ReturningEntry(m, seat, now, i);
    } else {
      StayingEntry(m, seat, now, i);
    }
  }

  lemma ReconnectIsClocked(m: MatchState, seat: Seat, now: nat)
    requires SeatsRun(m)
    ensures SeatsRun(Reconnect(m, seat, now).0)
  {
    hide OpenWindow, RetimeFor, ClockFits, DecisionTimingFor, EntryIndex, Sound;
    SeatCallFits(m, CallReconnect(seat, now));
    var m1 := Reconnect(m, seat, now).0;
    if SeatInMatch(m, seat) && m.timeControl.Unlimited? && m.decision.Some? {
      var before, after := m.decision.value.entries, m1.decision.value.entries;
      if before != [] {
        ReconnectEntry(m, seat, now, 0);
        forall i | 0 <= i < |before|
          ensures after[i].seat == before[i].seat
          ensures before[i].seat != seat ==> after[i] == before[i]
          ensures before[i].seat == seat ==> ClockFits(m1, after[i])
        {
          ReconnectEntry(m, seat, now, i);
        }
        SeatClockSettled(m, m1, seat, before, after);
      }
    }
  }

  /** Under no time limit a repeated disconnect changes nothing, so it never extends a deadline. */
  lemma RepeatedDisconnectIsNothing(m: MatchState, seat: Seat, now: nat)
    requires SeatsRun(m) && SeatInMatch(m, seat) && m.presence[seat].Disconnected?
    ensures Disconnect(m, seat, now).0 == m
  {
    hide OpenWindow, Sound, RetimeFor;
    assert m.presence[seat := Disconnected] == m.presence;
    if m.decision.Some? {
      var k := EntryIndex(m.decision.value.entries, seat);
      if k.Some? && m.timeControl.Unlimited? { assert ClockFits(m, m.decision.value.entries[k.value]); }
    }
  }

  // ----- Every call ------------------------------------------------------------------------

  lemma FinishKeepsSeats(m: MatchState, applied: Result<EngineOutcome, string>)
    requires SeatsFit(m) && (applied.Ok? ==> OutcomeFits(m.mode, applied.value)) && m.decision.None?
    ensures SameSeats(m, FinishActions(m, applied).0) && FinishActions(m, applied).0.decision.None?
  {
    hide BuildHold, ResultValid, OutcomeFits;
  }

  lemma PrepareIsClocked(m: MatchState, c: Call)
    requires SeatsRun(m) && CallFits(m.mode, c)
    ensures SeatsRun(Prepare(m, c).0)
  {
    hide OpenWindow, ClockFits, EntriesClocked, CurrentDecision, SubmitPhase, ExpirePhase, Disconnect, Reconnect;
    hide Project;
    PrepareFits(m, c);
    match c {
      case CallCurrentDecision(env) => OpeningIsClocked(m, env);
      case CallSubmit(env, seat, decisionId, actionId) => SubmitPhaseIsClocked(m, env, seat, decisionId, actionId);
      case CallResolveExpired(env) => ExpirePhaseIsClocked(m, env);
      case CallDisconnect(seat, now) => DisconnectIsClocked(m, seat, now);
      case CallReconnect(seat, now) => ReconnectIsClocked(m, seat, now);
      case CallApply(env, seat, action) => QuietKeepsClocks(m, c);
      case CallLegalActions(_, _) => QuietKeepsClocks(m, c);
      case CallProject(env, table, a) => ProjectIsClocked(m, env, table, a);
      case CallPublishStep(_) => QuietKeepsClocks(m, c);
      case CallRelease => QuietKeepsClocks(m, c);
      case CallTakePersistence => QuietKeepsClocks(m, c);
      case _ =>
    }
  }

  /** Calls that touch neither seats nor clocks, at most closing the window. */
  lemma QuietKeepsClocks(m: MatchState, c: Call)
    requires SeatsRun(m) && CallFits(m.mode, c)
    requires c.CallApply? || c.CallLegalActions? || c.CallPublishStep? || c.CallRelease? || c.CallTakePersistence?
    ensures SeatsRun(Prepare(m, c).0)
  {
    hide OpenWindow, ClockFits;
    var m1 := Prepare(m, c).0;
    assert SameSeats(m, m1) && (m1.decision == m.decision || m1.decision.None?);
    if m1.timeControl.Unlimited? && m1.decision.Some? {
      SameSeatsSameClocks(m, m1, m1.decision.value.entries);
    }
  }

  lemma ProjectIsClocked(m: MatchState, env: Env, table: Result<TableState, string>, a: Audience)
    requires SeatsRun(m) && EnvFits(m.mode, env)
    ensures SeatsRun(Project(m, env, table, a).0)
  {
    hide Project, CurrentDecision, OpenWindow, EntriesClocked;
    OpeningIsClocked(m, env);
    ProjectingIsOpening(m, env, table, a);
    if table.Err? {
      AbortIsClocked(m, table.error);
      AbortIsClocked(CurrentDecision(m, env).0, table.error);
    }
  }

  lemma AbortIsClocked(m: MatchState, reason: string)
    requires SeatsRun(m)
    ensures SeatsRun(AbortForEngine(m, reason))
  {
    hide OpenWindow, ClockFits;
    if m.timeControl.Unlimited? && m.decision.Some? {
      SameSeatsSameClocks(m, AbortForEngine(m, reason), m.decision.value.entries);
    }
  }

  lemma StepIsClocked(w: World, c: Call)
    requires SeatsRun(w.m) && CallFits(w.m.mode, c)
    ensures SeatsRun(Step(w, c).m)
  {
    hide OpenWindow, EntriesClocked, Prepare, FinishActions, OutcomeFits;
    PrepareIsClocked(w.m, c);
    PrepareFits(w.m, c);
    var (m1, applied) := Prepare(w.m, c);
    if applied.Some? { FinishKeepsSeats(m1, applied.value); }
  }

  lemma StartIsClocked(mode: GameMode, players: seq<Participant>, initial: seq<GameEvent>, timeControl: TimeControl,
                       timing: TimingConfig)
    requires RosterValid(mode, players)
    ensures SeatsRun(Start(mode, players, initial, timeControl, timing).m)
  {
  }

  /**
   * In every reachable state with a window open and no time limit, an interactive human in it has
   * a deadline, and the watchdog flag, exactly while disconnected; and only absent seats are on
   * temporary automatic play.
   */
  lemma {:induction false} RunIsClocked(w: World, cs: seq<Call>)
    requires Inv(w) && CallsFit(w.m.mode, cs) && SeatsRun(w.m)
    ensures SeatsRun(Run(w, cs).m)
    decreases |cs|
  {
    if cs != [] {
      hide Inv, Step, CallFits, SeatsRun;
      StepKeepsInv(w, cs[0]);
      StepIsClocked(w, cs[0]);
      RunIsClocked(Step(w, cs[0]), cs[1..]);
    }
  }

  /** From a new machine on, whatever the calls. */
  lemma ReachableIsClocked(mode: GameMode, players: seq<Participant>, initial: seq<GameEvent>,
                           timeControl: TimeControl, timing: TimingConfig, cs: seq<Call>)
    requires RosterValid(mode, players) && CallsFit(mode, cs)
    ensures Inv(Start(mode, players, initial, timeControl, timing))
    ensures SeatsRun(Run(Start(mode, players, initial, timeControl, timing), cs).m)
  {
    hide Inv, SeatsRun;
    StartInv(mode, players, initial, timeControl, timing);
    StartIsClocked(mode, players, initial, timeControl, timing);
    RunIsClocked(Start(mode, players, initial, timeControl, timing), cs);
  }

  /** Once a seat is left to the computer for good, no call takes it back. */
  lemma PermanentAutoIsAbsorbing(w: World, c: Call, seat: nat)
    requires Fits(w.m) && CallFits(w.m.mode, c)
    requires seat < |w.m.controllers| && w.m.controllers[seat].PermanentAuto?
    ensures seat < |Step(w, c).m.controllers| && Step(w, c).m.controllers[seat].PermanentAuto?
  {
    hide OpenWindow, OpenDecision, KindOf, OffersUpTo, Submit, ResolveAt, RetimeFor, FinishActions, OutcomeFits;
    PrepareFits(w.m, c);
    var (m1, applied) := Prepare(w.m, c);
    if applied.Some? { FinishKeepsSeats(m1, applied.value); }
    PreparedStaysAuto(w.m, c, seat);
    hide Prepare;
  }

  lemma {:induction false} PermanentAutoLasts(w: World, cs: seq<Call>, seat: nat)
    requires Inv(w) && CallsFit(w.m.mode, cs)
    requires seat < |w.m.controllers| && w.m.controllers[seat].PermanentAuto?
    ensures var m1 := Run(w, cs).m; seat < |m1.controllers| && m1.controllers[seat].PermanentAuto?
    decreases |cs|
  {
    if cs != [] {
      StepKeepsInv(w, cs[0]);
      assert Fits(w.m);
      hide Inv, Step, CallFits, Fits;
      PermanentAutoIsAbsorbing(w, cs[0], seat);
      PermanentAutoLasts(Step(w, cs[0]), cs[1..], seat);
    }
  }

  lemma SubmitPhaseKeepsControllers(m: MatchState, env: Env, seat: Seat, decisionId: DecisionId, actionId: ActionId)
    requires Fits(m) && EnvFits(m.mode, env)
    ensures SubmitPhase(m, env, seat, decisionId, actionId).0.controllers == m.controllers
  {
    hide OpenWindow, Sound, CurrentDecision, Submit, EnvFits;
    OpeningKeepsSeats(m, env);
    OpeningFits(m, env);
  }

  lemma ExpirePhaseStaysAuto(m: MatchState, env: Env, seat: nat)
    requires Fits(m) && EnvFits(m.mode, env)
    requires seat < |m.controllers| && m.controllers[seat].PermanentAuto?
    ensures var m1 := ExpirePhase(m, env).0;
      seat < |m1.controllers| && m1.controllers[seat].PermanentAuto?
  {
    hide OpenWindow, Sound, CurrentDecision, ResolveAt, EnvFits, TimedOutSeat;
    OpeningKeepsSeats(m, env);
    OpeningFits(m, env);
  }

  lemma SeatCallStaysAuto(m: MatchState, c: Call, seat: nat)
    requires Fits(m) && (c.CallDisconnect? || c.CallReconnect?)
    requires seat < |m.controllers| && m.controllers[seat].PermanentAuto?
    ensures seat < |Prepare(m, c).0.controllers| && Prepare(m, c).0.controllers[seat].PermanentAuto?
  {
    hide OpenWindow, Sound, RetimeFor, InWindow, DecisionTimingFor;
  }

  lemma PreparedStaysAuto(m: MatchState, c: Call, seat: nat)
    requires Fits(m) && CallFits(m.mode, c)
    requires seat < |m.controllers| && m.controllers[seat].PermanentAuto?
    ensures seat < |Prepare(m, c).0.controllers| && Prepare(m, c).0.controllers[seat].PermanentAuto?
  {
    hide OpenWindow, CurrentDecision, SubmitPhase, ExpirePhase, Disconnect, Reconnect, Project;
    if c.CallCurrentDecision? {
      OpeningKeepsSeats(m, c.env);
    } else if c.CallProject? {
      OpeningKeepsSeats(m, c.env);
      ProjectingIsOpening(m, c.env, c.table, c.audience);
    } else if c.CallSubmit? {
      SubmitPhaseKeepsControllers(m, c.env, c.seat, c.decisionId, c.actionId);
    } else if c.CallResolveExpired? {
      ExpirePhaseStaysAuto(m, c.env, seat);
    } else if c.CallDisconnect? || c.CallReconnect? {
      SeatCallStaysAuto(m, c, seat);
    }
  }
}
