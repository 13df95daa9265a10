// When the computer takes over a seat: an absent player who let the clock run out, and nobody else.

module Takeovers {
  import opened Wrappers
  import opened Domain
  import opened DecisionSpec
  import opened Results
  import opened MatchSpec
  import opened Clocks
  import opened WindowOpening

  /** At this moment the seat has run out of time, or had already: it is asked, and has not answered itself. */
  predicate OutOfTime(entries: seq<DecisionSeat>, seat: nat, now: nat) {
    exists k :: 0 <= k < |entries| && entries[k].seat == seat && EntryOut(entries[k], now)
  }

  predicate EntryOut(e: DecisionSeat, now: nat) {
    e.timedOut || (e.submitted.None? && e.deadline.Some? && e.deadline.value <= now)
  }

  /** Played for the time being: interactive so far, away, and out of time. */
  predicate TakenOver(m: MatchState, entries: seq<DecisionSeat>, seat: nat, now: nat)
    requires SeatsFit(m) && seat < |m.players|
  {
    m.controllers[seat].Interactive? && m.presence[seat].Disconnected? && OutOfTime(entries, seat, now)
  }

  lemma EntryTimesOut(d: DecisionState, now: nat, k: nat)
    requires Sound(d) && !d.closed && k < |d.entries|
    ensures var d1 := ResolveAt(d, now).0;
      |d1.entries| == |d.entries| && d1.entries[k].seat == d.entries[k].seat
      && (d1.entries[k].timedOut <==> EntryOut(d.entries[k], now))
  {
    hide Sound;
  }

  lemma SeatTimesOut(d: DecisionState, n: nat, now: nat, seat: Seat)
    requires OpenWindow(d, n)
    ensures TimedOutSeat(ResolveAt(d, now).0, seat) <==> OutOfTime(d.entries, seat, now)
  {
    hide Sound, ResolveAt, EntryOut;
    var d1 := ResolveAt(d, now).0;
    forall k | 0 <= k < |d.entries|
      ensures |d1.entries| == |d.entries| && d1.entries[k].seat == d.entries[k].seat
      ensures d1.entries[k].timedOut <==> EntryOut(d.entries[k], now)
    {
      EntryTimesOut(d, now, k);
    }
    EntryTimesOut(d, now, 0);
    if OutOfTime(d.entries, seat, now) {
      var k :| 0 <= k < |d.entries| && d.entries[k].seat == seat && EntryOut(d.entries[k], now);
      var j := EntryIndex(d1.entries, seat).value;
      assert d.entries[j].seat == d.entries[k].seat;
    }
  }

  /** The window a timeout looks at: the open one, or the one it opens. */
  function WindowFor(m: MatchState, env: Env): Option<DecisionState>
    requires Fits(m) && EnvFits(m.mode, env)
  {
    CurrentDecision(m, env).0.decision
  }

  lemma OpenIsWindow(m: MatchState, env: Env)
    requires Fits(m) && EnvFits(m.mode, env) && m.held.None? && m.status.Running?
    ensures m.decision.Some? ==> WindowFor(m, env) == m.decision && CurrentDecision(m, env).1.Ok?
  {
    hide OpenWindow, OpenDecision, OffersUpTo, KindOf;
  }

  /**
   * A timeout on a running match takes over exactly the seats whose interactive player is away and
   * out of time in the window at hand, and leaves every other controller alone, whether or not the
   * window resolves, and whatever the engine then makes of it.
   */
  lemma TimeoutsTakeOver(m: MatchState, env: Env, seat: Seat)
    requires Fits(m) && EnvFits(m.mode, env) && m.held.None? && m.status.Running?
    requires CurrentDecision(m, env).1.Ok? && WindowFor(m, env).Some? && seat < |m.players|
    ensures var m1 := ResolveExpired(m, env).0;
      |m1.controllers| == |m.controllers|
      && m1.controllers[seat] ==
           if TakenOver(m, WindowFor(m, env).value.entries, seat, env.now) then TemporaryAuto else m.controllers[seat]
  {
    hide OpenWindow, CurrentDecision, ResolveAt, TimedOutSeat, FinishActions, OutOfTime;
    OpeningFits(m, env);
    OpeningKeepsSeats(m, env);
    ExpirePhaseFits(m, env);
    var d := WindowFor(m, env).value;
    SeatTimesOut(d, m.mode.SeatCount(), env.now, seat);
    ResolvingKeepsControllers(m, env);
  }

  lemma ResolvingKeepsControllers(m: MatchState, env: Env)
    requires Fits(m) && EnvFits(m.mode, env)
    ensures ResolveExpired(m, env).0.controllers == ExpirePhase(m, env).0.controllers
  {
    hide OpenWindow, ExpirePhase, FinishActions;
    ExpirePhaseFits(m, env);
    var m1 := ExpirePhase(m, env).0;
    FinishKeepsControllers(m1.(decision := None), env.applied);
    assert m1.(decision := None).(decision := None) == m1.(decision := None);
  }

  lemma FinishKeepsControllers(m: MatchState, applied: Result<EngineOutcome, string>)
    requires SeatsFit(m) && (applied.Ok? ==> OutcomeFits(m.mode, applied.value))
    ensures FinishActions(m, applied).0.controllers == m.controllers
  {
    hide BuildHold, BuiltResult, ResultValid;
  }

  /** A seat the computer plays gets no time in the next window: it is due as soon as it is asked. */
  lemma TakenOverSeatsAreDue(m: MatchState, env: Env, d: DecisionState, k: nat)
    requires Fits(m) && EnvFits(m.mode, env) && OpenedFor(m, env, d) && k < |d.entries|
    requires d.entries[k].seat < |m.controllers| && !m.controllers[d.entries[k].seat].Interactive?
    ensures d.entries[k].duration == Some(0) && d.entries[k].deadline == Some(env.openedAt)
    ensures env.now >= env.openedAt ==> Due(d.entries[k], env.now)
  {
    hide Fits, OpenedFor;
    NewWindowsClocks(m, env, d, k);
  }
}
