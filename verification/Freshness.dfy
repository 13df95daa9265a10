// Decision and action identifiers are never reused.

module Freshness {
  import opened Wrappers
  import opened Domain
  import opened DecisionSpec
  import opened Results
  import opened Projection
  import opened MatchSpec
  import opened MatchRuns

  lemma DecisionNamesDiffer(a: nat, b: nat)
    requires DecisionName(a) == DecisionName(b)
    ensures a == b
  {
    hide Decimal.Text;
    assert DecisionName(a)[1..] == Decimal.Text(a) && DecisionName(b)[1..] == Decimal.Text(b);
    Decimal.TextInjective(a, b);
  }

  lemma ActionNamesDiffer(a: nat, b: nat)
    requires ActionName(a) == ActionName(b)
    ensures a == b
  {
    hide Decimal.Text;
    assert ActionName(a)[1..] == Decimal.Text(a) && ActionName(b)[1..] == Decimal.Text(b);
    Decimal.TextInjective(a, b);
  }

  /** The two counters ids are issued from. */
  datatype Ids = Ids(decision: nat, action: nat)

  function IdsOf(m: MatchState): Ids { Ids(m.nextDecisionId, m.nextActionId) }

  predicate AtMost(a: Ids, b: Ids) { a.decision <= b.decision && a.action <= b.action }

  /** The id was issued while the counter went from `lo` up to `hi`. */
  ghost predicate DecisionIn(id: DecisionId, lo: nat, hi: nat) {
    exists k: nat :: lo <= k < hi && id == DecisionName(k)
  }

  ghost predicate ActionIn(id: ActionId, lo: nat, hi: nat) { exists k: nat :: lo <= k < hi && id == ActionName(k) }

  ghost predicate ActionsIn(actions: seq<DecisionAction>, lo: nat, hi: nat) {
    forall j :: 0 <= j < |actions| ==> ActionIn(actions[j].id, lo, hi)
  }

  ghost predicate EntriesIn(entries: seq<DecisionSeat>, lo: nat, hi: nat) {
    forall i :: 0 <= i < |entries| ==> ActionsIn(entries[i].actions, lo, hi)
  }

  /** Every id of a window was issued between two readings of the counters. */
  ghost predicate WindowIn(d: DecisionState, since: Ids, upto: Ids) {
    DecisionIn(d.id, since.decision, upto.decision) && EntriesIn(d.entries, since.action, upto.action)
  }

  /** Whatever window is open was issued since that reading, and below the counters as they stand. */
  ghost predicate FreshSince(m: MatchState, since: Ids) {
    AtMost(since, IdsOf(m)) && (m.decision.Some? ==> WindowIn(m.decision.value, since, IdsOf(m)))
  }

  /** Whatever window is open carries ids issued before the counters reached their values. */
  ghost predicate Issued(m: MatchState) { FreshSince(m, Ids(0, 0)) }

  // ----- A new window carries new ids -----------------------------------------------------

  ghost predicate OffersIn(offers: seq<SeatOffer>, lo: nat, hi: nat) {
    forall i :: 0 <= i < |offers| ==> ActionsIn(offers[i].actions, lo, hi)
  }

  lemma NamedActionsAreIn(actions: seq<GameAction>, first: nat, lo: nat, hi: nat)
    requires lo <= first && first + |actions| <= hi
    ensures ActionsIn(NameActions(actions, first), lo, hi)
  {
    hide ActionName;
    forall j | 0 <= j < |actions|
      ensures ActionIn(NameActions(actions, first)[j].id, lo, hi)
    {
      assert NameActions(actions, first)[j].id == ActionName(first + j);
    }
  }

  lemma ActionsWiden(actions: seq<DecisionAction>, lo: nat, hi: nat, lo': nat, hi': nat)
    requires ActionsIn(actions, lo, hi) && lo' <= lo && hi <= hi'
    ensures ActionsIn(actions, lo', hi')
  {
    hide ActionName;
    forall j | 0 <= j < |actions|
      ensures ActionIn(actions[j].id, lo', hi')
    {
      assert ActionIn(actions[j].id, lo, hi);
    }
  }

  lemma {:induction false} OffersAreIn(m: MatchState, legal: seq<Result<seq<GameAction>, string>>,
                                       kind: DecisionKind, n: nat)
    requires SeatsFit(m) && |legal| == |m.players| && AllLegal(legal) && n <= |legal|
    ensures AllLegal(legal[..n])
    ensures OffersIn(OffersUpTo(m, legal, kind, n), m.nextActionId, m.nextActionId + CountActions(legal[..n]))
  {
    hide ActionsIn, NameActions, DecisionTimingFor;
    if n > 0 {
      OffersAreIn(m, legal, kind, n - 1);
      assert legal[..n][..n - 1] == legal[..n - 1];
      var lo, mid := m.nextActionId, m.nextActionId + CountActions(legal[..n - 1]);
      var hi := m.nextActionId + CountActions(legal[..n]);
      NamedActionsAreIn(legal[n - 1].value, mid, lo, hi);
      var before := OffersUpTo(m, legal, kind, n - 1);
      forall i | 0 <= i < |before|
        ensures ActionsIn(before[i].actions, lo, hi)
      {
        ActionsWiden(before[i].actions, lo, mid, lo, hi);
      }
    }
  }

  lemma OpenedEntriesAreIn(id: DecisionId, kind: DecisionKind, offers: seq<SeatOffer>, openedAt: nat, lo: nat, hi: nat)
    requires OpenDecision(id, kind, offers, openedAt).Ok? && OffersIn(offers, lo, hi)
    ensures var d := OpenDecision(id, kind, offers, openedAt).value;
      d.id == id && EntriesIn(d.entries, lo, hi)
  {
    hide Sound, ActionsIn, OpenDecision;
    OpenDecisionSound(id, kind, offers, openedAt);
    var d := OpenDecision(id, kind, offers, openedAt).value;
    forall i | 0 <= i < |d.entries|
      ensures ActionsIn(d.entries[i].actions, lo, hi)
    {
      assert OpenEntry(offers[i], openedAt) == Ok(d.entries[i]);
    }
  }

  lemma WindowWidens(d: DecisionState, since: Ids, upto: Ids, since': Ids, upto': Ids)
    requires WindowIn(d, since, upto) && AtMost(since', since) && AtMost(upto, upto')
    ensures WindowIn(d, since', upto')
  {
    hide ActionsIn, DecisionName;
    forall i | 0 <= i < |d.entries|
      ensures ActionsIn(d.entries[i].actions, since'.action, upto'.action)
    {
      ActionsWiden(d.entries[i].actions, since.action, upto.action, since'.action, upto'.action);
    }
  }

  /** The window a call may open, and the counters after it. */
  lemma OpeningIssues(m: MatchState, env: Env)
    requires Fits(m) && EnvFits(m.mode, env)
    ensures var m1 := CurrentDecision(m, env).0;
      && AtMost(IdsOf(m), IdsOf(m1))
      && (m1.decision == m.decision
          || (m.decision.None? && m1.decision.Some? && WindowIn(m1.decision.value, IdsOf(m), IdsOf(m1))))
  {
    hide OpenWindow, WindowIn, OpenDecision, OffersUpTo, KindOf, CountActions, DecisionName;
    if m.held.None? && EnsureRunning(m).None? && m.decision.None? && FirstLegalError(env.legal).None? {
      var kind := KindOf(env.legal);
      var offers := OffersUpTo(m, env.legal, kind, |env.legal|);
      var window := OpenDecision(DecisionName(m.nextDecisionId), kind, offers, env.openedAt);
      if window.Ok? { NewWindowIsIn(m, env.legal, kind, env.openedAt); }
    }
  }

  lemma NewWindowIsIn(m: MatchState, legal: seq<Result<seq<GameAction>, string>>, kind: DecisionKind, openedAt: nat)
    requires SeatsFit(m) && |legal| == |m.players| && AllLegal(legal)
    requires OpenDecision(DecisionName(m.nextDecisionId), kind, OffersUpTo(m, legal, kind, |legal|), openedAt).Ok?
    ensures var offers := OffersUpTo(m, legal, kind, |legal|);
      var window := OpenDecision(DecisionName(m.nextDecisionId), kind, offers, openedAt);
      WindowIn(window.value, IdsOf(m), Ids(m.nextDecisionId + 1, m.nextActionId + CountActions(legal)))
  {
    hide OpenDecision, OffersUpTo, OffersIn, EntriesIn, DecisionName;
    OffersAreIn(m, legal, kind, |legal|);
    assert legal[..|legal|] == legal;
    var offers := OffersUpTo(m, legal, kind, |legal|);
    OpenedEntriesAreIn(DecisionName(m.nextDecisionId), kind, offers, openedAt, m.nextActionId,
                       m.nextActionId + CountActions(legal));
  }

  // ----- Every call keeps the window or issues a new one ---------------------------------------------

  /**
   * What one call does to the open window: it goes, or it stays with its ids whatever is answered
   * or retimed, or, if none was open, a new one is issued from the counters as they stood.
   */
  ghost predicate WindowMoves(m: MatchState, m1: MatchState) {
    && AtMost(IdsOf(m), IdsOf(m1))
    && (m1.decision.Some? ==>
          || (m.decision.Some? && Extends(m.decision.value, m1.decision.value))
          || (m.decision.None? && WindowIn(m1.decision.value, IdsOf(m), IdsOf(m1))))
  }

  lemma ExtendsItself(d: DecisionState)
    ensures Extends(d, d)
  {
  }

  lemma StayingMoves(m: MatchState, m1: MatchState)
    requires m1.decision == m.decision || m1.decision.None?
    requires IdsOf(m1) == IdsOf(m)
    ensures WindowMoves(m, m1)
  {
    hide Extends, WindowIn;
    if m.decision.Some? { ExtendsItself(m.decision.value); }
  }

  lemma OpeningMoves(m: MatchState, env: Env)
    requires Fits(m) && EnvFits(m.mode, env)
    ensures WindowMoves(m, CurrentDecision(m, env).0)
  {
    hide OpenWindow, WindowIn, CurrentDecision, Extends;
    OpeningIssues(m, env);
    if m.decision.Some? { ExtendsItself(m.decision.value); }
  }

  /** Answers and clocks keep a window's ids. */
  lemma ExtendsKeepsIds(d: DecisionState, d': DecisionState, since: Ids, upto: Ids)
    requires Extends(d, d') && WindowIn(d, since, upto)
    ensures WindowIn(d', since, upto)
  {
    hide ActionsIn, DecisionIn;
    forall i | 0 <= i < |d'.entries|
      ensures ActionsIn(d'.entries[i].actions, since.action, upto.action)
    {
      assert SameOffer(d.entries[i], d'.entries[i]);
    }
  }

  /** Answering or timing out after opening. */
  lemma AnsweringMoves(m: MatchState, m1: MatchState, m2: MatchState)
    requires WindowMoves(m, m1) && IdsOf(m2) == IdsOf(m1)
    requires m2.decision.Some? ==> m1.decision.Some? && Extends(m1.decision.value, m2.decision.value)
    ensures WindowMoves(m, m2)
  {
    hide Extends, WindowIn;
    if m2.decision.Some? {
      if m.decision.Some? {
        ExtendingTwice(m.decision.value, m1.decision.value, m2.decision.value);
      } else {
        ExtendsKeepsIds(m1.decision.value, m2.decision.value, IdsOf(m), IdsOf(m1));
      }
    }
  }

  lemma ExtendingTwice(a: DecisionState, b: DecisionState, c: DecisionState)
    requires Extends(a, b) && Extends(b, c)
    ensures Extends(a, c)
  {
    forall i | 0 <= i < |a.entries|
      ensures SameOffer(a.entries[i], c.entries[i])
      ensures a.entries[i].submitted.Some? ==> c.entries[i].submitted == a.entries[i].submitted
    {
      assert SameOffer(a.entries[i], b.entries[i]) && SameOffer(b.entries[i], c.entries[i]);
    }
  }

  lemma WindowIsSound(d: DecisionState, n: nat)
    requires OpenWindow(d, n)
    ensures Sound(d)
  {
  }

  lemma SubmitPhaseMoves(m: MatchState, env: Env, seat: Seat, decisionId: DecisionId, actionId: ActionId)
    requires Fits(m) && EnvFits(m.mode, env)
    ensures WindowMoves(m, SubmitPhase(m, env, seat, decisionId, actionId).0)
  {
    hide OpenWindow, Sound, Extends, WindowMoves, CurrentDecision, Submit;
    OpeningMoves(m, env);
    StayingMoves(m, m);
    OpeningFits(m, env);
    var m1 := CurrentDecision(m, env).0;
    if m1.decision.Some? {
      var d := m1.decision.value;
      WindowIsSound(d, m.mode.SeatCount());
      SubmitKeeps(d, seat, actionId, env.now);
      AnsweringMoves(m, m1, m1.(decision := Some(Submit(d, seat, actionId, env.now).0)));
    }
  }

  lemma ExpirePhaseMoves(m: MatchState, env: Env)
    requires Fits(m) && EnvFits(m.mode, env)
    ensures WindowMoves(m, ExpirePhase(m, env).0)
  {
    hide OpenWindow, Sound, Extends, WindowMoves, CurrentDecision, ResolveAt, TimedOutSeat;
    OpeningMoves(m, env);
    StayingMoves(m, m);
    OpeningFits(m, env);
    var m1 := CurrentDecision(m, env).0;
    if m1.decision.Some? {
      var d := m1.decision.value;
      WindowIsSound(d, m.mode.SeatCount());
      ResolveKeeps(d, env.now);
      var d' := ResolveAt(d, env.now).0;
      AnsweringMoves(m, m1, AutoStarted(m1.(decision := Some(d')), d'));
    }
  }

  lemma ProjectMoves(m: MatchState, env: Env, table: Result<TableState, string>, a: Audience)
    requires Fits(m) && EnvFits(m.mode, env)
    ensures WindowMoves(m, Project(m, env, table, a).0)
  {
    hide Project, CurrentDecision, WindowMoves, OpenWindow, Extends;
    OpeningMoves(m, env);
    OpeningFits(m, env);
    StayingMoves(m, m);
    ProjectingIsOpening(m, env, table, a);
    if table.Err? {
      StayingMoves(m, AbortForEngine(m, table.error));
      AbortingMoves(m, CurrentDecision(m, env).0, table.error);
    }
  }

  lemma AbortingMoves(m: MatchState, m1: MatchState, reason: string)
    requires WindowMoves(m, m1)
    ensures WindowMoves(m, AbortForEngine(m1, reason))
  {
    hide Extends, WindowIn;
  }

  /** Disconnects and reconnects at most retime the open window. */
  lemma SeatCallMoves(m: MatchState, c: Call)
    requires Fits(m) && (c.CallDisconnect? || c.CallReconnect?)
    ensures WindowMoves(m, Prepare(m, c).0)
  {
    hide OpenWindow, Sound, Extends, RetimeFor, DecisionTimingFor, WindowIn;
    if m.decision.Some? {
      var d := m.decision.value;
      WindowIsSound(d, m.mode.SeatCount());
      ExtendsItself(d);
      var present := m.(presence := if c.seat < |m.presence| then m.presence[c.seat := Connected] else m.presence);
      RetimeKeeps(d, c.seat, c.now, Some(m.timing.watchdog), true);
      if c.seat < |m.players| {
        var (duration, watchdog) := DecisionTimingFor(present, d.kind, c.seat);
        RetimeKeeps(d, c.seat, c.now, duration, watchdog);
        var (duration', watchdog') :=
          DecisionTimingFor(present.(controllers := m.controllers[c.seat := Interactive]), d.kind, c.seat);
        RetimeKeeps(d, c.seat, c.now, duration', watchdog');
      }
    }
  }

  lemma FinishKeepsIds(m: MatchState, applied: Result<EngineOutcome, string>)
    requires SeatsFit(m) && (applied.Ok? ==> OutcomeFits(m.mode, applied.value)) && m.decision.None?
    ensures IdsOf(FinishActions(m, applied).0) == IdsOf(m) && FinishActions(m, applied).0.decision.None?
  {
    hide BuildHold, ResultValid, OutcomeFits;
  }

  lemma PrepareMoves(m: MatchState, c: Call)
    requires Fits(m) && CallFits(m.mode, c)
    ensures WindowMoves(m, Prepare(m, c).0)
  {
    hide OpenWindow, WindowMoves, CurrentDecision, SubmitPhase, ExpirePhase, Disconnect, Reconnect, Project;
    hide FinishActions, OutcomeFits, Extends;
    match c {
      case CallCurrentDecision(env) => OpeningMoves(m, env);
      case CallSubmit(env, seat, decisionId, actionId) =>
        SubmitPhaseMoves(m, env, seat, decisionId, actionId);
        DroppingMoves(m, SubmitPhase(m, env, seat, decisionId, actionId).0);
      case CallResolveExpired(env) =>
        ExpirePhaseMoves(m, env);
        DroppingMoves(m, ExpirePhase(m, env).0);
      case CallProject(env, table, a) => ProjectMoves(m, env, table, a);
      case CallDisconnect(_, _) => SeatCallMoves(m, c);
      case CallReconnect(_, _) => SeatCallMoves(m, c);
      case CallApply(_, _, _) => QuietCallMoves(m, c);
      case CallLegalActions(_, _) => QuietCallMoves(m, c);
      case CallPublishStep(_) => QuietCallMoves(m, c);
      case CallRelease => QuietCallMoves(m, c);
      case CallTakePersistence => QuietCallMoves(m, c);
      case CallSetPermanentAuto(_) => QuietCallMoves(m, c);
      case CallSetTimeControl(_) => QuietCallMoves(m, c);
      case CallSetTiming(_) => QuietCallMoves(m, c);
    }
  }

  lemma DroppingMoves(m: MatchState, m1: MatchState)
    requires WindowMoves(m, m1)
    ensures WindowMoves(m, m1.(decision := None))
  {
    hide Extends, WindowIn;
  }

  /** The remaining calls leave the window or drop it, and issue nothing. */
  lemma QuietCallMoves(m: MatchState, c: Call)
    requires Fits(m) && CallFits(m.mode, c)
    requires !c.CallCurrentDecision? && !c.CallSubmit? && !c.CallResolveExpired? && !c.CallProject?
    requires !c.CallDisconnect? && !c.CallReconnect?
    ensures WindowMoves(m, Prepare(m, c).0)
  {
    hide OpenWindow, WindowMoves, FinishActions, OutcomeFits;
    StayingMoves(m, Prepare(m, c).0);
  }

  lemma StepMovesWindow(w: World, c: Call)
    requires Fits(w.m) && CallFits(w.m.mode, c)
    ensures WindowMoves(w.m, Step(w, c).m)
  {
    hide OpenWindow, Prepare, FinishActions, OutcomeFits, Extends, WindowIn;
    PrepareFits(w.m, c);
    PrepareMoves(w.m, c);
    var (m1, applied) := Prepare(w.m, c);
    if applied.Some? { FinishKeepsIds(m1, applied.value); }
  }

  // ----- Whole runs ---------------------------------------------------------------------------------

  lemma MovingStaysFresh(m: MatchState, m1: MatchState, since: Ids)
    requires WindowMoves(m, m1) && FreshSince(m, since)
    ensures FreshSince(m1, since)
  {
    hide Extends, WindowIn;
    if m1.decision.Some? {
      if m.decision.Some? {
        ExtendsKeepsIds(m.decision.value, m1.decision.value, since, IdsOf(m));
        WindowWidens(m1.decision.value, since, IdsOf(m), since, IdsOf(m1));
      } else {
        WindowWidens(m1.decision.value, IdsOf(m), IdsOf(m1), since, IdsOf(m1));
      }
    }
  }

  /** Ids issued since a reading of the counters stay so, and stay below the counters. */
  lemma {:induction false} RunStaysFresh(w: World, cs: seq<Call>, since: Ids)
    requires Inv(w) && CallsFit(w.m.mode, cs) && FreshSince(w.m, since)
    ensures FreshSince(Run(w, cs).m, since)
    decreases |cs|
  {
    if cs != [] {
      StepKeepsInv(w, cs[0]);
      assert Fits(w.m);
      hide Inv, Step, CallFits, FreshSince, Fits, WindowMoves;
      StepMovesWindow(w, cs[0]);
      MovingStaysFresh(w.m, Step(w, cs[0]).m, since);
      RunStaysFresh(Step(w, cs[0]), cs[1..], since);
    }
  }

  /** A new machine has issued nothing, so every reachable window lies below its counters. */
  lemma ReachableIsIssued(mode: GameMode, players: seq<Participant>, initial: seq<GameEvent>,
                          timeControl: TimeControl, timing: TimingConfig, cs: seq<Call>)
    requires RosterValid(mode, players) && CallsFit(mode, cs)
    ensures Inv(Start(mode, players, initial, timeControl, timing))
    ensures Issued(Run(Start(mode, players, initial, timeControl, timing), cs).m)
  {
    StartInv(mode, players, initial, timeControl, timing);
    hide Inv;
    RunStaysFresh(Start(mode, players, initial, timeControl, timing), cs, Ids(0, 0));
  }

  /**
   * From a state with a window open, any calls lead either to a state where that very window is
   * still open, or to one where whatever is open was issued later than it.
   */
  lemma {:induction false} WindowStaysOrIsReplaced(w: World, cs: seq<Call>)
    requires Inv(w) && CallsFit(w.m.mode, cs) && w.m.decision.Some?
    ensures var m1 := Run(w, cs).m;
      || (m1.decision.Some? && Extends(w.m.decision.value, m1.decision.value))
      || FreshSince(m1, IdsOf(w.m))
    decreases |cs|
  {
    if cs == [] {
      ExtendsItself(w.m.decision.value);
    } else {
      StepKeepsInv(w, cs[0]);
      StepMovesWindow(w, cs[0]);
      var w1 := Step(w, cs[0]);
      assert Fits(w.m);
      hide Inv, Step, CallFits, Fits, Extends, WindowIn;
      if w1.m.decision.None? {
        RunStaysFresh(w1, cs[1..], IdsOf(w.m));
      } else {
        WindowStaysOrIsReplaced(w1, cs[1..]);
        var m2 := Run(w1, cs[1..]).m;
        if m2.decision.Some? && Extends(w1.m.decision.value, m2.decision.value) {
          ExtendingTwice(w.m.decision.value, w1.m.decision.value, m2.decision.value);
        } else {
          FreshIsEarlier(m2, IdsOf(w1.m), IdsOf(w.m));
        }
      }
    }
  }

  lemma FreshIsEarlier(m: MatchState, since: Ids, earlier: Ids)
    requires FreshSince(m, since) && AtMost(earlier, since)
    ensures FreshSince(m, earlier)
  {
    hide WindowIn;
    if m.decision.Some? { WindowWidens(m.decision.value, since, IdsOf(m), earlier, IdsOf(m)); }
  }

  ghost predicate HasAction(d: DecisionState, id: ActionId) {
    exists i, j :: 0 <= i < |d.entries| && 0 <= j < |d.entries[i].actions| && d.entries[i].actions[j].id == id
  }

  lemma WindowsApart(d: DecisionState, e: DecisionState, middle: Ids, upto: Ids)
    requires WindowIn(d, Ids(0, 0), middle) && WindowIn(e, middle, upto)
    ensures d.id != e.id && forall id :: !(HasAction(d, id) && HasAction(e, id))
  {
    hide DecisionName, ActionName;
    var k: nat :| k < middle.decision && d.id == DecisionName(k);
    var l: nat :| middle.decision <= l && e.id == DecisionName(l);
    if d.id == e.id { DecisionNamesDiffer(k, l); }
    forall id | HasAction(d, id) && HasAction(e, id)
      ensures false
    {
      ActionIsIn(d, id, Ids(0, 0), middle);
      ActionIsIn(e, id, middle, upto);
      var k: nat :| k < middle.action && id == ActionName(k);
      var l: nat :| middle.action <= l && id == ActionName(l);
      ActionNamesDiffer(k, l);
    }
  }

  lemma ActionIsIn(d: DecisionState, id: ActionId, since: Ids, upto: Ids)
    requires WindowIn(d, since, upto) && HasAction(d, id)
    ensures ActionIn(id, since.action, upto.action)
  {
    hide ActionName, DecisionIn, ActionIn;
    var i, j :| 0 <= i < |d.entries| && 0 <= j < |d.entries[i].actions| && d.entries[i].actions[j].id == id;
    assert ActionsIn(d.entries[i].actions, since.action, upto.action);
  }

  /**
   * Windows open at two points of a run are one and the same window, with its answers and clocks
   * moved on, or share neither decision id nor any action id.
   */
  lemma WindowsShareNothing(w: World, cs: seq<Call>)
    requires Inv(w) && Issued(w.m) && CallsFit(w.m.mode, cs)
    requires w.m.decision.Some? && Run(w, cs).m.decision.Some?
    ensures var d, e := w.m.decision.value, Run(w, cs).m.decision.value;
      if d.id == e.id then Extends(d, e) else forall id :: !(HasAction(d, id) && HasAction(e, id))
  {
    hide Inv, Extends, HasAction, WindowIn;
    WindowStaysOrIsReplaced(w, cs);
    var d, m1 := w.m.decision.value, Run(w, cs).m;
    if FreshSince(m1, IdsOf(w.m)) {
      WindowsApart(d, m1.decision.value, IdsOf(w.m), IdsOf(m1));
    } else {
      ExtendedIsSame(d, m1.decision.value);
    }
  }

  lemma ExtendedIsSame(d: DecisionState, e: DecisionState)
    requires Extends(d, e)
    ensures d.id == e.id
  {
  }

  // ----- Stale submissions ------------------------------------------------------------------

  /** A window issued later accepts neither an earlier decision id nor an earlier action id. */
  lemma LaterWindowRefuses(d: DecisionState, seat: Seat, decisionId: DecisionId, actionId: ActionId, now: nat,
                           since: Ids, upto: Ids)
    requires Sound(d) && WindowIn(d, since, upto)
    requires DecisionIn(decisionId, 0, since.decision) || ActionIn(actionId, 0, since.action)
    ensures SubmitWithDecisionId(d, decisionId, seat, actionId, now).1.Err?
    ensures SubmitWithDecisionId(d, decisionId, seat, actionId, now).0 == d
  {
    hide Sound, ActionName, DecisionName;
    if DecisionIn(decisionId, 0, since.decision) {
      var k: nat :| k < since.decision && decisionId == DecisionName(k);
      var l: nat :| l >= since.decision && d.id == DecisionName(l);
      if decisionId == d.id { DecisionNamesDiffer(k, l); }
    } else {
      var k: nat :| k < since.action && actionId == ActionName(k);
      var at := EntryIndex(d.entries, seat);
      if at.Some? {
        var actions := d.entries[at.value].actions;
        assert ActionsIn(actions, since.action, upto.action);
        var j := ActionIndex(actions, actionId);
        if j.Some? {
          assert ActionIn(actions[j.value].id, since.action, upto.action);
          var l: nat :| l >= since.action && actionId == ActionName(l);
          ActionNamesDiffer(k, l);
        }
      }
    }
  }

  lemma StalePhaseRefused(m: MatchState, env: Env, seat: Seat, decisionId: DecisionId, actionId: ActionId, since: Ids)
    requires Fits(m) && EnvFits(m.mode, env) && FreshSince(m, since)
    requires DecisionIn(decisionId, 0, since.decision) || ActionIn(actionId, 0, since.action)
    ensures SubmitPhase(m, env, seat, decisionId, actionId).1.Err?
  {
    hide OpenWindow, Sound, WindowMoves, WindowIn, CurrentDecision, SubmitWithDecisionId, DecisionIn, ActionIn;
    OpeningMoves(m, env);
    OpeningFits(m, env);
    var m1 := CurrentDecision(m, env).0;
    MovingStaysFresh(m, m1, since);
    if m1.decision.Some? {
      WindowIsSound(m1.decision.value, m.mode.SeatCount());
      LaterWindowRefuses(m1.decision.value, seat, decisionId, actionId, env.now, since, IdsOf(m1));
    }
  }

  /**
   * Once a window that was open has gone, resolved or dropped, no submission carrying its id or
   * one of its action ids is ever accepted again, whatever calls come before and in between.
   */
  lemma StaleIdsAreNeverAccepted(w: World, before: seq<Call>, after: seq<Call>, env: Env, seat: Seat,
                                 decisionId: DecisionId, actionId: ActionId)
    requires Inv(w) && Issued(w.m) && CallsFit(w.m.mode, before) && CallsFit(w.m.mode, after) && EnvFits(w.m.mode, env)
    requires w.m.decision.Some?
    requires var gone := Run(w, before).m.decision; gone.None? || gone.value.id != w.m.decision.value.id
    requires decisionId == w.m.decision.value.id || HasAction(w.m.decision.value, actionId)
    ensures Inv(Run(w, before)) && Run(w, before).m.mode == w.m.mode
    ensures var m := Run(Run(w, before), after).m;
      && Fits(m) && m.mode == w.m.mode
      && SubmitAction(m, env, seat, decisionId, actionId).1.Err?
  {
    hide SubmitPhase, FreshSince, Extends, WindowIn, DecisionIn, ActionIn, HasAction, OpenWindow;
    hide HoldFollowed, Partitioned, EndsSettled;
    var d, w1, since := w.m.decision.value, Run(w, before), IdsOf(w.m);
    RunKeepsInv(w, before);
    WindowStaysOrIsReplaced(w, before);
    if w1.m.decision.Some? && Extends(d, w1.m.decision.value) { ExtendedIsSame(d, w1.m.decision.value); }
    RunStaysFresh(w1, after, since);
    RunKeepsInv(w1, after);
    IssuedIdsAreBelow(w.m, decisionId, actionId);
    StalePhaseRefused(Run(w1, after).m, env, seat, decisionId, actionId, since);
  }

  lemma IssuedIdsAreBelow(m: MatchState, decisionId: DecisionId, actionId: ActionId)
    requires Issued(m) && m.decision.Some?
    requires decisionId == m.decision.value.id || HasAction(m.decision.value, actionId)
    ensures DecisionIn(decisionId, 0, m.nextDecisionId) || ActionIn(actionId, 0, m.nextActionId)
  {
    hide DecisionIn, ActionIn, EntriesIn;
    if HasAction(m.decision.value, actionId) { ActionIsIn(m.decision.value, actionId, Ids(0, 0), IdsOf(m)); }
  }
}
