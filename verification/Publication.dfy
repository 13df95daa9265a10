// How a finished hand reaches the public: step by step, in order, and never lost.

module Publication {
  import opened Wrappers
  import opened Domain
  import opened DecisionSpec
  import opened Results
  import opened Projection
  import opened MatchSpec
  import opened MatchRuns
  import opened WindowOpening

  /** What one call adds to the public log. */
  function Shown(w: World, c: Call): seq<GameEvent>
    requires Fits(w.m)
  {
    match c
    case CallPublishStep(step) => if PublishStep(w.m, step).1.Ok? then PublishStep(w.m, step).1.value else []
    case CallRelease => if ReleaseKyoku(w.m).1.Ok? then ReleaseKyoku(w.m).1.value else []
    case _ => []
  }

  /**
   * A held hand survives every call except its own release, and no call aborts the match while
   * it is held; so an abort never discards one.
   */
  lemma HeldHandIsNeverLost(w: World, c: Call)
    requires Inv(w) && CallFits(w.m.mode, c) && w.m.held.Some?
    ensures var m1 := Step(w, c).m; var hold := w.m.held.value;
      && !m1.status.Aborted?
      && (m1.held.None? <==> c.CallRelease? && SettlementShown(hold))
      && (m1.held.Some? ==> m1.held.value.record == hold.record && m1.status.Running?)
      && (m1.held.None? && hold.finalResult.Some? ==> m1.status == Completed(hold.finalResult.value))
      && (m1.held.None? && hold.finalResult.None? ==> m1.status.Running?)
  {
    hide Fits, HoldFits, Partitioned, CurrentDecision, SubmitPhase, ExpirePhase;
    PrepareFits(w.m, c);
    if !PublishingCall(c) {
      QuietCallKeepsStatus(w.m, c);
      hide Prepare;
    }
  }

  /**
   * While a hand is held the public log grows only by the terminal events, on the settlement
   * step, and by the end of the hand and the next deal, on release.
   */
  lemma HeldHandShowsInTwoParts(w: World, c: Call)
    requires Inv(w) && CallFits(w.m.mode, c) && w.m.held.Some?
    ensures Step(w, c).m.events == w.m.events + Shown(w, c)
    ensures var hold := w.m.held.value;
      Shown(w, c) ==
        if c.CallPublishStep? && c.step == |hold.record.wins| && !SettlementShown(hold) && c.step == hold.nextStep
        then hold.terminalEvents
        else if c.CallRelease? && SettlementShown(hold) then hold.futureEvents
        else []
    ensures Step(w, c).m.decision.None? || c.CallRelease?
  {
    hide Fits, HoldFits, Partitioned, CurrentDecision, SubmitPhase, ExpirePhase, TableShows, WithSettlementState;
    PrepareFits(w.m, c);
    if !PublishingCall(c) {
      QuietCallKeepsStatus(w.m, c);
      hide Prepare;
      assert w.m.events + [] == w.m.events;
    }
  }

  /** A step succeeds exactly when it is the next one, so the successful steps are 0, 1, …, |wins| in order. */
  lemma StepsGoOutInOrder(w: World, step: nat)
    requires Inv(w) && w.m.held.Some?
    ensures PublishStep(w.m, step).1.Ok? <==> step == |w.h.published| && step <= |w.m.held.value.record.wins|
    ensures ReleaseKyoku(w.m).1.Ok? <==> w.h.published == Upto(|w.m.held.value.record.wins| + 1)
  {
    hide Fits, HoldFits, Partitioned;
    var n := |w.m.held.value.record.wins| + 1;
    assert w.m.held.value.nextStep <= n by { HoldStepBound(w.m.held.value, w); }
    assert w.h.published == Upto(n) ==> |w.h.published| == n;
  }

  lemma HoldStepBound(hold: HeldKyoku, w: World)
    requires Inv(w) && w.m.held == Some(hold)
    ensures hold.nextStep <= |hold.record.wins| + 1
  {
    hide Fits, Partitioned;
  }

  /**
   * While a hand is held every audience is answered, nothing changes, and the answer shows a
   * prefix of the wins with the scores and pot from before the hand, until the settlement step;
   * from then on it shows every win, the settlement, and the scores and pot after it. What the
   * engine could say of its table does not matter.
   */
  lemma EveryAudienceSeesTheStage(w: World, env: Env, table: Result<TableState, string>, a: Audience)
    requires Inv(w) && EnvFits(w.m.mode, env) && w.m.held.Some?
    ensures Project(w.m, env, table, a).0 == w.m && Project(w.m, env, table, a).1.Ok?
    ensures var hold := w.m.held.value; var settlement := hold.record.settlement;
      var view := Project(w.m, env, table, a).1.value;
      && |view.players| == |settlement.changes|
      && (forall i :: 0 <= i < |view.players| ==>
            view.players[i].score ==
              if SettlementShown(hold) then settlement.changes[i].after else settlement.changes[i].before)
      && view.kyotaku == Some(if SettlementShown(hold) then settlement.potAfter else settlement.potBefore)
      && (view.kyokuResults.None? <==> hold.nextStep == 0)
      && (view.kyokuResults.Some? ==>
            && view.kyokuResults.value.wins <= hold.record.wins
            && (|view.kyokuResults.value.wins| == if SettlementShown(hold) then |hold.record.wins| else hold.nextStep)
            && view.kyokuResults.value.settlement == if SettlementShown(hold) then Some(settlement) else None)
  {
    hide Partitioned, OpenWindow, ViewDecision;
    var hold := w.m.held.value;
    assert HoldFits(hold);
    var view := Project(w.m, env, table, a).1.value;
    forall i | 0 <= i < |view.players|
      ensures view.players[i].score == hold.table.players[i].score
    {
    }
  }

  /**
   * Looking at a match can end it. A projection aborts it exactly when it has to open a window while
   * the engine cannot list some seat's actions or lists none that is safe, or when no hand is held
   * and the engine cannot show its table.
   */
  lemma ProjectionAbortsIff(m: MatchState, env: Env, table: Result<TableState, string>, a: Audience)
    requires Fits(m) && EnvFits(m.mode, env) && !m.status.Aborted?
    ensures Project(m, env, table, a).0.status.Aborted? <==>
      || (WantsWindow(m) && SomeoneIsStranded(env.legal))
      || (m.held.None? && table.Err?)
  {
    hide CurrentDecision, OpenWindow, ProjectTable, PublishedResults, SomeoneIsStranded;
    OpeningAbortsIff(m, env);
    OpeningKeepsRecords(m, env);
    FailedOpeningAborts(m, env);
  }

  /** Opening fails only by aborting, or on a match that is not running anyway. */
  lemma FailedOpeningAborts(m: MatchState, env: Env)
    requires Fits(m) && EnvFits(m.mode, env)
    ensures m.status.Running? && CurrentDecision(m, env).1.Err? ==> CurrentDecision(m, env).0.status.Aborted?
  {
    hide OpenWindow, OpenDecision, OffersUpTo, KindOf;
  }

  /** So even a completed match, result and all, is lost to a look the engine cannot answer. */
  lemma LookingCanLoseACompletedMatch(w: World, env: Env, error: string, a: Audience)
    requires Inv(w) && EnvFits(w.m.mode, env) && w.m.status.Completed?
    ensures Step(w, CallProject(env, Err(error), a)).m.status == Aborted(error)
  {
    hide Partitioned, HoldFits, CurrentDecision, OpenWindow, EndsSettled, ResultValid;
    PrepareFits(w.m, CallProject(env, Err(error), a));
  }

  /**
   * An answer that does not resolve the window shows to no other player and not to the public:
   * whoever looks next, at any moment, is told what they would have been told before it.
   */
  lemma WaitingAnswersStayHidden(m: MatchState, env: Env, seat: Seat, decisionId: DecisionId, actionId: ActionId,
                                 look: Env, table: Result<TableState, string>, a: Audience)
    requires Fits(m) && EnvFits(m.mode, env) && EnvFits(m.mode, look) && m.decision.Some?
    requires SubmitAction(m, env, seat, decisionId, actionId).1 == Ok(Waiting(decisionId))
    requires a != ReplayAdmin && a != Player(seat)
    ensures var m1 := SubmitAction(m, env, seat, decisionId, actionId).0;
      && Fits(m1) && m1.mode == m.mode
      && Project(m1, look, table, a).1 == Project(m, look, table, a).1
  {
    hide OpenWindow, Sound, Submit, ViewDecision, ViewPlayer, CurrentDecision, FinishActions;
    SubmitPhaseFits(m, env, seat, decisionId, actionId);
    OpenStays(m, env);
    var d := m.decision.value;
    OpenIsSound(d, m.mode.SeatCount());
    AnswersStayHidden(d, seat, actionId, env.now, a, look.now);
    var m1 := SubmitAction(m, env, seat, decisionId, actionId).0;
    assert m1 == m.(decision := Some(Submit(d, seat, actionId, env.now).0));
    OpenStays(m, look);
    OpenStays(m1, look);
  }

  lemma OpenIsSound(d: DecisionState, n: nat)
    requires OpenWindow(d, n)
    ensures Sound(d)
  {
  }

  lemma OpenStays(m: MatchState, env: Env)
    requires Fits(m) && EnvFits(m.mode, env) && m.decision.Some?
    ensures EnsureRunning(m).None? ==> CurrentDecision(m, env) == (m, Ok(m.decision))
  {
    hide OpenWindow, OpenDecision, OffersUpTo, KindOf;
  }

  /** Publishing only ever reveals more of a hand: results shown stay shown. */
  lemma PublicationGrows(w: World, c: Call)
    requires Inv(w) && CallFits(w.m.mode, c) && w.m.held.Some? && Step(w, c).m.held.Some?
    requires PublishedResults(w.m).Some?
    ensures PublishedResults(Step(w, c).m).Some?
    ensures var before, after := PublishedResults(w.m).value, PublishedResults(Step(w, c).m).value;
      && before.kyokuSequence == after.kyokuSequence
      && before.wins <= after.wins
      && (before.settlement.Some? ==> after.settlement == before.settlement)
  {
    hide Fits, HoldFits, Partitioned, Prepare, PublishedResults, Step;
    if PublishingCall(c) { StepPublishesMore(w, c); } else { QuietStepShowsTheSame(w, c); }
  }

  lemma QuietStepShowsTheSame(w: World, c: Call)
    requires Inv(w) && CallFits(w.m.mode, c) && w.m.held.Some? && !PublishingCall(c)
    ensures PublishedResults(Step(w, c).m) == PublishedResults(w.m)
  {
    hide Fits, HoldFits, Partitioned, Prepare, FinishActions;
    PrepareFits(w.m, c);
    var m1, applied := Prepare(w.m, c).0, Prepare(w.m, c).1;
    assert applied.None? && SameRecords(w.m, m1);
    assert Step(w, c).m == m1;
  }

  lemma StepPublishesMore(w: World, c: Call)
    requires Inv(w) && CallFits(w.m.mode, c) && w.m.held.Some? && PublishingCall(c) && Step(w, c).m.held.Some?
    requires PublishedResults(w.m).Some?
    ensures PublishedResults(Step(w, c).m).Some?
    ensures var before, after := PublishedResults(w.m).value, PublishedResults(Step(w, c).m).value;
      && before.kyokuSequence == after.kyokuSequence
      && before.wins <= after.wins
      && (before.settlement.Some? ==> after.settlement == before.settlement)
  {
    hide Fits, HoldFits, Partitioned, CurrentDecision, SubmitPhase, ExpirePhase, TableShows, WithSettlementState;
    hide Disconnect, Reconnect, Project, LegalActions, ApplyDirect, FinishActions;
    PrepareFits(w.m, c);
  }

  /** Whatever the calls, a completed match has a valid result on its last settlement's scores. */
  lemma CompletedMatchEndsSettled(w: World, cs: seq<Call>)
    requires Inv(w) && CallsFit(w.m.mode, cs)
    ensures var m := Run(w, cs).m;
      m.status.Completed? ==>
        && ResultValid(m.status.result)
        && (m.lastSettlementScores.Some? ==> m.status.result.finalScores == m.lastSettlementScores.value)
  {
    hide ResultValid, Fits, HoldFollowed, Partitioned;
    RunKeepsInv(w, cs);
  }
}
