// What each audience is shown, part by part.

module Views {
  import opened Wrappers
  import opened Checked
  import opened Domain
  import opened DecisionSpec
  import opened Results
  import opened Projection
  import opened MatchSpec
  import opened MatchRuns

  /** A player may look into its own hand, administrators into every one, the public into none. */
  predicate MaySee(a: Audience, seat: Seat) { a == Player(seat) || a == BenchmarkAdmin || a == ReplayAdmin }

  /** An open meld is shown to everyone; of a closed one others learn only that it is there. */
  predicate MeldShown(shown: MeldState, m: MeldState, maySee: bool) {
    if m.isOpen || maySee then shown == m
    else shown.tiles == [] && !shown.isOpen && shown.fromWho.None? && shown.calledTile.None?
  }

  predicate PlayerShown(v: VisiblePlayer, p: TablePlayerState, a: Audience) {
    && v.seat == p.seat && v.participant == p.participant && v.score == p.score
    && v.discards == p.discards && v.riichi == p.riichi && v.concealedCount == |p.hand|
    && (if MaySee(a, p.seat) then v.hand == Some(p.hand) else v.hand.None?)
    && |v.melds| == |p.melds|
    && (forall k :: 0 <= k < |v.melds| ==> MeldShown(v.melds[k], p.melds[k], MaySee(a, p.seat)))
    && (if p.riichiDiscardIndex.Some? && p.riichiDiscardIndex.value < |p.discards|
        then v.riichiDiscardIndex == p.riichiDiscardIndex else v.riichiDiscardIndex.None?)
  }

  predicate TableShown(v: AudienceProjection, t: TableState, a: Audience) {
    && v.audience == a && v.mode == t.mode && v.round == t.round && v.kyotaku == t.kyotaku
    && v.doraIndicators == t.doraIndicators && |v.players| == |t.players|
    && forall k :: 0 <= k < |v.players| ==> PlayerShown(v.players[k], t.players[k], a)
  }

  lemma PlayerViewShows(p: TablePlayerState, a: Audience)
    ensures PlayerShown(ViewPlayer(p, a), p, a)
  {
    var v := ViewPlayer(p, a);
    forall k | 0 <= k < |v.melds|
      ensures MeldShown(v.melds[k], p.melds[k], MaySee(a, p.seat))
    {
    }
  }

  /** A projection shows the table to its audience, part by part. */
  lemma TableViewShows(t: TableState, a: Audience, now: nat)
    ensures TableShown(ProjectTable(t, a, now), t, a)
  {
    hide ViewPlayer, PlayerShown;
    var v := ProjectTable(t, a, now);
    forall k | 0 <= k < |v.players|
      ensures PlayerShown(v.players[k], t.players[k], a)
    {
      PlayerViewShows(t.players[k], a);
    }
  }

  // ----- The open window -------------------------------------------------------------------------------

  /** The first entry for a seat. */
  predicate EntryFor(d: DecisionState, seat: Seat, k: nat)
    requires k < |d.entries|
  {
    d.entries[k].seat == seat && forall j :: 0 <= j < k ==> d.entries[j].seat != seat
  }

  /** A seat that is asked sees its choices until it has answered, its default, and no one else's. */
  predicate OwnWindowShown(v: DecisionView, e: DecisionSeat) {
    && v.PlayerDecision? && v.defaultActionId == e.defaultActionId
    && v.actions == if e.submitted.Some? then [] else e.actions
  }

  /** A replay's reader sees every seat's choices, default and answer. */
  predicate WholeWindowShown(v: DecisionView, d: DecisionState) {
    && v.ReplayDecision? && |v.eligible| == |v.entries| == |d.entries|
    && forall i :: 0 <= i < |d.entries| ==>
         && v.eligible[i] == d.entries[i].seat && v.entries[i].seat == d.entries[i].seat
         && v.entries[i].actions == d.entries[i].actions
         && (EntryFor(d, d.entries[i].seat, i) ==>
               v.entries[i].defaultActionId == d.entries[i].defaultActionId
               && v.entries[i].submitted == d.entries[i].submitted)
  }

  predicate WindowShown(v: Option<DecisionView>, d: DecisionState, a: Audience) {
    match a
    case Player(viewer) =>
      && (v.Some? <==> exists k :: 0 <= k < |d.entries| && EntryFor(d, viewer, k) && d.entries[k].actions != [])
      && (v.Some? ==>
            exists k :: 0 <= k < |d.entries| && EntryFor(d, viewer, k) && OwnWindowShown(v.value, d.entries[k]))
    case Public => v.Some? && v.value.PublicDecision?
    case BenchmarkAdmin => v.Some? && v.value.PublicDecision?
    case ReplayAdmin => v.Some? && WholeWindowShown(v.value, d)
  }

  /** What an audience is shown of the open window. */
  lemma WindowViewShows(d: DecisionState, a: Audience, now: nat)
    ensures WindowShown(ViewDecision(Some(d), a, now), d, a)
  {
    if a.Player? {
      var k := EntryIndex(d.entries, a.viewer);
      if k.Some? {
        assert EntryFor(d, a.viewer, k.value);
        forall j | 0 <= j < |d.entries| && EntryFor(d, a.viewer, j)
          ensures j == k.value
        {
        }
      }
    } else if a.ReplayAdmin? {
      forall i | 0 <= i < |d.entries|
        ensures EntryFor(d, d.entries[i].seat, i) ==> FirstFor(d, i) == d.entries[i]
      {
      }
    }
  }

  // ----- The machine's projections ---------------------------------------------------------------------

  /** Tables that differ in scores and sticks only. */
  predicate SameButScores(t: TableState, u: TableState) {
    && u.mode == t.mode && u.doraIndicators == t.doraIndicators && u.round == t.round && u.decision == t.decision
    && |u.players| == |t.players|
    && forall k :: 0 <= k < |t.players| ==>
         && u.players[k].seat == t.players[k].seat && u.players[k].participant == t.players[k].participant
         && u.players[k].hand == t.players[k].hand && u.players[k].discards == t.players[k].discards
         && u.players[k].melds == t.players[k].melds && u.players[k].riichi == t.players[k].riichi
         && u.players[k].riichiDiscardIndex == t.players[k].riichiDiscardIndex
  }

  lemma SettlingKeepsTheRest(t: TableState, scores: seq<I32>, pot: U32)
    ensures SameButScores(t, WithSettlementState(t, scores, pot))
  {
  }

  /** A hand is held on the table it ended on, but for the scores and sticks. */
  lemma HeldTableIsTheEnds(m: MatchState, o: EngineOutcome)
    requires SeatsFit(m) && OutcomeFits(m.mode, o) && o.ended.Some? && BuildHold(m, o).Ok?
    ensures o.endedTable.Ok? && SameButScores(o.endedTable.value, BuildHold(m, o).value.table)
  {
    hide SameButScores, WithSettlementState;
    BuiltHoldCuts(m, o);
    var settlement := BuildHold(m, o).value.record.settlement;
    SettlingKeepsTheRest(o.endedTable.value, Befores(settlement), settlement.potBefore);
  }

  /** And stays on it, whichever step is published. */
  lemma PublishingKeepsTheTable(m: MatchState, step: nat)
    requires m.held.Some?
    ensures PublishStep(m, step).0.held.Some?
    ensures SameButScores(m.held.value.table, PublishStep(m, step).0.held.value.table)
  {
    hide WithSettlementState;
    var settlement := m.held.value.record.settlement;
    SettlingKeepsTheRest(m.held.value.table, Afters(settlement), settlement.potAfter);
  }

  /** The window a projection shows: that of a running match, or whatever the table brings along. */
  function WindowOn(m1: MatchState, t: TableState): Option<DecisionState> {
    if m1.status.Running? && m1.held.None? && m1.decision.Some? then m1.decision else t.decision
  }

  /**
   * A projection that succeeds shows the held hand's table while one is held and the engine's
   * otherwise, with the open window of a running match, and results only of a held hand.
   */
  lemma ProjectionShows(m: MatchState, env: Env, table: Result<TableState, string>, a: Audience)
    requires Fits(m) && EnvFits(m.mode, env) && (m.held.Some? ==> m.decision.None?)
    requires Project(m, env, table, a).1.Ok?
    ensures var (m1, r) := Project(m, env, table, a);
      && !m.status.Aborted? && (m1.held.Some? || table.Ok?)
      && var t := if m1.held.Some? then m1.held.value.table else table.value;
         && TableShown(r.value, t, a)
         && (WindowOn(m1, t).None? ==> r.value.decision.None?)
         && (WindowOn(m1, t).Some? ==> WindowShown(r.value.decision, WindowOn(m1, t).value, a))
         && (m1.held.None? ==> r.value.kyokuResults.None?)
  {
    hide OpenWindow, ViewDecision, ViewPlayer, PlayerShown, WindowShown, OpenDecision, OffersUpTo, KindOf;
    var (m1, r) := Project(m, env, table, a);
    var t := if m1.held.Some? then m1.held.value.table else table.value;
    var d := WindowOn(m1, t);
    TableViewShows(t.(decision := d), a, env.now);
    NoWindowNoView(a, env.now);
    if d.Some? { WindowViewShows(d.value, a, env.now); }
  }

  lemma NoWindowNoView(a: Audience, now: nat)
    ensures ViewDecision(None, a, now).None?
  {
  }
}
