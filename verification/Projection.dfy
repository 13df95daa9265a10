// The table and what each audience is allowed to see of it.

module Projection {
  import opened Wrappers
  import opened Checked
  import opened Domain
  import opened DecisionSpec
  import opened Results

  datatype MeldState =
    MeldState(tiles: seq<Tile>, isOpen: bool, fromWho: Option<Seat>, calledTile: Option<Tile>)

  datatype TablePlayerState = TablePlayerState(
    seat: Seat, participant: Participant, score: I32, hand: seq<Tile>, discards: seq<Tile>,
    melds: seq<MeldState>, riichi: bool, riichiDiscardIndex: Option<nat>)

  datatype RoundData = RoundData(round: Wind, kyoku: U8, dealer: Seat, honba: U8, remainingWall: Option<U8>)

  datatype TableState = TableState(
    mode: GameMode, players: seq<TablePlayerState>, doraIndicators: seq<Tile>,
    round: Option<RoundData>, kyotaku: Option<U32>, decision: Option<DecisionState>)

  datatype Audience = Player(viewer: Seat) | Public | BenchmarkAdmin | ReplayAdmin

  datatype VisiblePlayer = VisiblePlayer(
    seat: Seat, participant: Participant, score: I32, hand: Option<seq<Tile>>, concealedCount: nat,
    discards: seq<Tile>, melds: seq<MeldState>, riichi: bool, riichiDiscardIndex: Option<nat>)

  datatype ReplayEntry =
    ReplayEntry(seat: Seat, actions: seq<DecisionAction>, defaultActionId: ActionId, submitted: Option<ActionId>)

  /** What an audience is shown of the open window; durations in milliseconds. */
  datatype DecisionView =
    | PlayerDecision(decisionId: DecisionId, kind: DecisionKind, actions: seq<DecisionAction>,
                     defaultActionId: ActionId, duration: Option<nat>, remaining: Option<nat>, watchdog: bool)
    | PublicDecision(decisionId: DecisionId, kind: DecisionKind, duration: Option<nat>, remaining: Option<nat>,
                     watchdog: bool)
    | ReplayDecision(decisionId: DecisionId, kind: DecisionKind, eligible: seq<Seat>, entries: seq<ReplayEntry>,
                     duration: Option<nat>, remaining: Option<nat>, watchdog: bool)

  datatype AudienceProjection = AudienceProjection(
    audience: Audience, mode: GameMode, round: Option<RoundData>, kyotaku: Option<U32>,
    players: seq<VisiblePlayer>, doraIndicators: seq<Tile>, decision: Option<DecisionView>,
    kyokuResults: Option<PublishedKyokuResults>)

  /** Overwrites scores seat by seat, as far as both lists reach, and the pot. */
  function WithSettlementState(t: TableState, scores: seq<I32>, pot: U32): TableState {
    t.(players := seq(|t.players|, i requires 0 <= i < |t.players| =>
         if i < |scores| then t.players[i].(score := scores[i]) else t.players[i]),
       kyotaku := Some(pot))
  }

  /** Whose hand and closed melds the audience may see. */
  predicate Sees(a: Audience, seat: Seat) {
    match a
    case Player(viewer) => viewer == seat
    case Public => false
    case BenchmarkAdmin => true
    case ReplayAdmin => true
  }

  function VisibleMeld(m: MeldState, revealClosed: bool): MeldState {
    if m.isOpen || revealClosed then m else MeldState([], m.isOpen, None, None)
  }

  function ViewPlayer(p: TablePlayerState, a: Audience): VisiblePlayer {
    VisiblePlayer(
      p.seat, p.participant, p.score,
      if Sees(a, p.seat) then Some(p.hand) else None,
      |p.hand|, p.discards,
      seq(|p.melds|, i requires 0 <= i < |p.melds| => VisibleMeld(p.melds[i], Sees(a, p.seat))),
      p.riichi,
      if p.riichiDiscardIndex.Some? && p.riichiDiscardIndex.value < |p.discards|
      then p.riichiDiscardIndex else None)
  }

  function Remaining(deadline: Option<nat>, now: nat): Option<nat> {
    match deadline
    case None => None
    case Some(d) => Some(if d > now then d - now else 0)
  }

  /** A player sees a window it is asked in, and its own choices in it until it has answered. */
  function ViewAsPlayer(d: DecisionState, seat: Seat, now: nat): Option<DecisionView> {
    match EntryIndex(d.entries, seat)
    case None => None
    case Some(k) =>
      var e := d.entries[k];
      if e.actions == [] then None
      else
        Some(PlayerDecision(d.id, d.kind, if e.submitted.Some? then [] else e.actions, e.defaultActionId,
                            e.duration, Remaining(e.deadline, now), e.watchdog))
  }

  function ViewAsPublic(d: DecisionState, now: nat): DecisionView {
    PublicDecision(d.id, d.kind, d.duration, Remaining(d.deadline, now), d.watchdog)
  }

  /** The first entry of the seat that entry `i` is for. */
  function FirstFor(d: DecisionState, i: nat): (e: DecisionSeat)
    requires i < |d.entries|
    ensures e in d.entries && e.seat == d.entries[i].seat
  {
    d.entries[EntryIndex(d.entries, d.entries[i].seat).value]
  }

  function EntryForReplay(d: DecisionState, i: nat): ReplayEntry
    requires i < |d.entries|
  {
    ReplayEntry(d.entries[i].seat, d.entries[i].actions, FirstFor(d, i).defaultActionId, FirstFor(d, i).submitted)
  }

  function ViewAsReplay(d: DecisionState, now: nat): DecisionView {
    var n := |d.entries|;
    ReplayDecision(d.id, d.kind, seq(n, i requires 0 <= i < n => d.entries[i].seat),
      seq(n, i requires 0 <= i < n => EntryForReplay(d, i)),
      d.duration, Remaining(d.deadline, now), d.watchdog)
  }

  function ViewDecision(d: Option<DecisionState>, a: Audience, now: nat): Option<DecisionView> {
    if d.None? then None
    else match a
      case Player(viewer) => ViewAsPlayer(d.value, viewer, now)
      case Public => Some(ViewAsPublic(d.value, now))
      case BenchmarkAdmin => Some(ViewAsPublic(d.value, now))
      case ReplayAdmin => Some(ViewAsReplay(d.value, now))
  }

  function ProjectTable(t: TableState, a: Audience, now: nat): AudienceProjection {
    AudienceProjection(a, t.mode, t.round, t.kyotaku,
      seq(|t.players|, i requires 0 <= i < |t.players| => ViewPlayer(t.players[i], a)),
      t.doraIndicators, ViewDecision(t.decision, a, now), None)
  }

  // ----- What a projection can reveal -------------------------------------------

  predicate MeldsLookAlike(m: MeldState, n: MeldState) {
    m.isOpen == n.isOpen && (m.isOpen ==> m == n)
  }

  /** The parts of a seat that anyone may see agree. */
  predicate PlayersLookAlike(p: TablePlayerState, q: TablePlayerState) {
    && p.seat == q.seat && p.participant == q.participant && p.score == q.score
    && |p.hand| == |q.hand| && p.discards == q.discards && p.riichi == q.riichi
    && |p.melds| == |q.melds|
    && (forall i :: 0 <= i < |p.melds| ==> MeldsLookAlike(p.melds[i], q.melds[i]))
    && (forall k: nat :: k < |p.discards| ==> (p.riichiDiscardIndex == Some(k) <==> q.riichiDiscardIndex == Some(k)))
  }

  predicate PrivatePartsAgree(p: TablePlayerState, q: TablePlayerState) {
    p.hand == q.hand && p.melds == q.melds
  }

  /** The window's own parts, the same for everyone who sees it. */
  predicate WindowsLookAlike(d: DecisionState, e: DecisionState, now: nat) {
    && d.id == e.id && d.kind == e.kind && d.duration == e.duration && d.watchdog == e.watchdog
    && Remaining(d.deadline, now) == Remaining(e.deadline, now)
  }

  /** The seat has something to choose from in the window. */
  predicate Asked(d: Option<DecisionState>, seat: Seat) {
    d.Some? && EntryIndex(d.value.entries, seat).Some?
    && d.value.entries[EntryIndex(d.value.entries, seat).value].actions != []
  }

  /** One seat's own part of two windows agrees; its choices only while it has not answered. */
  predicate OwnPartsAgree(d: DecisionState, e: DecisionState, seat: Seat, now: nat)
    requires Asked(Some(d), seat) && Asked(Some(e), seat)
  {
    var x, y := d.entries[EntryIndex(d.entries, seat).value], e.entries[EntryIndex(e.entries, seat).value];
    && d.id == e.id && d.kind == e.kind && x.defaultActionId == y.defaultActionId
    && x.duration == y.duration && Remaining(x.deadline, now) == Remaining(y.deadline, now)
    && x.watchdog == y.watchdog && (x.submitted.Some? <==> y.submitted.Some?)
    && (x.submitted.None? ==> x.actions == y.actions)
  }

  predicate EntryLooksAlike(d: DecisionState, e: DecisionState, i: nat)
    requires i < |d.entries| && i < |e.entries|
  {
    && d.entries[i].seat == e.entries[i].seat && d.entries[i].actions == e.entries[i].actions
    && FirstFor(d, i).defaultActionId == FirstFor(e, i).defaultActionId
    && FirstFor(d, i).submitted == FirstFor(e, i).submitted
  }

  predicate EntriesLookAlike(d: DecisionState, e: DecisionState) {
    |d.entries| == |e.entries| && forall i :: 0 <= i < |d.entries| ==> EntryLooksAlike(d, e, i)
  }

  predicate DecisionsLookAlike(d: Option<DecisionState>, e: Option<DecisionState>, a: Audience, now: nat) {
    match a
    case Player(viewer) =>
      (Asked(d, viewer) <==> Asked(e, viewer)) && (Asked(d, viewer) ==> OwnPartsAgree(d.value, e.value, viewer, now))
    case Public => (d.Some? <==> e.Some?) && (d.Some? ==> WindowsLookAlike(d.value, e.value, now))
    case BenchmarkAdmin => (d.Some? <==> e.Some?) && (d.Some? ==> WindowsLookAlike(d.value, e.value, now))
    case ReplayAdmin =>
      && (d.Some? <==> e.Some?)
      && (d.Some? ==> WindowsLookAlike(d.value, e.value, now) && EntriesLookAlike(d.value, e.value))
  }

  /** Two tables that `a` cannot and should not tell apart at a moment. */
  predicate LookAlike(t: TableState, u: TableState, a: Audience, now: nat) {
    && t.mode == u.mode && t.round == u.round && t.kyotaku == u.kyotaku
    && t.doraIndicators == u.doraIndicators && |t.players| == |u.players|
    && DecisionsLookAlike(t.decision, u.decision, a, now)
    && forall i :: 0 <= i < |t.players| ==>
         && PlayersLookAlike(t.players[i], u.players[i])
         && (Sees(a, t.players[i].seat) ==> PrivatePartsAgree(t.players[i], u.players[i]))
  }

  /** An audience is shown of a window exactly what it is entitled to. */
  lemma WindowViewsAgreeIff(d: Option<DecisionState>, e: Option<DecisionState>, a: Audience, now: nat)
    ensures ViewDecision(d, a, now) == ViewDecision(e, a, now) <==> DecisionsLookAlike(d, e, a, now)
  {
    hide FirstFor, Remaining;
    if a.ReplayAdmin? && d.Some? && e.Some? { ReplayViewsAgreeIff(d.value, e.value, now); }
  }

  lemma ReplayViewsAgreeIff(d: DecisionState, e: DecisionState, now: nat)
    ensures ViewAsReplay(d, now) == ViewAsReplay(e, now) <==> WindowsLookAlike(d, e, now) && EntriesLookAlike(d, e)
  {
    hide FirstFor, Remaining, EntryForReplay, EntriesLookAlike;
    var v, w := ViewAsReplay(d, now), ViewAsReplay(e, now);
    EntriesAgreeIff(d, e);
    if |d.entries| == |e.entries| {
      if v == w {
        forall i | 0 <= i < |d.entries|
          ensures EntryForReplay(d, i) == EntryForReplay(e, i)
        {
          assert v.entries[i] == w.entries[i];
        }
      }
      if EntriesLookAlike(d, e) {
        SeatsOfEntries(d, e);
        assert v.entries == w.entries && v.eligible == w.eligible;
      }
    } else {
      assert |v.entries| != |w.entries|;
    }
  }

  lemma EntriesAgreeIff(d: DecisionState, e: DecisionState)
    ensures EntriesLookAlike(d, e) <==>
      |d.entries| == |e.entries| && forall i :: 0 <= i < |d.entries| ==> EntryForReplay(d, i) == EntryForReplay(e, i)
  {
    hide FirstFor;
    if |d.entries| == |e.entries| {
      forall i | 0 <= i < |d.entries|
        ensures EntryLooksAlike(d, e, i) <==> EntryForReplay(d, i) == EntryForReplay(e, i)
      {
      }
    }
  }

  lemma SeatsOfEntries(d: DecisionState, e: DecisionState)
    requires EntriesLookAlike(d, e)
    ensures |d.entries| == |e.entries| && forall i :: 0 <= i < |d.entries| ==> d.entries[i].seat == e.entries[i].seat
  {
    hide FirstFor;
    forall i | 0 <= i < |d.entries|
      ensures d.entries[i].seat == e.entries[i].seat
    {
      assert EntryLooksAlike(d, e, i);
    }
  }

  /** One seat's answer shows neither to another player nor to the public, only to the replay. */
  lemma AnswersStayHidden(d: DecisionState, seat: Seat, id: ActionId, at: nat, a: Audience, now: nat)
    requires Sound(d) && a != ReplayAdmin && a != Player(seat)
    ensures ViewDecision(Some(Submit(d, seat, id, at).0), a, now) == ViewDecision(Some(d), a, now)
  {
    hide Sound, Remaining, Submit, AcceptedResolution;
    SubmitTouchesOne(d, seat, id, at);
    var d' := Submit(d, seat, id, at).0;
    if a.Player? {
      var before, after := EntryIndex(d.entries, a.viewer), EntryIndex(d'.entries, a.viewer);
      assert before == after;
    }
  }

  /** An answer changes its own seat's entry at most, and neither the window's name nor its clock. */
  lemma SubmitTouchesOne(d: DecisionState, seat: Seat, id: ActionId, at: nat)
    requires Sound(d)
    ensures var d' := Submit(d, seat, id, at).0;
      && d'.id == d.id && d'.kind == d.kind && d'.duration == d.duration && d'.deadline == d.deadline
      && d'.watchdog == d.watchdog && |d'.entries| == |d.entries|
      && forall i :: 0 <= i < |d.entries| ==>
           && d'.entries[i].seat == d.entries[i].seat
           && (d.entries[i].seat != seat ==> d'.entries[i] == d.entries[i])
  {
    hide Sound, AcceptedResolution;
  }

  lemma SeatsLookAlikeIff(p: TablePlayerState, q: TablePlayerState, a: Audience)
    ensures ViewPlayer(p, a) == ViewPlayer(q, a) <==>
      PlayersLookAlike(p, q) && (Sees(a, p.seat) ==> PrivatePartsAgree(p, q))
  {
    var v, w := ViewPlayer(p, a), ViewPlayer(q, a);
    if v == w {
      assert p.seat == q.seat && |p.melds| == |q.melds|;
      forall i | 0 <= i < |p.melds|
        ensures MeldsLookAlike(p.melds[i], q.melds[i]) && (Sees(a, p.seat) ==> p.melds[i] == q.melds[i])
      {
        assert v.melds[i] == w.melds[i];
      }
      forall k: nat | k < |p.discards|
        ensures p.riichiDiscardIndex == Some(k) <==> q.riichiDiscardIndex == Some(k)
      {
        assert v.riichiDiscardIndex == Some(k) <==> p.riichiDiscardIndex == Some(k);
      }
      if Sees(a, p.seat) {
        assert v.hand.value == w.hand.value;
        assert p.melds == q.melds;
      }
    }
    if PlayersLookAlike(p, q) && (Sees(a, p.seat) ==> PrivatePartsAgree(p, q)) {
      assert v.melds == w.melds;
      assert v.riichiDiscardIndex == w.riichiDiscardIndex;
    }
  }

  /**
   * An audience sees exactly what it is entitled to: two tables project to the same view if and
   * only if they agree on everything public and on the private parts of the seats it may see.
   */
  lemma ViewsAgreeIff(t: TableState, u: TableState, a: Audience, now: nat)
    ensures ProjectTable(t, a, now) == ProjectTable(u, a, now) <==> LookAlike(t, u, a, now)
  {
    WindowViewsAgreeIff(t.decision, u.decision, a, now);
    hide ViewDecision, DecisionsLookAlike;
    var v, w := ProjectTable(t, a, now), ProjectTable(u, a, now);
    if |t.players| == |u.players| {
      forall i | 0 <= i < |t.players|
        ensures v.players[i] == w.players[i] <==>
          && PlayersLookAlike(t.players[i], u.players[i])
          && (Sees(a, t.players[i].seat) ==> PrivatePartsAgree(t.players[i], u.players[i]))
      {
        SeatsLookAlikeIff(t.players[i], u.players[i], a);
      }
      hide PlayersLookAlike, PrivatePartsAgree, ViewPlayer;
      if LookAlike(t, u, a, now) { assert v.players == w.players; }
    } else {
      assert |v.players| != |w.players|;
    }
  }

  // ----- The time that is shown --------------------------------------------------------------------

  /** The time a view shows, and the deadline it is measured against. */
  predicate ShowsTimeLeft(shown: Option<nat>, deadline: Option<nat>, now: nat) {
    match deadline
    case None => shown.None?
    case Some(d) => shown.Some? && if now < d then now + shown.value == d else shown.value == 0
  }

  /**
   * Whatever an audience is shown of the open window, its clock is the one that runs: a player sees
   * its own seat's, everyone else the common one, as the time left until the deadline and zero after.
   */
  lemma ShownClockRuns(d: DecisionState, a: Audience, now: nat)
    ensures var view := ViewDecision(Some(d), a, now);
      view.Some? ==>
        && view.value.decisionId == d.id && view.value.kind == d.kind
        && if a.Player? then
             exists k :: 0 <= k < |d.entries| && d.entries[k].seat == a.viewer
               && ShowsTimeLeft(view.value.remaining, d.entries[k].deadline, now)
               && view.value.duration == d.entries[k].duration && view.value.watchdog == d.entries[k].watchdog
           else
             ShowsTimeLeft(view.value.remaining, d.deadline, now)
             && view.value.duration == d.duration && view.value.watchdog == d.watchdog
  {
    if a.Player? && ViewDecision(Some(d), a, now).Some? {
      var k := EntryIndex(d.entries, a.viewer).value;
      assert ShowsTimeLeft(Remaining(d.entries[k].deadline, now), d.entries[k].deadline, now);
    }
  }
}
