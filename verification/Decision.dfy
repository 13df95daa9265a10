// One decision window: several seats answer independently, each against its own clock.

module DecisionSpec {
  import opened Wrappers
  import opened Sequences
  import opened Domain

  type ActionId = string
  type DecisionId = string

  datatype DecisionKind = Turn | Response

  datatype DecisionAction = DecisionAction(id: ActionId, action: GameAction)

  datatype DecisionSeat = DecisionSeat(
    seat: Seat,
    actions: seq<DecisionAction>,
    defaultActionId: ActionId,
    submitted: Option<ActionId>,
    openedAt: nat,
    duration: Option<nat>,
    deadline: Option<nat>,
    watchdog: bool,
    timedOut: bool)

  datatype DecisionState = DecisionState(
    id: DecisionId,
    kind: DecisionKind,
    entries: seq<DecisionSeat>,
    openedAt: nat,
    duration: Option<nat>,
    deadline: Option<nat>,
    watchdog: bool,
    closed: bool)

  datatype DecisionError =
    | StaleDecision(expected: DecisionId, received: DecisionId)
    | ForeignAction(seat: Seat, actionId: ActionId)
    | AlreadyConsumed(seat: Seat)
    | NotEligible(seat: Seat)
    | NoSafeDefault(seat: Seat)
    | Expired
    | Closed

  datatype ResolvedAction =
    ResolvedAction(seat: Seat, actionId: ActionId, action: GameAction, timedOut: bool)

  datatype DecisionResolution =
    DecisionResolution(decisionId: DecisionId, actions: seq<ResolvedAction>)

  datatype DecisionSubmission = Accepted(complete: bool) | Resolved(resolution: DecisionResolution)

  /** What the caller offers a seat when a window opens. */
  datatype SeatOffer =
    SeatOffer(seat: Seat, actions: seq<DecisionAction>, duration: Option<nat>, watchdog: bool)

  // ----- Reading a decision -------------------------------------------------

  function EntryIndex(entries: seq<DecisionSeat>, seat: Seat): (r: Option<nat>)
    ensures r.Some? ==> r.value < |entries| && entries[r.value].seat == seat
    ensures r.Some? ==> forall j :: 0 <= j < r.value ==> entries[j].seat != seat
    ensures r.None? ==> forall j :: 0 <= j < |entries| ==> entries[j].seat != seat
  {
    First(entries, (e: DecisionSeat) => e.seat == seat)
  }

  function ActionIndex(actions: seq<DecisionAction>, id: ActionId): (r: Option<nat>)
    ensures r.Some? ==> r.value < |actions| && actions[r.value].id == id
    ensures r.None? ==> forall j :: 0 <= j < |actions| ==> actions[j].id != id
  {
    First(actions, (a: DecisionAction) => a.id == id)
  }

  /** Passing is safest, then discarding the tile just drawn, then any discard. */
  function DefaultAction(seat: Seat, actions: seq<DecisionAction>): (r: Result<ActionId, DecisionError>)
    ensures r.Ok? ==> ActionIndex(actions, r.value).Some?
  {
    match First(actions, (a: DecisionAction) => a.action.Pass?)
    case Some(i) => Ok(actions[i].id)
    case None =>
      match First(actions, (a: DecisionAction) => a.action.Discard? && a.action.tsumogiri)
      case Some(i) => Ok(actions[i].id)
      case None =>
        match First(actions, (a: DecisionAction) => a.action.Discard?)
        case Some(i) => Ok(actions[i].id)
        case None => Err(NoSafeDefault(seat))
  }

  function DeadlineOf(openedAt: nat, duration: Option<nat>): Option<nat> {
    match duration
    case None => None
    case Some(d) => Some(openedAt + d)
  }

  predicate Due(e: DecisionSeat, now: nat) { e.deadline.Some? && now >= e.deadline.value }

  predicate AllSubmitted(entries: seq<DecisionSeat>) {
    forall i :: 0 <= i < |entries| ==> entries[i].submitted.Some?
  }

  predicate SameClock(e: DecisionSeat, f: DecisionSeat) {
    e.openedAt == f.openedAt && e.duration == f.duration && e.watchdog == f.watchdog
  }

  predicate Uniform(entries: seq<DecisionSeat>)
    requires entries != []
  {
    forall i :: 0 <= i < |entries| ==> SameClock(entries[i], entries[0])
  }

  // ----- Invariants ---------------------------------------------------------

  predicate SoundEntry(e: DecisionSeat) {
    && ActionIndex(e.actions, e.defaultActionId).Some?
    && (e.submitted.Some? ==> ActionIndex(e.actions, e.submitted.value).Some?)
    && (e.timedOut ==> e.submitted == Some(e.defaultActionId))
    && e.deadline == DeadlineOf(e.openedAt, e.duration)
  }

  /** Every choice is legal, and the window is closed exactly when everyone has answered. */
  predicate Sound(d: DecisionState) {
    && (forall i :: 0 <= i < |d.entries| ==> SoundEntry(d.entries[i]))
    && (d.closed ==> AllSubmitted(d.entries))
    && (d.entries != [] && AllSubmitted(d.entries) ==> d.closed)
    && RecomputeTiming(d) == d
  }

  predicate DistinctSeats(entries: seq<DecisionSeat>) {
    forall i, j :: 0 <= i < j < |entries| ==> entries[i].seat != entries[j].seat
  }

  // ----- Operations on values -----------------------------------------------

  /** The window shows one clock only while every seat is on the same one. */
  function RecomputeTiming(d: DecisionState): DecisionState {
    if d.entries == [] then d.(duration := None, deadline := None, watchdog := false)
    else if Uniform(d.entries) then
      var first := d.entries[0];
      d.(openedAt := first.openedAt, duration := first.duration,
         deadline := first.deadline, watchdog := first.watchdog)
    else d.(duration := None, deadline := None, watchdog := false)
  }

  function ResolvedOf(e: DecisionSeat): (r: ResolvedAction)
    requires e.submitted.Some? && ActionIndex(e.actions, e.submitted.value).Some?
    ensures r.seat == e.seat && r.actionId == e.submitted.value && r.timedOut == e.timedOut
    ensures DecisionAction(r.actionId, r.action) in e.actions
  {
    var action := e.actions[ActionIndex(e.actions, e.submitted.value).value];
    ResolvedAction(e.seat, action.id, action.action, e.timedOut)
  }

  predicate Answered(entries: seq<DecisionSeat>) {
    forall i :: 0 <= i < |entries| ==>
      entries[i].submitted.Some? && ActionIndex(entries[i].actions, entries[i].submitted.value).Some?
  }

  function AcceptedResolution(d: DecisionState): DecisionResolution
    requires Answered(d.entries)
  {
    DecisionResolution(d.id, seq(|d.entries|, i requires 0 <= i < |d.entries| => ResolvedOf(d.entries[i])))
  }

  function OpenEntry(offer: SeatOffer, openedAt: nat): Result<DecisionSeat, DecisionError> {
    match DefaultAction(offer.seat, offer.actions)
    case Err(e) => Err(e)
    case Ok(id) =>
      Ok(DecisionSeat(offer.seat, offer.actions, id, None, openedAt, offer.duration,
                      DeadlineOf(openedAt, offer.duration), offer.watchdog, false))
  }

  /** Opens every seat, or fails with the first seat that has no safe default. */
  function OpenEntries(offers: seq<SeatOffer>, openedAt: nat): (r: Result<seq<DecisionSeat>, DecisionError>)
    ensures r.Ok? ==> |r.value| == |offers|
    ensures r.Ok? ==> forall i :: 0 <= i < |offers| ==> OpenEntry(offers[i], openedAt) == Ok(r.value[i])
    ensures r.Err? ==> exists k :: 0 <= k < |offers| && OpenEntry(offers[k], openedAt) == Err(r.error)
  {
    if offers == [] then Ok([])
    else
      var last := |offers| - 1;
      match OpenEntries(offers[..last], openedAt)
      case Err(e) => Err(e)
      case Ok(entries) =>
        match OpenEntry(offers[last], openedAt)
        case Err(e) => Err(e)
        case Ok(entry) => Ok(entries + [entry])
  }

  function OpenDecision(id: DecisionId, kind: DecisionKind, offers: seq<SeatOffer>, openedAt: nat)
    : Result<DecisionState, DecisionError>
  {
    match OpenEntries(offers, openedAt)
    case Err(e) => Err(e)
    case Ok(entries) =>
      Ok(RecomputeTiming(DecisionState(id, kind, entries, openedAt, None, None, false, false)))
  }

  /** The state after `seat`, at position `k`, answers with `id`. */
  function Answer(d: DecisionState, k: nat, id: ActionId): DecisionState
    requires k < |d.entries|
  {
    var d' := d.(entries := d.entries[k := d.entries[k].(submitted := Some(id))]);
    d'.(closed := AllSubmitted(d'.entries))
  }

  function Submit(d: DecisionState, seat: Seat, id: ActionId, now: nat)
    : (r: (DecisionState, Result<DecisionSubmission, DecisionError>))
    requires Sound(d)
    ensures r.1.Err? ==> r.0 == d
  {
    if d.closed then (d, Err(Closed))
    else match EntryIndex(d.entries, seat)
      case None => (d, Err(NotEligible(seat)))
      case Some(k) =>
        if Due(d.entries[k], now) then (d, Err(Expired))
        else if d.entries[k].submitted.Some? then (d, Err(AlreadyConsumed(seat)))
        else if ActionIndex(d.entries[k].actions, id).None? then (d, Err(ForeignAction(seat, id)))
        else
          var d' := Answer(d, k, id);
          if d'.closed then (d', Ok(Resolved(AcceptedResolution(d')))) else (d', Ok(Accepted(false)))
  }

  function SubmitWithDecisionId(d: DecisionState, decisionId: DecisionId, seat: Seat, id: ActionId, now: nat)
    : (r: (DecisionState, Result<DecisionSubmission, DecisionError>))
    requires Sound(d)
  {
    if decisionId != d.id then (d, Err(StaleDecision(d.id, decisionId))) else Submit(d, seat, id, now)
  }

  /** A seat out of time takes its default; any other seat is left alone. */
  function TimeOut(e: DecisionSeat, now: nat): DecisionSeat {
    if e.submitted.None? && Due(e, now) then e.(submitted := Some(e.defaultActionId), timedOut := true) else e
  }

  function TimeOutAll(entries: seq<DecisionSeat>, now: nat): (r: seq<DecisionSeat>)
    ensures |r| == |entries|
  {
    seq(|entries|, i requires 0 <= i < |entries| => TimeOut(entries[i], now))
  }

  predicate NewlyTimedOut(entries: seq<DecisionSeat>, now: nat) {
    exists i :: 0 <= i < |entries| && entries[i].submitted.None? && Due(entries[i], now)
  }

  function ResolveAt(d: DecisionState, now: nat): (r: (DecisionState, Option<DecisionResolution>))
    requires Sound(d)
  {
    if d.closed || forall i :: 0 <= i < |d.entries| ==> !Due(d.entries[i], now) then (d, None)
    else
      var entries := TimeOutAll(d.entries, now);
      var d' := d.(entries := entries);
      if !NewlyTimedOut(d.entries, now) || !AllSubmitted(entries) then (d', None)
      else (d'.(closed := true), Some(AcceptedResolution(d')))
  }

  /** An entry with a new clock, everything else as before. */
  function Retimed(e: DecisionSeat, openedAt: nat, duration: Option<nat>, watchdog: bool): DecisionSeat {
    e.(openedAt := openedAt, duration := duration,
       deadline := DeadlineOf(openedAt, duration), watchdog := watchdog)
  }

  function RetimeFor(d: DecisionState, seat: Seat, openedAt: nat, duration: Option<nat>, watchdog: bool)
    : DecisionState
  {
    match EntryIndex(d.entries, seat)
    case None => RecomputeTiming(d)
    case Some(k) =>
      RecomputeTiming(d.(entries := d.entries[k := Retimed(d.entries[k], openedAt, duration, watchdog)]))
  }

  // ----- Every operation keeps the invariant ---------------------------------

  /** Identity, choices offered and default of an entry never change. */
  predicate SameOffer(e: DecisionSeat, f: DecisionSeat) {
    e.seat == f.seat && e.actions == f.actions && e.defaultActionId == f.defaultActionId
  }

  /** `d'` differs from `d` only by new answers and clocks; an answer once given stays. */
  predicate Extends(d: DecisionState, d': DecisionState) {
    && d'.id == d.id && d'.kind == d.kind && |d'.entries| == |d.entries|
    && (d.closed ==> d'.closed)
    && forall i :: 0 <= i < |d.entries| ==>
         && SameOffer(d.entries[i], d'.entries[i])
         && (d.entries[i].submitted.Some? ==>
               && d'.entries[i].submitted == d.entries[i].submitted
               && d'.entries[i].timedOut == d.entries[i].timedOut)
  }

  lemma RecomputeTimingIdempotent(d: DecisionState)
    ensures RecomputeTiming(RecomputeTiming(d)) == RecomputeTiming(d)
  {
  }

  lemma OpenDecisionSound(id: DecisionId, kind: DecisionKind, offers: seq<SeatOffer>, openedAt: nat)
    requires OpenDecision(id, kind, offers, openedAt).Ok?
    ensures var d := OpenDecision(id, kind, offers, openedAt).value;
      && Sound(d) && !d.closed && d.id == id && |d.entries| == |offers|
      && forall i :: 0 <= i < |offers| ==>
           d.entries[i].submitted.None? && OpenEntry(offers[i], openedAt) == Ok(d.entries[i])
  {
    var entries := OpenEntries(offers, openedAt).value;
    forall i | 0 <= i < |offers|
      ensures SoundEntry(entries[i]) && entries[i].submitted.None?
    {
      assert OpenEntry(offers[i], openedAt) == Ok(entries[i]);
    }
    RecomputeTimingIdempotent(DecisionState(id, kind, entries, openedAt, None, None, false, false));
    if entries != [] { assert entries[0].submitted.None?; }
  }

  /** What answering may do to one entry. */
  predicate AnswerStep(e: DecisionSeat, f: DecisionSeat) {
    && SameOffer(e, f) && SameClock(e, f) && e.deadline == f.deadline && SoundEntry(f)
    && (e.submitted.Some? ==> f.submitted == e.submitted && f.timedOut == e.timedOut)
  }

  predicate SameShownClock(d: DecisionState, d': DecisionState) {
    && d'.openedAt == d.openedAt && d'.duration == d.duration
    && d'.deadline == d.deadline && d'.watchdog == d.watchdog
  }

  /** Answering never touches a clock, so the shown clock cannot move. */
  lemma AnswersKeepTiming(d: DecisionState, d': DecisionState)
    requires RecomputeTiming(d) == d
    requires |d'.entries| == |d.entries| && SameShownClock(d, d')
    requires forall i :: 0 <= i < |d.entries| ==> AnswerStep(d.entries[i], d'.entries[i])
    ensures RecomputeTiming(d') == d'
  {
    if d.entries != [] {
      assert AnswerStep(d.entries[0], d'.entries[0]);
      assert Uniform(d'.entries) <==> Uniform(d.entries);
    }
  }

  lemma AnswersKeep(d: DecisionState, d': DecisionState)
    requires Sound(d)
    requires d'.id == d.id && d'.kind == d.kind && |d'.entries| == |d.entries| && SameShownClock(d, d')
    requires forall i :: 0 <= i < |d.entries| ==> AnswerStep(d.entries[i], d'.entries[i])
    requires d.entries != [] ==> (d'.closed <==> AllSubmitted(d'.entries))
    requires d.entries == [] ==> d'.closed == d.closed
    ensures Sound(d') && Extends(d, d')
  {
    AnswersKeepTiming(d, d');
    if d.closed && d.entries != [] {
      assert forall i :: 0 <= i < |d.entries| ==> d'.entries[i].submitted == d.entries[i].submitted;
    }
  }

  lemma SubmitKeeps(d: DecisionState, seat: Seat, id: ActionId, now: nat)
    requires Sound(d)
    ensures Sound(Submit(d, seat, id, now).0) && Extends(d, Submit(d, seat, id, now).0)
  {
    var d' := Submit(d, seat, id, now).0;
    if d' != d {
      var k := EntryIndex(d.entries, seat).value;
      assert d' == Answer(d, k, id);
      forall i | 0 <= i < |d.entries|
        ensures AnswerStep(d.entries[i], d'.entries[i])
      {
        assert SoundEntry(d.entries[i]);
      }
      AnswersKeep(d, d');
    }
  }

  lemma TimeOutStep(e: DecisionSeat, now: nat)
    requires SoundEntry(e)
    ensures AnswerStep(e, TimeOut(e, now))
  {
  }

  lemma ResolveKeeps(d: DecisionState, now: nat)
    requires Sound(d)
    ensures Sound(ResolveAt(d, now).0) && Extends(d, ResolveAt(d, now).0)
  {
    var d' := ResolveAt(d, now).0;
    if d' != d {
      forall i | 0 <= i < |d.entries|
        ensures AnswerStep(d.entries[i], d'.entries[i])
      {
        TimeOutStep(d.entries[i], now);
      }
      AnswersKeep(d, d');
    }
  }

  lemma RetimedEntryKeeps(d: DecisionState, k: nat, openedAt: nat, duration: Option<nat>, watchdog: bool)
    requires Sound(d) && k < |d.entries|
    ensures Reclocked(d, d.entries[k := Retimed(d.entries[k], openedAt, duration, watchdog)])
  {
    assert SoundEntry(d.entries[k]);
  }

  /** `entries` are those of `d` with other clocks. */
  predicate Reclocked(d: DecisionState, entries: seq<DecisionSeat>) {
    && |entries| == |d.entries|
    && forall i :: 0 <= i < |entries| ==>
         && SoundEntry(entries[i]) && SameOffer(d.entries[i], entries[i])
         && entries[i].submitted == d.entries[i].submitted && entries[i].timedOut == d.entries[i].timedOut
  }

  lemma ReclockedKeeps(d: DecisionState, entries: seq<DecisionSeat>)
    requires Sound(d) && Reclocked(d, entries)
    ensures var d' := RecomputeTiming(d.(entries := entries));
      Sound(d') && Extends(d, d') && d'.closed == d.closed
  {
    RecomputeTimingIdempotent(d.(entries := entries));
    assert AllSubmitted(entries) <==> AllSubmitted(d.entries);
  }

  lemma RetimeKeeps(d: DecisionState, seat: Seat, openedAt: nat, duration: Option<nat>, watchdog: bool)
    requires Sound(d)
    ensures Sound(RetimeFor(d, seat, openedAt, duration, watchdog))
    ensures Extends(d, RetimeFor(d, seat, openedAt, duration, watchdog))
    ensures RetimeFor(d, seat, openedAt, duration, watchdog).closed == d.closed
  {
    ReclockedKeeps(d, d.entries);
    hide Sound, Extends, Reclocked, RecomputeTiming;
    if EntryIndex(d.entries, seat).Some? {
      var k := EntryIndex(d.entries, seat).value;
      RetimedEntryKeeps(d, k, openedAt, duration, watchdog);
      ReclockedKeeps(d, d.entries[k := Retimed(d.entries[k], openedAt, duration, watchdog)]);
    }
  }
}
