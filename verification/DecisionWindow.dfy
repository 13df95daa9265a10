// The decision window as the server keeps it: one object whose entries are answered in place.

module DecisionWindow {
  import opened Wrappers
  import opened Domain
  import opened DecisionSpec

  class Decision {
    var id: DecisionId
    var kind: DecisionKind
    var entries: seq<DecisionSeat>
    var openedAt: nat
    var duration: Option<nat>
    var deadline: Option<nat>
    var watchdog: bool
    var closed: bool

    function State(): DecisionState
      reads this
    {
      DecisionState(id, kind, entries, openedAt, duration, deadline, watchdog, closed)
    }

    constructor (d: DecisionState)
      ensures State() == d
    {
      id, kind, entries := d.id, d.kind, d.entries;
      openedAt, duration, deadline := d.openedAt, d.duration, d.deadline;
      watchdog, closed := d.watchdog, d.closed;
    }

    /** Opens a window on every offered seat, or reports the first seat without a safe default. */
    static method FromActionIdsWithTimings(id: DecisionId, kind: DecisionKind, offers: seq<SeatOffer>, openedAt: nat)
      returns (r: Result<Decision, DecisionError>)
      ensures r.Err? <==> OpenDecision(id, kind, offers, openedAt).Err?
      ensures r.Err? ==> r.error == OpenDecision(id, kind, offers, openedAt).error
      ensures r.Ok? ==>
        && fresh(r.value) && Ok(r.value.State()) == OpenDecision(id, kind, offers, openedAt)
        && Sound(r.value.State())
    {
      hide OpenEntry, Sound;
      var built := [];
      for i := 0 to |offers|
        invariant OpenEntries(offers[..i], openedAt) == Ok(built)
      {
        assert offers[..i + 1][..i] == offers[..i];
        var entry := OpenEntry(offers[i], openedAt);
        if entry.Err? {
          FirstFailureDecides(offers, i + 1, openedAt);
          return Err(entry.error);
        }
        built := built + [entry.value];
      }
      assert offers[..|offers|] == offers;
      var d := new Decision(DecisionState(id, kind, built, openedAt, None, None, false, false));
      d.RecomputeTimingInPlace();
      OpenDecisionSound(id, kind, offers, openedAt);
      return Ok(d);
    }

    method RecomputeTimingInPlace()
      modifies this
      ensures State() == RecomputeTiming(old(State()))
    {
      if entries == [] {
        duration, deadline, watchdog := None, None, false;
        return;
      }
      var first := entries[0];
      if Uniform(entries) {
        openedAt, duration, deadline, watchdog := first.openedAt, first.duration, first.deadline, first.watchdog;
      } else {
        duration, deadline, watchdog := None, None, false;
      }
    }

    method Retime(seat: Seat, openedAt: nat, duration: Option<nat>, watchdog: bool)
      requires Sound(State())
      modifies this
      ensures State() == RetimeFor(old(State()), seat, openedAt, duration, watchdog)
      ensures Sound(State())
    {
      RetimeKeeps(State(), seat, openedAt, duration, watchdog);
      hide Sound;
      var k := EntryIndex(entries, seat);
      if k.Some? {
        entries := entries[k.value := Retimed(entries[k.value], openedAt, duration, watchdog)];
      }
      RecomputeTimingInPlace();
    }

    method SubmitAt(seat: Seat, actionId: ActionId, now: nat)
      returns (r: Result<DecisionSubmission, DecisionError>)
      requires Sound(State())
      modifies this
      ensures (State(), r) == Submit(old(State()), seat, actionId, now)
      ensures Sound(State())
    {
      SubmitKeeps(State(), seat, actionId, now);
      if closed { return Err(Closed); }
      var k := EntryIndex(entries, seat);
      if k.None? { return Err(NotEligible(seat)); }
      var entry := entries[k.value];
      if Due(entry, now) { return Err(Expired); }
      if entry.submitted.Some? { return Err(AlreadyConsumed(seat)); }
      if ActionIndex(entry.actions, actionId).None? { return Err(ForeignAction(seat, actionId)); }
      entries := entries[k.value := entry.(submitted := Some(actionId))];
      if AllSubmitted(entries) {
        closed := true;
        return Ok(Resolved(AcceptedResolution(State())));
      }
      return Ok(Accepted(false));
    }

    method SubmitForDecision(decisionId: DecisionId, seat: Seat, actionId: ActionId, now: nat)
      returns (r: Result<DecisionSubmission, DecisionError>)
      requires Sound(State())
      modifies this
      ensures (State(), r) == SubmitWithDecisionId(old(State()), decisionId, seat, actionId, now)
      ensures Sound(State())
    {
      hide Sound, Submit;
      if decisionId != id { return Err(StaleDecision(id, decisionId)); }
      r := SubmitAt(seat, actionId, now);
    }

    method Resolve(now: nat) returns (r: Option<DecisionResolution>)
      requires Sound(State())
      modifies this
      ensures (State(), r) == ResolveAt(old(State()), now)
      ensures Sound(State())
    {
      hide Sound, SoundEntry, TimeOutAll, TimeOut, Due, Extends, ResolvedOf;
      ResolveKeeps(State(), now);
      if closed { return None; }
      if forall i :: 0 <= i < |entries| ==> !Due(entries[i], now) { return None; }
      var timedOut := TimeOutSilentSeats(now);
      if timedOut == [] || !AllSubmitted(entries) { return None; }
      TimedOutAnswersAreLegal(old(State()), now);
      var resolution := AcceptedResolution(State());
      closed := true;
      return Some(resolution);
    }

    /** Gives every silent seat whose deadline has passed its default; returns those seats. */
    method TimeOutSilentSeats(now: nat) returns (timedOut: seq<Seat>)
      modifies this
      ensures State() == old(State()).(entries := TimeOutAll(old(entries), now))
      ensures timedOut != [] <==> NewlyTimedOut(old(entries), now)
    {
      ghost var before := entries;
      timedOut := [];
      var i := 0;
      while i < |entries|
        invariant 0 <= i <= |entries| == |before|
        invariant State() == old(State()).(entries := entries)
        invariant forall j :: 0 <= j < i ==> entries[j] == TimeOut(before[j], now)
        invariant forall j :: i <= j < |entries| ==> entries[j] == before[j]
        invariant timedOut != [] <==> exists j :: 0 <= j < i && before[j].submitted.None? && Due(before[j], now)
      {
        var entry := entries[i];
        if entry.submitted.None? && Due(entry, now) {
          entries := entries[i := entry.(submitted := Some(entry.defaultActionId), timedOut := true)];
          timedOut := timedOut + [entry.seat];
        }
        i := i + 1;
      }
      assert entries == TimeOutAll(before, now);
    }
  }

  lemma TimedOutAnswersAreLegal(d: DecisionState, now: nat)
    requires Sound(d) && AllSubmitted(TimeOutAll(d.entries, now))
    ensures Answered(TimeOutAll(d.entries, now))
  {
    forall i | 0 <= i < |d.entries|
      ensures SoundEntry(TimeOut(d.entries[i], now))
    {
      TimeOutStep(d.entries[i], now);
    }
  }

  /** A failing prefix decides the whole list. */
  lemma {:induction false} FirstFailureDecides(offers: seq<SeatOffer>, k: nat, openedAt: nat)
    requires k <= |offers| && OpenEntries(offers[..k], openedAt).Err?
    ensures OpenEntries(offers, openedAt) == OpenEntries(offers[..k], openedAt)
    decreases |offers|
  {
    if k == |offers| {
      assert offers[..k] == offers;
    } else {
      var front := offers[..|offers| - 1];
      assert front[..k] == offers[..k];
      FirstFailureDecides(front, k, openedAt);
    }
  }
}
