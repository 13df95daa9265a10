// What a freshly opened window asks: everyone who can act, for everything that is legal, under
// ids no two of which are the same.

module WindowOpening {
  import opened Wrappers
  import opened Domain
  import opened DecisionSpec
  import opened DecisionProofs
  import opened MatchSpec
  import opened Clocks
  import Freshness

  type Legal = seq<Result<seq<GameAction>, string>>

  /** The number of the first action id a seat gets. */
  function FirstId(m: MatchState, legal: Legal, seat: nat): nat
    requires AllLegal(legal) && seat <= |legal|
  {
    assert AllLegal(legal[..seat]);
    m.nextActionId + CountActions(legal[..seat])
  }

  predicate OfferOf(m: MatchState, legal: Legal, offer: SeatOffer)
    requires AllLegal(legal)
  {
    && offer.seat < |legal| && legal[offer.seat].value != []
    && offer.actions == NameActions(legal[offer.seat].value, FirstId(m, legal, offer.seat))
  }

  /** The offers are those of the first `n` seats with something to do, in seat order. */
  ghost predicate OffersOf(m: MatchState, legal: Legal, offers: seq<SeatOffer>, n: nat)
    requires AllLegal(legal) && n <= |legal|
  {
    && (forall i :: 0 <= i < |offers| ==> offers[i].seat < n && OfferOf(m, legal, offers[i]))
    && (forall i, j :: 0 <= i < j < |offers| ==> offers[i].seat < offers[j].seat)
    && forall s :: 0 <= s < n && legal[s].value != [] ==> exists i :: 0 <= i < |offers| && offers[i].seat == s
  }

  lemma {:induction false} EveryoneGetsAnOffer(m: MatchState, legal: Legal, kind: DecisionKind, n: nat)
    requires SeatsFit(m) && |legal| == |m.players| && AllLegal(legal) && n <= |legal|
    ensures OffersOf(m, legal, OffersUpTo(m, legal, kind, n), n)
  {
    hide OfferOf, DecisionTimingFor, CountActions, NameActions;
    if n > 0 {
      EveryoneGetsAnOffer(m, legal, kind, n - 1);
      var before, offers := OffersUpTo(m, legal, kind, n - 1), OffersUpTo(m, legal, kind, n);
      if legal[n - 1].value != [] {
        NextOfferIsTheSeats(m, legal, kind, n);
        OneMoreOffer(m, legal, before, offers[|before|], n);
      } else {
        SilentSeatGetsNone(m, legal, before, n);
      }
    }
  }

  lemma NextOfferIsTheSeats(m: MatchState, legal: Legal, kind: DecisionKind, n: nat)
    requires SeatsFit(m) && |legal| == |m.players| && AllLegal(legal) && 0 < n <= |legal| && legal[n - 1].value != []
    ensures var before, offers := OffersUpTo(m, legal, kind, n - 1), OffersUpTo(m, legal, kind, n);
      |offers| == |before| + 1 && offers == before + [offers[|before|]]
      && offers[|before|].seat == n - 1 && OfferOf(m, legal, offers[|before|])
  {
    hide DecisionTimingFor;
  }

  lemma OneMoreOffer(m: MatchState, legal: Legal, before: seq<SeatOffer>, offer: SeatOffer, n: nat)
    requires AllLegal(legal) && 0 < n <= |legal| && OffersOf(m, legal, before, n - 1)
    requires offer.seat == n - 1 && OfferOf(m, legal, offer)
    ensures OffersOf(m, legal, before + [offer], n)
  {
    hide OfferOf;
    var offers := before + [offer];
    forall s | 0 <= s < n && legal[s].value != []
      ensures exists i :: 0 <= i < |offers| && offers[i].seat == s
    {
      if s == n - 1 {
        assert offers[|before|].seat == s;
      } else {
        var i :| 0 <= i < |before| && before[i].seat == s;
        assert offers[i].seat == s;
      }
    }
  }

  lemma SilentSeatGetsNone(m: MatchState, legal: Legal, before: seq<SeatOffer>, n: nat)
    requires AllLegal(legal) && 0 < n <= |legal| && OffersOf(m, legal, before, n - 1) && legal[n - 1].value == []
    ensures OffersOf(m, legal, before, n)
  {
    hide OfferOf;
  }

  lemma {:induction false} LaterSeatsGetLaterIds(m: MatchState, legal: Legal, s: nat, t: nat)
    requires AllLegal(legal) && s < t <= |legal|
    ensures FirstId(m, legal, s) + |legal[s].value| <= FirstId(m, legal, t)
    decreases t
  {
    assert legal[..t][..t - 1] == legal[..t - 1];
    assert AllLegal(legal[..t]) && AllLegal(legal[..t - 1]);
    if s < t - 1 { LaterSeatsGetLaterIds(m, legal, s, t - 1); }
  }

  /** A window just opened for these legal actions. */
  ghost predicate OpenedFor(m: MatchState, env: Env, d: DecisionState)
    requires Fits(m) && EnvFits(m.mode, env)
  {
    m.decision.None? && CurrentDecision(m, env).0.decision == Some(d)
  }

  /** Entry for entry: a seat that can act, asked for exactly its legal actions under its own ids. */
  lemma EntriesAreTheOffers(m: MatchState, env: Env, d: DecisionState)
    requires Fits(m) && EnvFits(m.mode, env) && OpenedFor(m, env, d)
    ensures AllLegal(env.legal) && d.kind == KindOf(env.legal)
    ensures var offers := OffersUpTo(m, env.legal, d.kind, |env.legal|);
      && OffersOf(m, env.legal, offers, |env.legal|) && |d.entries| == |offers|
      && forall i :: 0 <= i < |offers| ==>
           d.entries[i].seat == offers[i].seat && d.entries[i].actions == offers[i].actions
  {
    hide Fits, KindOf, OffersUpTo, Sound, CurrentDecision, OffersOf;
    OpeningKeepsSeats(m, env);
    FitsHasSeats(m, env);
    var kind := KindOf(env.legal);
    var offers := OffersUpTo(m, env.legal, kind, |env.legal|);
    EveryoneGetsAnOffer(m, env.legal, kind, |env.legal|);
    OpenDecisionSound(DecisionName(m.nextDecisionId), kind, offers, env.openedAt);
    forall i | 0 <= i < |offers|
      ensures d.entries[i].seat == offers[i].seat && d.entries[i].actions == offers[i].actions
    {
      assert OpenEntry(offers[i], env.openedAt) == Ok(d.entries[i]);
    }
  }

  lemma FitsHasSeats(m: MatchState, env: Env)
    requires Fits(m) && EnvFits(m.mode, env)
    ensures SeatsFit(m) && |env.legal| == |m.players|
  {
  }

  /**
   * A new window asks exactly the seats that can act, each for all its legal actions in order, and
   * is a response window exactly when one of those actions is a response.
   */
  lemma WindowAsksEveryoneWhoCanAct(m: MatchState, env: Env, d: DecisionState)
    requires Fits(m) && EnvFits(m.mode, env) && OpenedFor(m, env, d)
    ensures AllLegal(env.legal)
    ensures d.kind.Response? <==>
      exists i, j :: 0 <= i < |env.legal| && 0 <= j < |env.legal[i].value| && IsResponseAction(env.legal[i].value[j])
    ensures forall s: Seat :: s < |env.legal| ==> (env.legal[s].value != [] <==> EntryIndex(d.entries, s).Some?)
    ensures forall k :: 0 <= k < |d.entries| ==>
      && d.entries[k].seat < |env.legal| && |d.entries[k].actions| == |env.legal[d.entries[k].seat].value|
      && forall j :: 0 <= j < |d.entries[k].actions| ==>
           d.entries[k].actions[j].action == env.legal[d.entries[k].seat].value[j]
  {
    hide Fits, CurrentDecision, OffersUpTo, Sound, OpenedFor;
    FitsHasSeats(m, env);
    EntriesAreTheOffers(m, env, d);
    var offers := OffersUpTo(m, env.legal, d.kind, |env.legal|);
    forall s: Seat | s < |env.legal|
      ensures env.legal[s].value != [] <==> EntryIndex(d.entries, s).Some?
    {
      if EntryIndex(d.entries, s).Some? {
        assert OfferOf(m, env.legal, offers[EntryIndex(d.entries, s).value]);
      }
    }
    forall k | 0 <= k < |d.entries|
      ensures d.entries[k].seat < |env.legal| && |d.entries[k].actions| == |env.legal[d.entries[k].seat].value|
      ensures forall j :: 0 <= j < |d.entries[k].actions| ==>
        d.entries[k].actions[j].action == env.legal[d.entries[k].seat].value[j]
    {
      assert OfferOf(m, env.legal, offers[k]);
    }
  }

  /** No two actions of a window share an id. */
  lemma WindowIdsAreDistinct(m: MatchState, env: Env, d: DecisionState, k: nat, i: nat, l: nat, j: nat)
    requires Fits(m) && EnvFits(m.mode, env) && OpenedFor(m, env, d)
    requires k < |d.entries| && i < |d.entries[k].actions| && l < |d.entries| && j < |d.entries[l].actions|
    requires d.entries[k].actions[i].id == d.entries[l].actions[j].id
    ensures k == l && i == j
  {
    hide Fits, CurrentDecision, OffersUpTo, Sound, OpenedFor, KindOf, ActionName, FirstId;
    FitsHasSeats(m, env);
    EntriesAreTheOffers(m, env, d);
    var legal := env.legal;
    var offers := OffersUpTo(m, legal, d.kind, |legal|);
    assert OfferOf(m, legal, offers[k]) && OfferOf(m, legal, offers[l]);
    var s, t := offers[k].seat, offers[l].seat;
    Freshness.ActionNamesDiffer(FirstId(m, legal, s) + i, FirstId(m, legal, t) + j);
    if k < l {
      LaterSeatsGetLaterIds(m, legal, s, t);
    } else if l < k {
      LaterSeatsGetLaterIds(m, legal, t, s);
    }
  }

  // ----- When no window can be opened ----------------------------------------------------------------

  /** The engine cannot list a seat's actions, or lists some of which none is a pass or a discard. */
  predicate Strands(listed: Result<seq<GameAction>, string>) {
    || listed.Err?
    || (listed.value != []
        && forall j :: 0 <= j < |listed.value| ==> !listed.value[j].Pass? && !listed.value[j].Discard?)
  }

  predicate SomeoneIsStranded(legal: Legal) { exists i :: 0 <= i < |legal| && Strands(legal[i]) }

  /** The match runs, holds no hand back, and has no window open. */
  predicate WantsWindow(m: MatchState) { m.held.None? && m.status.Running? && m.decision.None? }

  lemma OfferFailsIff(m: MatchState, legal: Legal, offer: SeatOffer, openedAt: nat)
    requires AllLegal(legal) && OfferOf(m, legal, offer)
    ensures OpenEntry(offer, openedAt).Err? <==> Strands(legal[offer.seat])
  {
    hide FirstId, DefaultAction;
    DefaultIsTheSafest(offer.seat, offer.actions);
    var actions := legal[offer.seat].value;
    assert forall j :: 0 <= j < |actions| ==> offer.actions[j].action == actions[j];
    if !Strands(legal[offer.seat]) {
      var j :| 0 <= j < |actions| && (actions[j].Pass? || actions[j].Discard?);
      assert offer.actions[j].action == actions[j];
    }
  }

  lemma OffersFailIff(m: MatchState, legal: Legal, offers: seq<SeatOffer>, openedAt: nat)
    requires AllLegal(legal) && OffersOf(m, legal, offers, |legal|)
    ensures OpenEntries(offers, openedAt).Err? <==> SomeoneIsStranded(legal)
  {
    hide OfferOf, OpenEntry, Strands;
    forall i | 0 <= i < |offers|
      ensures OpenEntry(offers[i], openedAt).Err? <==> Strands(legal[offers[i].seat])
    {
      OfferFailsIff(m, legal, offers[i], openedAt);
    }
    if SomeoneIsStranded(legal) {
      var s :| 0 <= s < |legal| && Strands(legal[s]);
      StrandedCanAct(legal[s]);
      var i :| 0 <= i < |offers| && offers[i].seat == s;
      assert OpenEntry(offers[i], openedAt).Err?;
    }
  }

  lemma StrandedCanAct(listed: Result<seq<GameAction>, string>)
    requires listed.Ok? && Strands(listed)
    ensures listed.value != []
  {
  }

  /**
   * Asking for the open window aborts a match exactly when it wants a window and the engine strands
   * some seat: all a caller needs to look at is the state and what the engine lists.
   */
  lemma OpeningAbortsIff(m: MatchState, env: Env)
    requires Fits(m) && EnvFits(m.mode, env) && !m.status.Aborted?
    ensures CurrentDecision(m, env).0.status.Aborted? <==> WantsWindow(m) && SomeoneIsStranded(env.legal)
  {
    hide Fits, OffersUpTo, OffersOf, OpenEntries, Strands, KindOf, RecomputeTiming;
    FitsHasSeats(m, env);
    if WantsWindow(m) {
      if AllLegal(env.legal) {
        var kind := KindOf(env.legal);
        var offers := OffersUpTo(m, env.legal, kind, |env.legal|);
        EveryoneGetsAnOffer(m, env.legal, kind, |env.legal|);
        OffersFailIff(m, env.legal, offers, env.openedAt);
        NoOffersOpen(env.openedAt);
      } else {
        var i :| 0 <= i < |env.legal| && env.legal[i].Err?;
        ErrorStrands(env.legal[i]);
      }
    }
  }

  lemma NoOffersOpen(openedAt: nat)
    ensures OpenEntries([], openedAt).Ok?
  {
  }

  lemma ErrorStrands(listed: Result<seq<GameAction>, string>)
    requires listed.Err?
    ensures Strands(listed)
  {
  }

  // ----- The clocks of a new window --------------------------------------------------------------------

  /** How long a seat gets, by who plays it and under which time control; none at all without a limit. */
  predicate SeatGets(m: MatchState, seat: nat, kind: DecisionKind, duration: Option<nat>, watchdog: bool)
    requires SeatsFit(m) && seat < |m.players|
  {
    var interactive, human := m.controllers[seat].Interactive?, m.players[seat].kind.Human?;
    && (!interactive ==> duration == Some(0) && !watchdog)
    && (interactive && m.timeControl.Casual? ==>
          duration == Some(if kind.Turn? then 30_000 else 10_000) && !watchdog)
    && (interactive && m.timeControl.RiichiDev? ==>
          duration == Some(if kind.Turn? then m.timing.turn else m.timing.response) && !watchdog)
    && (interactive && m.timeControl.Unlimited? ==>
          && (m.players[seat].kind.BuiltInBot? ==> duration == Some(0) && !watchdog)
          && (human && m.presence[seat].Connected? ==> duration.None? && !watchdog)
          && (human && m.presence[seat].Disconnected? ==> duration == Some(m.timing.watchdog) && watchdog)
          && (!human && !m.players[seat].kind.BuiltInBot? ==> duration == Some(m.timing.watchdog) && watchdog))
  }

  lemma TimingGives(m: MatchState, kind: DecisionKind, seat: nat)
    requires SeatsFit(m) && seat < |m.players|
    ensures SeatGets(m, seat, kind, DecisionTimingFor(m, kind, seat).0, DecisionTimingFor(m, kind, seat).1)
  {
  }

  lemma OpeningOpens(m: MatchState, env: Env, d: DecisionState)
    requires Fits(m) && EnvFits(m.mode, env) && OpenedFor(m, env, d)
    ensures SeatsFit(m) && |env.legal| == |m.players| && AllLegal(env.legal) && d.kind == KindOf(env.legal)
    ensures OpenDecision(DecisionName(m.nextDecisionId), KindOf(env.legal),
      OffersUpTo(m, env.legal, KindOf(env.legal), |env.legal|), env.openedAt) == Ok(d)
  {
    hide Fits, KindOf, OffersUpTo, CurrentDecision, OpenDecision, OffersOf;
    FitsHasSeats(m, env);
    OpeningKeepsSeats(m, env);
    EntriesAreTheOffers(m, env, d);
  }

  lemma EntryOfOffer(offer: SeatOffer, openedAt: nat, e: DecisionSeat)
    requires OpenEntry(offer, openedAt) == Ok(e)
    ensures e.seat == offer.seat && e.duration == offer.duration && e.watchdog == offer.watchdog
    ensures e.submitted.None? && !e.timedOut && e.openedAt == openedAt
    ensures e.duration.None? ==> e.deadline.None?
    ensures e.duration.Some? ==> e.deadline == Some(openedAt + e.duration.value)
  {
    hide DefaultAction;
  }

  /**
   * Every seat of a new window is silent and on the clock its own state and the time control call
   * for: it started when the window opened and ends when its time is up, if it has a limit at all.
   */
  lemma NewWindowsClocks(m: MatchState, env: Env, d: DecisionState, k: nat)
    requires Fits(m) && EnvFits(m.mode, env) && OpenedFor(m, env, d) && k < |d.entries|
    ensures d.entries[k].seat < |m.players|
    ensures var e := d.entries[k];
      && e.submitted.None? && !e.timedOut && e.openedAt == env.openedAt
      && SeatGets(m, e.seat, d.kind, e.duration, e.watchdog)
      && (e.duration.None? ==> e.deadline.None?)
      && (e.duration.Some? ==> e.deadline == Some(env.openedAt + e.duration.value))
  {
    hide Fits, KindOf, OffersUpTo, Sound, CurrentDecision, DecisionTimingFor, SeatGets, OffersOf, OpenEntry;
    hide OpenDecision, OfferOf, OpenedFor, EnvFits;
    OpeningOpens(m, env, d);
    var kind := d.kind;
    var offers := OffersUpTo(m, env.legal, kind, |env.legal|);
    OffersCarryTimings(m, env.legal, kind, |env.legal|);
    OpenDecisionSound(DecisionName(m.nextDecisionId), kind, offers, env.openedAt);
    assert OfferTimed(m, kind, offers[k]) && OpenEntry(offers[k], env.openedAt) == Ok(d.entries[k]);
    EntryOfOffer(offers[k], env.openedAt, d.entries[k]);
    TimingGives(m, kind, offers[k].seat);
  }

  /** A new window is a response to someone's tile exactly when a call, a win off it or a pass is on offer. */
  lemma NewWindowsKind(m: MatchState, env: Env, d: DecisionState)
    requires Fits(m) && EnvFits(m.mode, env) && OpenedFor(m, env, d)
    ensures AllLegal(env.legal)
    ensures d.kind.Response? <==>
      exists i, j :: 0 <= i < |env.legal| && 0 <= j < |env.legal[i].value|
        && var a := env.legal[i].value[j]; a.Chi? || a.Pon? || a.Daiminkan? || a.Ron? || a.Pass?
  {
    hide Fits, CurrentDecision, OffersUpTo, Sound, OpenedFor;
    WindowAsksEveryoneWhoCanAct(m, env, d);
  }
}
