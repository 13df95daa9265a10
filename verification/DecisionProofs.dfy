// What the decision protocol promises over whole histories of one window.

module DecisionProofs {
  import opened Wrappers
  import opened Sequences
  import opened Domain
  import opened DecisionSpec

  // ----- Single steps, characterised -----------------------------------------

  /** The entry that answers for `seat`, if there is one. */
  predicate CanAnswer(d: DecisionState, k: nat, seat: Seat, id: ActionId, now: nat) {
    && !d.closed && EntryIndex(d.entries, seat) == Some(k)
    && k < |d.entries| && d.entries[k].submitted.None? && !Due(d.entries[k], now)
    && ActionIndex(d.entries[k].actions, id).Some?
  }

  predicate OffersPass(actions: seq<DecisionAction>) { exists i :: 0 <= i < |actions| && actions[i].action.Pass? }

  predicate OffersDrawnDiscard(actions: seq<DecisionAction>) {
    exists i :: 0 <= i < |actions| && actions[i].action.Discard? && actions[i].action.tsumogiri
  }

  predicate OffersDiscard(actions: seq<DecisionAction>) { exists i :: 0 <= i < |actions| && actions[i].action.Discard? }

  /**
   * A seat has a default exactly when it can pass or discard, and the default is the safest on
   * offer: a pass if there is one, else the drawn tile's discard if there is one, else a discard.
   */
  lemma DefaultIsTheSafest(seat: Seat, actions: seq<DecisionAction>)
    ensures DefaultAction(seat, actions).Ok? <==> OffersPass(actions) || OffersDiscard(actions)
    ensures DefaultAction(seat, actions).Err? ==> DefaultAction(seat, actions).error == NoSafeDefault(seat)
    ensures DefaultAction(seat, actions).Ok? ==>
      exists i :: 0 <= i < |actions| && IsSafest(actions, i) && actions[i].id == DefaultAction(seat, actions).value
  {
    var p := First(actions, (a: DecisionAction) => a.action.Pass?);
    var t := First(actions, (a: DecisionAction) => a.action.Discard? && a.action.tsumogiri);
    var d := First(actions, (a: DecisionAction) => a.action.Discard?);
    assert p.Some? ==> IsSafest(actions, p.value);
    assert p.None? && t.Some? ==> IsSafest(actions, t.value);
    assert p.None? && t.None? && d.Some? ==> IsSafest(actions, d.value);
  }

  predicate IsSafest(actions: seq<DecisionAction>, i: nat)
    requires i < |actions|
  {
    var a := actions[i].action;
    if OffersPass(actions) then a.Pass?
    else a.Discard? && (OffersDrawnDiscard(actions) ==> a.tsumogiri)
  }

  /** A submission succeeds exactly on an open window, in time, once, with a legal action. */
  lemma SubmitSucceedsIff(d: DecisionState, seat: Seat, id: ActionId, now: nat)
    requires Sound(d)
    ensures Submit(d, seat, id, now).1.Ok? <==> exists k: nat :: CanAnswer(d, k, seat, id, now)
    ensures Submit(d, seat, id, now).1.Ok? ==>
      exists k: nat :: CanAnswer(d, k, seat, id, now)
        && Submit(d, seat, id, now).0.entries == d.entries[k := d.entries[k].(submitted := Some(id))]
  {
    if Submit(d, seat, id, now).1.Ok? {
      assert CanAnswer(d, EntryIndex(d.entries, seat).value, seat, id, now);
    }
  }

  /** A timeout closes a window exactly when every seat still silent is out of time. */
  lemma ResolveClosesIff(d: DecisionState, now: nat)
    requires Sound(d)
    ensures ResolveAt(d, now).1.Some? <==>
      && !d.closed && d.entries != []
      && forall i :: 0 <= i < |d.entries| && d.entries[i].submitted.None? ==> Due(d.entries[i], now)
    ensures ResolveAt(d, now).0.closed <==> d.closed || ResolveAt(d, now).1.Some?
  {
    hide SoundEntry, AcceptedResolution, Due;
    var entries := TimeOutAll(d.entries, now);
    if !d.closed && d.entries != [] {
      var i :| 0 <= i < |d.entries| && d.entries[i].submitted.None?;
      if forall j :: 0 <= j < |d.entries| && d.entries[j].submitted.None? ==> Due(d.entries[j], now) {
        assert Due(d.entries[i], now);
        assert AllSubmitted(entries);
      } else {
        var j :| 0 <= j < |d.entries| && d.entries[j].submitted.None? && !Due(d.entries[j], now);
        assert entries[j].submitted.None?;
      }
    }
  }

  /** Once every deadline has passed a timeout always closes the window, silent seats taking their default. */
  lemma Liveness(d: DecisionState, now: nat)
    requires Sound(d) && !d.closed && d.entries != []
    requires forall i :: 0 <= i < |d.entries| ==> Due(d.entries[i], now)
    ensures ResolveAt(d, now).1.Some?
    ensures var r := ResolveAt(d, now).1.value;
      && r.decisionId == d.id && |r.actions| == |d.entries|
      && forall i :: 0 <= i < |d.entries| ==>
           && r.actions[i].seat == d.entries[i].seat
           && r.actions[i].actionId == d.entries[i].submitted.GetOr(d.entries[i].defaultActionId)
           && (d.entries[i].submitted.None? ==> r.actions[i].timedOut)
           && DecisionAction(r.actions[i].actionId, r.actions[i].action) in d.entries[i].actions
  {
    ResolveClosesIff(d, now);
  }

  // ----- Histories -------------------------------------------------------------

  datatype Command =
    | DoSubmit(seat: Seat, id: ActionId, now: nat)
    | DoResolve(at: nat)
    | DoRetime(seat: Seat, openedAt: nat, duration: Option<nat>, watchdog: bool)

  function Step(d: DecisionState, c: Command): (DecisionState, Option<DecisionResolution>)
    requires Sound(d)
  {
    match c
    case DoSubmit(seat, id, now) =>
      var (d', r) := Submit(d, seat, id, now);
      (d', if r.Ok? && r.value.Resolved? then Some(r.value.resolution) else None)
    case DoResolve(now) => ResolveAt(d, now)
    case DoRetime(seat, openedAt, duration, watchdog) =>
      (RetimeFor(d, seat, openedAt, duration, watchdog), None)
  }

  lemma StepKeeps(d: DecisionState, c: Command)
    requires Sound(d)
    ensures Sound(Step(d, c).0) && Extends(d, Step(d, c).0)
    ensures d.closed ==> Step(d, c).0.closed
  {
    match c
    case DoSubmit(seat, id, now) => SubmitKeeps(d, seat, id, now);
    case DoResolve(now) => ResolveKeeps(d, now);
    case DoRetime(seat, openedAt, duration, watchdog) => RetimeKeeps(d, seat, openedAt, duration, watchdog);
  }

  /** A step resolves exactly when it closes the window, and then reports the answers it stored. */
  lemma StepResolvesIffCloses(d: DecisionState, c: Command)
    requires Sound(d)
    ensures var (d', r) := Step(d, c);
      && (r.Some? <==> !d.closed && d'.closed)
      && (r.Some? ==> Answered(d'.entries) && r.value == AcceptedResolution(d'))
  {
    match c
    case DoSubmit(seat, id, now) =>
    case DoResolve(now) => ResolveClosesIff(d, now);
    case DoRetime(seat, openedAt, duration, watchdog) => RetimeKeeps(d, seat, openedAt, duration, watchdog);
  }

  /** The final state of a history and every resolution it returned, in order. */
  function Run(d: DecisionState, cs: seq<Command>): (DecisionState, seq<DecisionResolution>)
    requires Sound(d)
    decreases |cs|
  {
    if cs == [] then (d, [])
    else
      var (d', r) := Step(d, cs[0]);
      StepKeeps(d, cs[0]);
      var (last, rs) := Run(d', cs[1..]);
      (last, (if r.Some? then [r.value] else []) + rs)
  }

  /** Answers stored in a closed window are the ones any later state still stores. */
  lemma ClosedAnswersStay(d: DecisionState, d': DecisionState)
    requires Sound(d) && Sound(d') && Extends(d, d') && d.closed
    ensures Answered(d.entries) && Answered(d'.entries) && AcceptedResolution(d') == AcceptedResolution(d)
  {
    forall i | 0 <= i < |d.entries|
      ensures ActionIndex(d.entries[i].actions, d.entries[i].submitted.value).Some?
      ensures d'.entries[i].submitted == d.entries[i].submitted
      ensures ResolvedOf(d'.entries[i]) == ResolvedOf(d.entries[i])
    {
      assert SoundEntry(d.entries[i]) && SoundEntry(d'.entries[i]) && SameOffer(d.entries[i], d'.entries[i]);
    }
  }

  /**
   * Over any mix of submissions, timeouts and retimings at most one resolution comes back:
   * none if the window was closed at the start, and otherwise one exactly if it is closed at
   * the end. That resolution lists what the final state stores, so answers given along the way
   * were never replaced.
   */
  lemma {:induction false} AtMostOneResolution(d: DecisionState, cs: seq<Command>)
    requires Sound(d)
    ensures var (d', rs) := Run(d, cs);
      && Sound(d') && Extends(d, d') && (d.closed ==> d'.closed) && |rs| <= 1
      && (|rs| == 1 <==> !d.closed && d'.closed)
      && (|rs| == 1 ==> Answered(d'.entries) && rs[0] == AcceptedResolution(d'))
    decreases |cs|
  {
    hide Sound, Step, Extends, Answered, AcceptedResolution;
    ExtendsReflexive(d);
    if cs != [] {
      var (d1, r) := Step(d, cs[0]);
      StepKeeps(d, cs[0]);
      StepResolvesIffCloses(d, cs[0]);
      AtMostOneResolution(d1, cs[1..]);
      var (d', rs) := Run(d1, cs[1..]);
      if d1.closed { ClosedAnswersStay(d1, d'); }
      ExtendsTransitive(d, d1, d');
    }
  }

  lemma ExtendsReflexive(d: DecisionState)
    ensures Extends(d, d)
  {
  }

  lemma ExtendsTransitive(a: DecisionState, b: DecisionState, c: DecisionState)
    requires Extends(a, b) && Extends(b, c)
    ensures Extends(a, c)
  {
    forall i | 0 <= i < |a.entries|
      ensures SameOffer(a.entries[i], c.entries[i])
    {
      assert SameOffer(a.entries[i], b.entries[i]) && SameOffer(b.entries[i], c.entries[i]);
    }
  }

  // ----- Order of submission ----------------------------------------------------

  datatype Submission = Submission(seat: Seat, id: ActionId, at: nat)

  /** Submits one after another and collects every reply. */
  function Replies(d: DecisionState, subs: seq<Submission>)
    : (DecisionState, seq<Result<DecisionSubmission, DecisionError>>)
    requires Sound(d)
    decreases |subs|
  {
    if subs == [] then (d, [])
    else
      var (d', r) := Submit(d, subs[0].seat, subs[0].id, subs[0].at);
      SubmitKeeps(d, subs[0].seat, subs[0].id, subs[0].at);
      var (last, rs) := Replies(d', subs[1..]);
      (last, [r] + rs)
  }

  ghost predicate CanAnswerNow(d: DecisionState, s: Submission) {
    exists k: nat :: CanAnswer(d, k, s.seat, s.id, s.at)
  }

  /** Each submission is the one `choice` fixes for its seat, and would be accepted on its own. */
  ghost predicate FollowChoice(d: DecisionState, subs: seq<Submission>, choice: map<Seat, ActionId>) {
    forall i :: 0 <= i < |subs| ==>
      && subs[i].seat in choice && choice[subs[i].seat] == subs[i].id
      && CanAnswerNow(d, subs[i])
  }

  predicate SubmitsFor(subs: seq<Submission>, seat: Seat) {
    exists i :: 0 <= i < |subs| && subs[i].seat == seat
  }

  predicate ReachesEverySilentSeat(d: DecisionState, subs: seq<Submission>) {
    forall k :: 0 <= k < |d.entries| && d.entries[k].submitted.None? ==> SubmitsFor(subs, d.entries[k].seat)
  }

  predicate OncePerSeat(subs: seq<Submission>) {
    forall i, j :: 0 <= i < j < |subs| ==> subs[i].seat != subs[j].seat
  }

  /** `subs` answers each silent seat once, in time, with the legal action `choice` fixes for it. */
  ghost predicate Covers(d: DecisionState, subs: seq<Submission>, choice: map<Seat, ActionId>) {
    OncePerSeat(subs) && FollowChoice(d, subs, choice) && ReachesEverySilentSeat(d, subs)
  }

  /** The answers a window ends up with, as a function of the choices alone. */
  function Filled(e: DecisionSeat, choice: map<Seat, ActionId>): DecisionSeat {
    if e.submitted.None? && e.seat in choice then e.(submitted := Some(choice[e.seat])) else e
  }

  function FilledIn(d: DecisionState, choice: map<Seat, ActionId>): DecisionState {
    d.(entries := seq(|d.entries|, i requires 0 <= i < |d.entries| => Filled(d.entries[i], choice)),
       closed := true)
  }

  /** A successful submission resolves exactly when it closes the window. */
  lemma SubmitReply(d: DecisionState, s: Submission)
    requires Sound(d) && Submit(d, s.seat, s.id, s.at).1.Ok?
    ensures var (d1, r) := Submit(d, s.seat, s.id, s.at);
      if d1.closed then Answered(d1.entries) && r == Ok(Resolved(AcceptedResolution(d1)))
      else r == Ok(Accepted(false))
  {
  }

  lemma ClosedIsFilled(d: DecisionState, choice: map<Seat, ActionId>)
    requires Sound(d) && d.closed
    ensures FilledIn(d, choice) == d
  {
    assert FilledIn(d, choice).entries == d.entries;
  }

  /** Answering one seat leaves every other seat able to answer exactly as before. */
  lemma OthersUnaffected(d: DecisionState, k: nat, id: ActionId, t: Submission)
    requires DistinctSeats(d.entries) && k < |d.entries| && d.entries[k].seat != t.seat
    requires CanAnswerNow(d, t) && !Answer(d, k, id).closed
    ensures CanAnswerNow(Answer(d, k, id), t)
  {
    hide AllSubmitted;
    var n: nat :| CanAnswer(d, n, t.seat, t.id, t.at);
    var d1 := Answer(d, k, id);
    assert d1.entries[n] == d.entries[n];
    assert forall j :: 0 <= j < |d.entries| ==> d1.entries[j].seat == d.entries[j].seat;
    assert CanAnswer(d1, n, t.seat, t.id, t.at);
  }

  lemma AnswerFills(d: DecisionState, k: nat, id: ActionId, choice: map<Seat, ActionId>)
    requires k < |d.entries| && d.entries[k].submitted.None?
    requires d.entries[k].seat in choice && choice[d.entries[k].seat] == id
    ensures FilledIn(Answer(d, k, id), choice) == FilledIn(d, choice)
  {
    assert FilledIn(Answer(d, k, id), choice).entries == FilledIn(d, choice).entries;
  }

  lemma SubmitIsAnswer(d: DecisionState, k: nat, s: Submission)
    requires Sound(d) && CanAnswer(d, k, s.seat, s.id, s.at)
    ensures Submit(d, s.seat, s.id, s.at).0 == Answer(d, k, s.id)
    ensures Submit(d, s.seat, s.id, s.at).1.Ok?
  {
  }

  lemma LastAnswerCloses(d: DecisionState, k: nat, subs: seq<Submission>)
    requires DistinctSeats(d.entries) && |subs| == 1 && ReachesEverySilentSeat(d, subs)
    requires CanAnswer(d, k, subs[0].seat, subs[0].id, subs[0].at)
    ensures Answer(d, k, subs[0].id).closed
  {
    var d1 := Answer(d, k, subs[0].id);
    forall j | 0 <= j < |d1.entries|
      ensures d1.entries[j].submitted.Some?
    {
      if d.entries[j].submitted.None? {
        assert SubmitsFor(subs, d.entries[j].seat);
        assert j == k;
      }
    }
  }

  lemma EarlierAnswerDoesNotClose(d: DecisionState, k: nat, s: Submission, t: Submission)
    requires CanAnswer(d, k, s.seat, s.id, s.at) && CanAnswerNow(d, t) && s.seat != t.seat
    ensures !Answer(d, k, s.id).closed
  {
    var m: nat :| CanAnswer(d, m, t.seat, t.id, t.at);
    assert Answer(d, k, s.id).entries[m].submitted.None?;
  }

  lemma RestFollowsChoice(d: DecisionState, k: nat, subs: seq<Submission>, choice: map<Seat, ActionId>)
    requires DistinctSeats(d.entries) && |subs| > 1 && OncePerSeat(subs) && FollowChoice(d, subs, choice)
    requires k < |d.entries| && d.entries[k].seat == subs[0].seat && !Answer(d, k, subs[0].id).closed
    ensures FollowChoice(Answer(d, k, subs[0].id), subs[1..], choice)
  {
    hide CanAnswerNow, Answer;
    forall i | 1 <= i < |subs|
      ensures CanAnswerNow(Answer(d, k, subs[0].id), subs[i])
    {
      OthersUnaffected(d, k, subs[0].id, subs[i]);
    }
  }

  lemma RestReachesSilentSeats(d: DecisionState, k: nat, subs: seq<Submission>)
    requires DistinctSeats(d.entries) && |subs| > 1 && ReachesEverySilentSeat(d, subs)
    requires k < |d.entries| && d.entries[k].seat == subs[0].seat
    ensures ReachesEverySilentSeat(Answer(d, k, subs[0].id), subs[1..])
  {
    var d1, rest := Answer(d, k, subs[0].id), subs[1..];
    forall j | 0 <= j < |d1.entries| && d1.entries[j].submitted.None?
      ensures SubmitsFor(rest, d1.entries[j].seat)
    {
      assert SubmitsFor(subs, d.entries[j].seat);
      var i :| 0 <= i < |subs| && subs[i].seat == d.entries[j].seat;
      assert rest[i - 1] == subs[i];
    }
  }

  lemma AnswerKeepsSeats(d: DecisionState, k: nat, id: ActionId)
    requires DistinctSeats(d.entries) && k < |d.entries|
    ensures DistinctSeats(Answer(d, k, id).entries)
  {
  }

  lemma FirstCanAnswer(d: DecisionState, subs: seq<Submission>, choice: map<Seat, ActionId>)
    requires subs != [] && Covers(d, subs, choice)
    ensures CanAnswerNow(d, subs[0])
    ensures |subs| > 1 ==> CanAnswerNow(d, subs[1]) && subs[0].seat != subs[1].seat
  {
  }

  lemma AnsweringKeepsPlace(d: DecisionState, k: nat, s: Submission)
    requires CanAnswer(d, k, s.seat, s.id, s.at)
    ensures k < |d.entries| && d.entries[k].seat == s.seat && d.entries[k].submitted.None?
  {
  }

  lemma CoversAfterOne(d: DecisionState, subs: seq<Submission>, choice: map<Seat, ActionId>)
    requires Sound(d) && DistinctSeats(d.entries) && subs != [] && Covers(d, subs, choice)
    ensures var (d1, r) := Submit(d, subs[0].seat, subs[0].id, subs[0].at);
      && r.Ok? && DistinctSeats(d1.entries) && FilledIn(d1, choice) == FilledIn(d, choice)
      && (d1.closed <==> |subs| == 1)
      && (|subs| > 1 ==> Covers(d1, subs[1..], choice))
  {
    hide Sound, Submit, ReachesEverySilentSeat, DistinctSeats, FilledIn, Answer, CanAnswer;
    FirstCanAnswer(d, subs, choice);
    var k: nat :| CanAnswer(d, k, subs[0].seat, subs[0].id, subs[0].at);
    AnsweringKeepsPlace(d, k, subs[0]);
    SubmitIsAnswer(d, k, subs[0]);
    AnswerFills(d, k, subs[0].id, choice);
    AnswerKeepsSeats(d, k, subs[0].id);
    if |subs| == 1 {
      LastAnswerCloses(d, k, subs);
    } else {
      EarlierAnswerDoesNotClose(d, k, subs[0], subs[1]);
      RestFollowsChoice(d, k, subs, choice);
      RestReachesSilentSeats(d, k, subs);
    }
  }

  /**
   * Submission order does not matter: whichever order the silent seats answer in, and whenever
   * before their deadlines, every reply but the last is `Accepted` and the last one resolves the
   * window with the same resolution, fixed by the choices alone.
   */
  lemma {:induction false} OrderDoesNotMatter(d: DecisionState, subs: seq<Submission>, choice: map<Seat, ActionId>)
    requires Sound(d) && DistinctSeats(d.entries) && subs != [] && Covers(d, subs, choice)
    ensures Answered(FilledIn(d, choice).entries)
    ensures var (last, rs) := Replies(d, subs);
      && last == FilledIn(d, choice)
      && |rs| == |subs|
      && (forall i :: 0 <= i < |rs| - 1 ==> rs[i] == Ok(Accepted(false)))
      && rs[|rs| - 1] == Ok(Resolved(AcceptedResolution(FilledIn(d, choice))))
    decreases |subs|
  {
    hide Sound, Submit, Covers, Answered, AcceptedResolution, FilledIn;
    var s := subs[0];
    var (d1, r) := Submit(d, s.seat, s.id, s.at);
    SubmitKeeps(d, s.seat, s.id, s.at);
    CoversAfterOne(d, subs, choice);
    SubmitReply(d, s);
    if |subs| == 1 {
      ClosedIsFilled(d1, choice);
      assert subs[1..] == [];
      assert Replies(d, subs) == (d1, [r] + []);
    } else {
      OrderDoesNotMatter(d1, subs[1..], choice);
      var (last, rs) := Replies(d1, subs[1..]);
      assert Replies(d, subs) == (last, [r] + rs);
    }
  }

  /** Two orders, even at different times, end in the same state with the same last reply. */
  lemma AnyTwoOrdersAgree(d: DecisionState, a: seq<Submission>, b: seq<Submission>, choice: map<Seat, ActionId>)
    requires Sound(d) && DistinctSeats(d.entries) && a != [] && b != []
    requires Covers(d, a, choice) && Covers(d, b, choice)
    ensures Replies(d, a).0 == Replies(d, b).0
    ensures |Replies(d, a).1| == |a| && |Replies(d, b).1| == |b|
    ensures Replies(d, a).1[|a| - 1] == Replies(d, b).1[|b| - 1]
  {
    OrderDoesNotMatter(d, a, choice);
    OrderDoesNotMatter(d, b, choice);
  }

  // ----- Why an answer is refused ----------------------------------------------------------------------

  /** Entry `k` answers for the seat: no earlier one does. */
  predicate AnswersFor(d: DecisionState, seat: Seat, k: nat)
    requires k < |d.entries|
  {
    d.entries[k].seat == seat && forall j :: 0 <= j < k ==> d.entries[j].seat != seat
  }

  predicate LateAt(e: DecisionSeat, now: nat) { e.deadline.Some? && now >= e.deadline.value }

  predicate Offers(e: DecisionSeat, id: ActionId) { exists j :: 0 <= j < |e.actions| && e.actions[j].id == id }

  /** The one reason for which an answer is refused: each holds only where those before it do not. */
  predicate RefusedFor(d: DecisionState, seat: Seat, id: ActionId, now: nat, error: DecisionError) {
    if d.closed then error == Closed
    else if forall k :: 0 <= k < |d.entries| ==> d.entries[k].seat != seat then error == NotEligible(seat)
    else
      exists k :: 0 <= k < |d.entries| && AnswersFor(d, seat, k)
        && var e := d.entries[k];
           && (error == Expired <==> LateAt(e, now))
           && (error == AlreadyConsumed(seat) <==> !LateAt(e, now) && e.submitted.Some?)
           && (error == ForeignAction(seat, id) <==> !LateAt(e, now) && e.submitted.None? && !Offers(e, id))
           && (LateAt(e, now) || e.submitted.Some? || !Offers(e, id))
  }

  /** Every refusal states its reason. */
  lemma RefusalMeans(d: DecisionState, seat: Seat, id: ActionId, now: nat)
    requires Sound(d) && Submit(d, seat, id, now).1.Err?
    ensures RefusedFor(d, seat, id, now, Submit(d, seat, id, now).1.error) && Submit(d, seat, id, now).0 == d
  {
    hide Sound;
    if !d.closed && EntryIndex(d.entries, seat).Some? {
      var k := EntryIndex(d.entries, seat).value;
      assert AnswersFor(d, seat, k);
      assert Offers(d.entries[k], id) <==> ActionIndex(d.entries[k].actions, id).Some?;
    }
  }

  /** A submission that names another window is refused for that alone. */
  lemma StaleIsRefused(d: DecisionState, decisionId: DecisionId, seat: Seat, id: ActionId, now: nat)
    requires Sound(d)
    ensures decisionId != d.id ==>
      SubmitWithDecisionId(d, decisionId, seat, id, now) == (d, Err(StaleDecision(d.id, decisionId)))
    ensures decisionId == d.id ==> SubmitWithDecisionId(d, decisionId, seat, id, now) == Submit(d, seat, id, now)
  {
  }

  /** Two seats are on one clock: started together, as long, and of the same sort. */
  predicate OneClock(d: DecisionState) {
    d.entries != [] && forall i, j :: 0 <= i < |d.entries| && 0 <= j < |d.entries| ==>
      && d.entries[i].openedAt == d.entries[j].openedAt && d.entries[i].duration == d.entries[j].duration
      && d.entries[i].watchdog == d.entries[j].watchdog
  }

  /** The window shows a clock exactly while all its seats are on that one. */
  lemma ShownClockIsCommon(d: DecisionState)
    requires Sound(d)
    ensures if OneClock(d) then
        forall i :: 0 <= i < |d.entries| ==>
          && d.openedAt == d.entries[i].openedAt && d.duration == d.entries[i].duration
          && d.deadline == d.entries[i].deadline && d.watchdog == d.entries[i].watchdog
      else d.duration.None? && d.deadline.None? && !d.watchdog
  {
    if d.entries != [] {
      if Uniform(d.entries) {
        forall i, j | 0 <= i < |d.entries| && 0 <= j < |d.entries|
          ensures SameClock(d.entries[i], d.entries[j])
        {
          assert SameClock(d.entries[i], d.entries[0]) && SameClock(d.entries[j], d.entries[0]);
        }
        forall i | 0 <= i < |d.entries|
          ensures d.entries[i].deadline == d.entries[0].deadline
        {
          assert SoundEntry(d.entries[i]) && SoundEntry(d.entries[0]) && SameClock(d.entries[i], d.entries[0]);
        }
      }
    }
  }
}
