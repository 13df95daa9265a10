// When reordering a run's matches can change what a refused run is told.

module BenchmarkOrder {
  import opened Wrappers
  import opened BenchmarkRuns
  import opened BenchmarkAnalytics
  import opened BenchmarkDerivation

  predicate SameMatches(s: seq<MatchRecord>, t: seq<MatchRecord>) { multiset(s) == multiset(t) }

  /** The checks before the matches are looked at; none of them depends on their order. */
  predicate PassesEarlyChecks(run: BenchmarkRun) {
    && PlayersOf(run.gameMode).Some? && 0 <= run.completed <= 1000 && |run.matches| == run.completed
    && |run.roster| == PlayersOf(run.gameMode).value && RosterFits(run.roster, |run.roster|)
  }

  /** Put at position `k` of the sorted matches, `m` would be refused for its results. */
  predicate RefusedForResults(sorted: seq<MatchRecord>, k: nat, m: MatchRecord, ids: set<string>, players: nat)
    requires k <= |sorted|
  {
    && m.id != "" && |m.results| == players && (forall j :: 0 <= j < k ==> sorted[j].id != m.id)
    && !ResultsFit(m.results, ids, players)
  }

  predicate FitsBefore(sorted: seq<MatchRecord>, k: nat, ids: set<string>, players: nat)
    requires k <= |sorted|
  {
    forall j :: 0 <= j < k ==> MatchFits(sorted, j, ids, players)
  }

  /** The matches sharing number `k + 1`: one of them would be refused for its results, another not. */
  predicate Disagree(sorted: seq<MatchRecord>, k: nat, i: nat, j: nat, ids: set<string>, players: nat)
    requires k <= |sorted| && i < |sorted| && j < |sorted|
  {
    && sorted[i].sequence == k + 1 && sorted[j].sequence == k + 1
    && RefusedForResults(sorted, k, sorted[i], ids, players)
    && !RefusedForResults(sorted, k, sorted[j], ids, players)
  }

  /**
   * Everything before position `k` fits, the position is taken by number `k + 1`, and the matches
   * that share this number disagree.
   */
  predicate SplitAt(sorted: seq<MatchRecord>, k: nat, ids: set<string>, players: nat)
    requires k < |sorted|
  {
    && sorted[k].sequence == k + 1 && FitsBefore(sorted, k, ids, players)
    && exists i, j :: 0 <= i < |sorted| && 0 <= j < |sorted| && Disagree(sorted, k, i, j, ids, players)
  }

  predicate Split(sorted: seq<MatchRecord>, ids: set<string>, players: nat) {
    exists k :: 0 <= k < |sorted| && SplitAt(sorted, k, ids, players)
  }

  // ----- Sorted lists of the same matches -----------------------------------------------------------

  function Without(t: seq<MatchRecord>, p: nat): seq<MatchRecord>
    requires p < |t|
  {
    t[..p] + t[p + 1..]
  }

  lemma WithoutOne(t: seq<MatchRecord>, p: nat)
    requires p < |t|
    ensures multiset(Without(t, p)) == multiset(t) - multiset{t[p]}
  {
    assert t == t[..p] + [t[p]] + t[p + 1..];
  }

  lemma WithoutStaysSorted(t: seq<MatchRecord>, p: nat)
    requires p < |t| && InSequence(t)
    ensures InSequence(Without(t, p))
  {
    var rest := Without(t, p);
    forall i, j | 0 <= i < j < |rest|
      ensures rest[i].sequence <= rest[j].sequence
    {
      assert rest[i] == t[if i < p then i else i + 1] && rest[j] == t[if j < p then j else j + 1];
    }
  }

  predicate SameNumbers(s: seq<MatchRecord>, t: seq<MatchRecord>) {
    |s| == |t| && forall i :: 0 <= i < |s| ==> s[i].sequence == t[i].sequence
  }

  /** Two sorted lists of the same matches show the same numbers at the same positions. */
  lemma {:induction false} SortedListsAgree(s: seq<MatchRecord>, t: seq<MatchRecord>)
    requires InSequence(s) && InSequence(t) && SameMatches(s, t)
    ensures SameNumbers(s, t)
    decreases |s|
  {
    hide SameNumbers, InSequence, Without;
    SameCount(s, t);
    if s != [] {
      var p := LastIsThere(s, t);
      SortedListsAgree(s[..|s| - 1], Without(t, p));
      PutBack(s, t, p);
    } else {
      NoNumbers(s, t);
    }
  }

  /** One list's last match is somewhere in the other; without it both still hold the same, sorted. */
  lemma LastIsThere(s: seq<MatchRecord>, t: seq<MatchRecord>) returns (p: nat)
    requires InSequence(s) && InSequence(t) && SameMatches(s, t) && s != []
    ensures p < |t| && t[p] == s[|s| - 1]
    ensures InSequence(s[..|s| - 1]) && InSequence(Without(t, p)) && SameMatches(s[..|s| - 1], Without(t, p))
  {
    var last := s[|s| - 1];
    assert last in multiset(t);
    p :| 0 <= p < |t| && t[p] == last;
    WithoutOne(t, p);
    WithoutLast(s);
    WithoutStaysSorted(t, p);
  }

  lemma NoNumbers(s: seq<MatchRecord>, t: seq<MatchRecord>)
    requires s == t == []
    ensures SameNumbers(s, t)
  {
  }

  lemma PutBack(s: seq<MatchRecord>, t: seq<MatchRecord>, p: nat)
    requires InSequence(s) && InSequence(t) && p < |t| && |s| == |t| && t[p] == s[|s| - 1]
    requires SameNumbers(s[..|s| - 1], Without(t, p))
    ensures SameNumbers(s, t)
  {
    var last := |s| - 1;
    var fewer, rest := s[..last], Without(t, p);
    forall i | 0 <= i < |s|
      ensures s[i].sequence == t[i].sequence
    {
      if i < p {
        assert fewer[i] == s[i] && rest[i] == t[i];
      } else {
        if i < last { assert fewer[i] == s[i] && rest[i] == t[i + 1]; }
        if i > p { assert rest[i - 1] == t[i] && fewer[i - 1] == s[i - 1]; }
      }
    }
  }

  // ----- Without a split the order does not show ---------------------------------------------------

  lemma FittingAreNumbered(s: seq<MatchRecord>, k: nat, ids: set<string>, players: nat)
    requires k <= |s| && FitsBefore(s, k, ids, players)
    ensures forall j :: 0 <= j < k ==> s[j].sequence == j + 1
  {
    forall j | 0 <= j < k
      ensures s[j].sequence == j + 1
    {
      assert MatchFits(s, j, ids, players);
    }
  }

  /** The position after a match that shares its number is refused for its number. */
  lemma SecondOfANumber(s: seq<MatchRecord>, k: nat, other: MatchRecord, ids: set<string>, players: nat)
    requires InSequence(s) && k < |s| && s[k].sequence == k + 1 && FitsBefore(s, k, ids, players)
    requires other in s && other != s[k] && other.sequence == k + 1
    ensures k + 1 < |s| && FirstProblem(s, ids, players, k + 1) == Some(MatchesInvalid)
  {
    hide MatchFits;
    var p :| 0 <= p < |s| && s[p] == other;
    FittingAreNumbered(s, k, ids, players);
    assert s[k + 1].sequence == k + 1;
  }

  lemma ResultsProblemIff(s: seq<MatchRecord>, k: nat, ids: set<string>, players: nat)
    requires k < |s| && s[k].sequence == k + 1
    ensures RefusedForResults(s, k, s[k], ids, players) <==>
      HeaderFits(s, k, players) && !ResultsFit(s[k].results, ids, players)
  {
    hide ResultsFit;
  }

  lemma {:induction false} SameProblem(s: seq<MatchRecord>, t: seq<MatchRecord>, ids: set<string>, players: nat, k: nat)
    requires InSequence(s) && InSequence(t) && SameMatches(s, t) && |s| == |t|
    requires k <= |s| && s[..k] == t[..k] && FitsBefore(s, k, ids, players) && !Split(s, ids, players)
    ensures FirstProblem(s, ids, players, k) == FirstProblem(t, ids, players, k)
    decreases |s| - k
  {
    hide ResultsFit, RefusedForResults;
    SortedListsAgree(s, t);
    if k < |s| && s[k].sequence == k + 1 {
      SamePrefix(s, t, k, ids, players);
      ResultsProblemIff(s, k, ids, players);
      ResultsProblemIff(t, k, ids, players);
      TiedAgree(s, t, k, ids, players);
      if s[k] == t[k] {
        if MatchFits(s, k, ids, players) {
          assert s[..k + 1] == s[..k] + [s[k]] && t[..k + 1] == t[..k] + [t[k]];
          SameProblem(s, t, ids, players, k + 1);
        }
      } else {
        assert t[k] in multiset(s) && s[k] in multiset(t);
        SecondOfANumber(s, k, t[k], ids, players);
        SecondOfANumber(t, k, s[k], ids, players);
      }
    }
  }

  lemma SamePrefix(s: seq<MatchRecord>, t: seq<MatchRecord>, k: nat, ids: set<string>, players: nat)
    requires k < |s| == |t| && s[..k] == t[..k] && FitsBefore(s, k, ids, players)
    ensures FitsBefore(t, k, ids, players)
    ensures forall m :: RefusedForResults(s, k, m, ids, players) <==> RefusedForResults(t, k, m, ids, players)
    ensures s[k] == t[k] ==> (HeaderFits(s, k, players) <==> HeaderFits(t, k, players))
  {
    hide ResultsFit;
    assert forall j :: 0 <= j < k ==> s[j] == s[..k][j] && t[j] == t[..k][j];
    forall j | 0 <= j < k
      ensures MatchFits(t, j, ids, players)
    {
      assert MatchFits(s, j, ids, players);
    }
  }

  lemma TiedAgree(s: seq<MatchRecord>, t: seq<MatchRecord>, k: nat, ids: set<string>, players: nat)
    requires k < |s| == |t| && SameMatches(s, t) && s[k].sequence == t[k].sequence == k + 1
    requires FitsBefore(s, k, ids, players) && !Split(s, ids, players)
    ensures RefusedForResults(s, k, s[k], ids, players) <==> RefusedForResults(s, k, t[k], ids, players)
  {
    hide FitsBefore, RefusedForResults;
    assert t[k] in multiset(s);
    var p :| 0 <= p < |s| && s[p] == t[k];
    assert !SplitAt(s, k, ids, players);
    assert !Disagree(s, k, k, p, ids, players) && !Disagree(s, k, p, k, ids, players);
  }

  // ----- With one it does ------------------------------------------------------------------------------

  function Swapped(s: seq<MatchRecord>, k: nat, i: nat): (r: seq<MatchRecord>)
    requires k < |s| && i < |s|
    ensures |r| == |s| && multiset(r) == multiset(s)
  {
    s[k := s[i]][i := s[k]]
  }

  lemma InsertLast(s: seq<MatchRecord>, m: MatchRecord)
    requires InSequence(s + [m])
    ensures InsertMatch(s, m) == s + [m]
  {
    if s != [] { assert (s + [m])[|s| - 1] == s[|s| - 1] && (s + [m])[|s|] == m; }
  }

  lemma {:induction false} SortedStays(s: seq<MatchRecord>)
    requires InSequence(s)
    ensures BySequence(s) == s
    decreases |s|
  {
    hide InsertMatch;
    if s != [] {
      var rest := s[..|s| - 1];
      SortedStays(rest);
      InsertLast(rest, s[|s| - 1]);
      assert s == rest + [s[|s| - 1]];
    }
  }

  lemma {:induction false} ProblemIsLater(s: seq<MatchRecord>, ids: set<string>, players: nat, k: nat, n: nat)
    requires k <= n <= |s| && FitsBefore(s, n, ids, players)
    ensures FirstProblem(s, ids, players, k) == FirstProblem(s, ids, players, n)
    decreases n - k
  {
    hide ResultsFit;
    if k < n {
      assert MatchFits(s, k, ids, players);
      ProblemIsLater(s, ids, players, k + 1, n);
    }
  }

  lemma SwappingATie(s: seq<MatchRecord>, k: nat, i: nat, ids: set<string>, players: nat)
    requires InSequence(s) && k < |s| && i < |s| && FitsBefore(s, k, ids, players)
    requires s[k].sequence == s[i].sequence == k + 1
    ensures var t := Swapped(s, k, i); InSequence(t) && t[..k] == s[..k] && t[k] == s[i]
  {
    hide MatchFits;
    FittingAreNumbered(s, k, ids, players);
    var t := Swapped(s, k, i);
    assert forall j :: 0 <= j < |s| ==> t[j].sequence == s[j].sequence;
  }

  /** Moving one of the tied matches to the front of its tie decides the reason. */
  lemma FrontDecides(s: seq<MatchRecord>, k: nat, i: nat, other: nat, ids: set<string>, players: nat)
    requires InSequence(s) && k < |s| && FitsBefore(s, k, ids, players) && i < |s| && other < |s|
    requires s[k].sequence == s[i].sequence == s[other].sequence == k + 1 && s[i] != s[other]
    ensures var t := Swapped(s, k, i);
      && BySequence(t) == t && SameMatches(s, t)
      && FirstProblem(t, ids, players, 0) ==
           Some(if RefusedForResults(s, k, s[i], ids, players) then ResultsInvalid else MatchesInvalid)
  {
    hide ResultsFit, RefusedForResults, InSequence, FitsBefore, Swapped, BySequence;
    var t := Swapped(s, k, i);
    SwappingATie(s, k, i, ids, players);
    SortedStays(t);
    SamePrefix(s, t, k, ids, players);
    ResultsProblemIff(t, k, ids, players);
    ProblemIsLater(t, ids, players, 0, k);
    assert s[other] in multiset(t);
    SecondOfANumber(t, k, s[other], ids, players);
  }

  lemma DisagreeingDiffer(s: seq<MatchRecord>, k: nat, i: nat, j: nat, ids: set<string>, players: nat)
    requires k < |s| && i < |s| && j < |s| && Disagree(s, k, i, j, ids, players)
    ensures s[i] != s[j]
  {
    hide RefusedForResults;
  }

  /** Two orders of a split run that are refused for different reasons. */
  lemma SplitShows(s: seq<MatchRecord>, ids: set<string>, players: nat)
    returns (t: seq<MatchRecord>, u: seq<MatchRecord>)
    requires InSequence(s) && Split(s, ids, players)
    ensures SameMatches(s, t) && FirstProblem(BySequence(t), ids, players, 0) == Some(ResultsInvalid)
    ensures SameMatches(s, u) && FirstProblem(BySequence(u), ids, players, 0) == Some(MatchesInvalid)
  {
    hide RefusedForResults, FitsBefore, FirstProblem, BySequence;
    var k :| 0 <= k < |s| && SplitAt(s, k, ids, players);
    var i, j :| 0 <= i < |s| && 0 <= j < |s| && Disagree(s, k, i, j, ids, players);
    DisagreeingDiffer(s, k, i, j, ids, players);
    FrontDecides(s, k, i, j, ids, players);
    FrontDecides(s, k, j, i, ids, players);
    t, u := Swapped(s, k, i), Swapped(s, k, j);
  }

  // ----- Main results ---------------------------------------------------------------------------------

  /** A run whose outcome can be told apart from that of the same run with its matches reordered. */
  predicate OrderShows(run: BenchmarkRun) {
    PassesEarlyChecks(run) && Split(BySequence(run.matches), RosterIds(run.roster), |run.roster|)
  }

  lemma EarlyChecksDecide(run: BenchmarkRun, matches: seq<MatchRecord>)
    requires SameMatches(run.matches, matches)
    ensures PassesEarlyChecks(run) <==> PassesEarlyChecks(run.(matches := matches))
    ensures PassesEarlyChecks(run) ==>
      && ProblemOf(run) == FirstProblem(BySequence(run.matches), RosterIds(run.roster), |run.roster|, 0)
      && ProblemOf(run.(matches := matches))
        == FirstProblem(BySequence(matches), RosterIds(run.roster), |run.roster|, 0)
    ensures !PassesEarlyChecks(run) ==>
      ProblemOf(run).Some? && ProblemOf(run.(matches := matches)) == ProblemOf(run)
  {
    hide FirstProblem, BySequence, RosterFits, RosterIds;
    SameCount(run.matches, matches);
  }

  lemma NoSplitNoDifference(run: BenchmarkRun, matches: seq<MatchRecord>)
    requires SameMatches(run.matches, matches) && !OrderShows(run)
    ensures Outcome(run.(matches := matches)) == Outcome(run)
  {
    hide FirstProblem, BySequence, RosterFits, RosterIds, AnalyticsOf, Split, ProblemOf;
    EarlyChecksDecide(run, matches);
    if PassesEarlyChecks(run) {
      var s, t := BySequence(run.matches), BySequence(matches);
      BySequenceIsInSequence(run.matches);
      BySequenceIsInSequence(matches);
      SameCount(s, t);
      NothingBeforeFirst(s, RosterIds(run.roster), |run.roster|);
      assert s[..0] == t[..0];
      SameProblem(s, t, RosterIds(run.roster), |run.roster|, 0);
      OrderDoesNotMatter(run, matches);
    }
  }

  lemma NothingBeforeFirst(s: seq<MatchRecord>, ids: set<string>, players: nat)
    ensures FitsBefore(s, 0, ids, players)
  {
  }

  /**
   * The whole outcome of a run is the same for every order of its matches if and only if no number
   * is shared, at the first position that number can fail, by a match refused for its results and
   * one that is not.
   */
  lemma OutcomeIgnoresOrderIff(run: BenchmarkRun)
    ensures (forall ms :: SameMatches(run.matches, ms) ==> Outcome(run.(matches := ms)) == Outcome(run))
      <==> !OrderShows(run)
  {
    hide Outcome, OrderShows, SameMatches;
    if OrderShows(run) {
      var t, u := OrderShowsInTwo(run);
      assert Outcome(run.(matches := t)) != Outcome(run.(matches := u));
    } else {
      forall ms | SameMatches(run.matches, ms)
        ensures Outcome(run.(matches := ms)) == Outcome(run)
      {
        NoSplitNoDifference(run, ms);
      }
    }
  }

  lemma OrderShowsInTwo(run: BenchmarkRun) returns (t: seq<MatchRecord>, u: seq<MatchRecord>)
    requires OrderShows(run)
    ensures SameMatches(run.matches, t) && SameMatches(run.matches, u)
    ensures Outcome(run.(matches := t)) == InvalidRun(ResultsInvalid)
    ensures Outcome(run.(matches := u)) == InvalidRun(MatchesInvalid)
  {
    hide FirstProblem, BySequence, RosterFits, RosterIds, Split, ProblemOf;
    BySequenceIsInSequence(run.matches);
    t, u := SplitShows(BySequence(run.matches), RosterIds(run.roster), |run.roster|);
    EarlyChecksDecide(run, t);
    EarlyChecksDecide(run, u);
  }

  predicate NumbersDiffer(s: seq<MatchRecord>) {
    forall i, j :: 0 <= i < j < |s| ==> s[i].sequence != s[j].sequence
  }

  /** Matches numbered apart derive the same whatever order they come in. */
  lemma NumberedApartIsOrderFree(run: BenchmarkRun, matches: seq<MatchRecord>)
    requires NumbersDiffer(run.matches) && SameMatches(run.matches, matches)
    ensures Outcome(run.(matches := matches)) == Outcome(run)
  {
    hide Outcome;
    if OrderShows(run) {
      var sorted, ids := BySequence(run.matches), RosterIds(run.roster);
      var k :| 0 <= k < |sorted| && SplitAt(sorted, k, ids, |run.roster|);
      var i, j :| 0 <= i < |sorted| && 0 <= j < |sorted| && Disagree(sorted, k, i, j, ids, |run.roster|);
      DisagreeingDiffer(sorted, k, i, j, ids, |run.roster|);
      OneMatchPerNumber(run.matches, sorted[i], sorted[j]);
    }
    NoSplitNoDifference(run, matches);
  }

  lemma OneMatchPerNumber(s: seq<MatchRecord>, m: MatchRecord, n: MatchRecord)
    requires NumbersDiffer(s) && m in multiset(s) && n in multiset(s) && m.sequence == n.sequence
    ensures m == n
  {
    var i :| 0 <= i < |s| && s[i] == m;
    var j :| 0 <= j < |s| && s[j] == n;
  }

  // ----- An example ----------------------------------------------------------------------------------

  function ThreeSeats(rank: int): seq<SeatResult> {
    [SeatResult("a", 0, rank, 40_000), SeatResult("b", 1, 2, 35_000), SeatResult("c", 2, 3, 30_000)]
  }

  function TwoFirsts(goodFirst: bool): BenchmarkRun {
    var good, bad := MatchRecord(1, "m", ThreeSeats(1)), MatchRecord(1, "n", ThreeSeats(9));
    BenchmarkRun("3p-red-east", 2,
      [RosterEntry("a", "A", 0), RosterEntry("b", "B", 1), RosterEntry("c", "C", 2)],
      if goodFirst then [good, bad] else [bad, good])
  }

  lemma SampleRosterFits()
    ensures RosterFits(TwoFirsts(true).roster, 3)
    ensures var ids := RosterIds(TwoFirsts(true).roster); "a" in ids && "b" in ids && "c" in ids
  {
    var roster := TwoFirsts(true).roster;
    assert roster[0].id == "a" && roster[1].id == "b" && roster[2].id == "c";
    assert forall i :: 0 <= i < |roster| ==> RosterEntryFits(roster, i, 3);
  }

  lemma SampleResults(ids: set<string>)
    requires "a" in ids && "b" in ids && "c" in ids
    ensures ResultsFit(ThreeSeats(1), ids, 3) && !ResultsFit(ThreeSeats(9), ids, 3)
  {
    assert !ResultFits(ThreeSeats(9), 0, ids, 3);
    forall i | 0 <= i < 3
      ensures ResultFits(ThreeSeats(1), i, ids, 3)
    {
    }
  }

  /** Why a run is refused can depend on the order of its matches: here for a number or for a rank. */
  lemma ReasonDependsOnOrder()
    ensures multiset(TwoFirsts(true).matches) == multiset(TwoFirsts(false).matches)
    ensures ProblemOf(TwoFirsts(true)) == Some(MatchesInvalid)
    ensures ProblemOf(TwoFirsts(false)) == Some(ResultsInvalid)
  {
    hide ResultsFit, RosterFits, BySequence, RosterIds;
    var good, bad := MatchRecord(1, "m", ThreeSeats(1)), MatchRecord(1, "n", ThreeSeats(9));
    SortsAsGiven(good, bad);
    SortsAsGiven(bad, good);
    SampleRosterFits();
    var ids := RosterIds(TwoFirsts(true).roster);
    SampleResults(ids);
    assert FirstProblem([good, bad], ids, 3, 0) == FirstProblem([good, bad], ids, 3, 1);
  }

  lemma SortsAsGiven(m: MatchRecord, n: MatchRecord)
    requires m.sequence <= n.sequence
    ensures BySequence([m, n]) == [m, n]
  {
    assert [m, n][..1] == [m] && [m][..0] == [];
    assert BySequence([]) == [];
    assert BySequence([m]) == [m];
  }
}
