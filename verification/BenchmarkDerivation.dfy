// Deriving the statistics, and what always holds of them.

module BenchmarkDerivation {
  import opened Wrappers
  import opened BenchmarkRuns
  import opened BenchmarkAnalytics

  function PlayersOf(gameMode: string): (r: Option<nat>)
    ensures r.Some? ==> r.value == 3 || r.value == 4
  {
    if gameMode == "3p-red-east" || gameMode == "3p-red-half" then Some(3)
    else if gameMode == "4p-red-east" || gameMode == "4p-red-half" then Some(4)
    else None
  }

  /** What is wrong with the first match that does not fit, from position `k` on. */
  function FirstProblem(matches: seq<MatchRecord>, ids: set<string>, players: nat, k: nat): (r: Option<Reason>)
    requires k <= |matches|
    ensures r.None? <==> forall i :: k <= i < |matches| ==> MatchFits(matches, i, ids, players)
    decreases |matches| - k
  {
    if k == |matches| then None
    else if !HeaderFits(matches, k, players) then
      assert !MatchFits(matches, k, ids, players);
      Some(MatchesInvalid)
    else if !ResultsFit(matches[k].results, ids, players) then
      assert !MatchFits(matches, k, ids, players);
      Some(ResultsInvalid)
    else FirstProblem(matches, ids, players, k + 1)
  }

  /** Why a run is refused, in the order the checks are made. */
  function ProblemOf(run: BenchmarkRun): Option<Reason> {
    match PlayersOf(run.gameMode)
    case None => Some(UnsupportedMode)
    case Some(players) =>
      if !(0 <= run.completed <= 1000) || |run.matches| != run.completed then Some(CountMismatch)
      else if |run.roster| != players then Some(RosterMismatch)
      else if !RosterFits(run.roster, players) then Some(RosterInvalid)
      else FirstProblem(BySequence(run.matches), RosterIds(run.roster), players, 0)
  }

  predicate RunFits(run: BenchmarkRun) { ProblemOf(run).None? }

  // ----- Every lookup finds its result ----------------------------------------------------------

  predicate Distinct(s: seq<string>) { forall i, j :: 0 <= i < j < |s| ==> s[i] != s[j] }

  function Elements(s: seq<string>): set<string> { set x | x in s }

  lemma {:induction false} DistinctCount(s: seq<string>)
    requires Distinct(s)
    ensures |Elements(s)| == |s|
  {
    if s != [] {
      var rest, last := s[..|s| - 1], s[|s| - 1];
      DistinctCount(rest);
      assert Elements(s) == Elements(rest) + {last};
      assert last !in Elements(rest);
    }
  }

  lemma SubsetOfSameSize(a: set<string>, b: set<string>)
    requires a <= b && |a| == |b|
    ensures a == b
  {
    assert |b - a| == |b| - |a|;
  }

  function IdsOf(results: seq<SeatResult>): (r: seq<string>)
    ensures |r| == |results| && forall i :: 0 <= i < |r| ==> r[i] == results[i].id
  {
    seq(|results|, i requires 0 <= i < |results| => results[i].id)
  }

  function NamesOf(roster: seq<RosterEntry>): seq<string> {
    seq(|roster|, i requires 0 <= i < |roster| => roster[i].id)
  }

  /** A full set of results by roster participants has one for each of them. */
  lemma ResultsCoverTheRoster(results: seq<SeatResult>, roster: seq<RosterEntry>, players: nat)
    requires RosterFits(roster, players) && ResultsFit(results, RosterIds(roster), players) && |results| == players
    ensures Distinct(IdsOf(results)) && Distinct(NamesOf(roster))
    ensures Elements(IdsOf(results)) == Elements(NamesOf(roster))
  {
    var ids, names := IdsOf(results), NamesOf(roster);
    forall i, j | 0 <= i < j < players
      ensures names[i] != names[j] && ids[i] != ids[j]
    {
      assert RosterEntryFits(roster, j, players) && ResultFits(results, j, RosterIds(roster), players);
    }
    DistinctCount(ids);
    DistinctCount(names);
    forall x | x in Elements(ids)
      ensures x in Elements(names)
    {
      var i :| 0 <= i < |ids| && ids[i] == x;
      assert ResultFits(results, i, RosterIds(roster), players);
      var k :| 0 <= k < |roster| && roster[k].id == x;
      assert names[k] == x;
    }
    SubsetOfSameSize(Elements(ids), Elements(names));
  }

  lemma LookupFinds(m: MatchRecord, roster: seq<RosterEntry>, players: nat, p: nat)
    requires RosterFits(roster, players) && ResultsFit(m.results, RosterIds(roster), players)
    requires |m.results| == players && p < |roster|
    ensures ResultOf(m, roster[p].id).Some?
  {
    ResultsCoverTheRoster(m.results, roster, players);
    var id := roster[p].id;
    assert NamesOf(roster)[p] == id;
    assert id in Elements(IdsOf(m.results));
    var i :| 0 <= i < |m.results| && IdsOf(m.results)[i] == id;
    assert m.results[i].id == id;
  }

  /** In an accepted run every participant's result is found in every match. */
  lemma EveryoneIsFound(ms: seq<MatchRecord>, roster: seq<RosterEntry>, players: nat)
    requires RosterFits(roster, players) && MatchesFit(ms, RosterIds(roster), players)
    ensures forall p <- roster :: PlayedAll(ms, p.id)
  {
    forall i, p | 0 <= i < |ms| && 0 <= p < |roster|
      ensures ResultOf(ms[i], roster[p].id).Some?
    {
      assert MatchFits(ms, i, RosterIds(roster), players);
      LookupFinds(ms[i], roster, players, p);
    }
  }

  // ----- Nets sum to zero -------------------------------------------------------------------------

  predicate AllFound(m: MatchRecord, names: seq<string>) {
    forall i :: 0 <= i < |names| ==> ResultOf(m, names[i]).Some?
  }

  function ScoresOf(m: MatchRecord, names: seq<string>): int
    requires AllFound(m, names)
  {
    if names == [] then 0
    else ScoresOf(m, names[..|names| - 1]) + ResultOf(m, names[|names| - 1]).value.finalScore
  }

  function NetsOf(m: MatchRecord, names: seq<string>, players: nat): real
    requires AllFound(m, names) && players > 0
  {
    if names == [] then 0.0
    else NetsOf(m, names[..|names| - 1], players) + Net(m, names[|names| - 1], players)
  }

  lemma {:induction false} TotalWithout(results: seq<SeatResult>, k: nat)
    requires k < |results|
    ensures ScoreTotal(results[..k] + results[k + 1..]) == ScoreTotal(results) - results[k].finalScore
    decreases |results|
  {
    var last := |results| - 1;
    if k == last {
      assert results[..k] + results[k + 1..] == results[..last];
    } else {
      var rest := results[..last];
      TotalWithout(rest, k);
      var less := results[..k] + results[k + 1..];
      assert less[..|less| - 1] == rest[..k] + rest[k + 1..] && less[|less| - 1] == results[last];
    }
  }

  /** With one result per name, adding up by name or by result is the same. */
  lemma {:induction false} ScoresAreTheTotal(m: MatchRecord, names: seq<string>)
    requires Distinct(names) && Distinct(IdsOf(m.results)) && Elements(names) == Elements(IdsOf(m.results))
    requires AllFound(m, names)
    ensures ScoresOf(m, names) == ScoreTotal(m.results)
    decreases |names|
  {
    assert m.results != [] ==> IdsOf(m.results)[0] in Elements(IdsOf(m.results));
    if names != [] {
      var rest, last := names[..|names| - 1], names[|names| - 1];
      var r := ResultOf(m, last).value;
      var k :| 0 <= k < |m.results| && m.results[k] == r;
      var less := m.(results := m.results[..k] + m.results[k + 1..]);
      TotalWithout(m.results, k);
      RemovingOne(m, names, k);
      ScoresAreTheTotal(less, rest);
      SameScores(m, less, rest);
    }
  }

  lemma RemovingOne(m: MatchRecord, names: seq<string>, k: nat)
    requires Distinct(names) && Distinct(IdsOf(m.results)) && Elements(names) == Elements(IdsOf(m.results))
    requires names != [] && k < |m.results| && m.results[k].id == names[|names| - 1]
    ensures var rest, less := names[..|names| - 1], m.(results := m.results[..k] + m.results[k + 1..]);
      && Distinct(rest) && Distinct(IdsOf(less.results)) && Elements(rest) == Elements(IdsOf(less.results))
      && AllFound(less, rest)
      && forall r <- less.results :: r in m.results
  {
    hide ResultOf;
    var rest, less := names[..|names| - 1], m.(results := m.results[..k] + m.results[k + 1..]);
    var ids, fewer := IdsOf(m.results), IdsOf(less.results);
    assert fewer == ids[..k] + ids[k + 1..];
    ElementsWithout(ids, k);
    ElementsWithout(names, |names| - 1);
    assert names[..|names| - 1] + names[|names|..] == rest;
    forall i | 0 <= i < |rest|
      ensures ResultOf(less, rest[i]).Some?
    {
      assert rest[i] in Elements(fewer);
      var j :| 0 <= j < |fewer| && fewer[j] == rest[i];
      assert less.results[j].id == rest[i];
    }
  }

  lemma ElementsWithout(s: seq<string>, k: nat)
    requires Distinct(s) && k < |s|
    ensures Distinct(s[..k] + s[k + 1..]) && Elements(s[..k] + s[k + 1..]) == Elements(s) - {s[k]}
  {
    var rest := s[..k] + s[k + 1..];
    forall x
      ensures x in rest <==> x in s && x != s[k]
    {
      if x in s && x != s[k] {
        var i :| 0 <= i < |s| && s[i] == x;
        assert rest[if i < k then i else i - 1] == x;
      }
      if x in rest {
        var i :| 0 <= i < |rest| && rest[i] == x;
        assert s[if i < k then i else i + 1] == x;
      }
    }
  }

  lemma {:induction false} SameScores(m: MatchRecord, less: MatchRecord, names: seq<string>)
    requires AllFound(m, names) && AllFound(less, names) && Distinct(IdsOf(m.results))
    requires forall r <- less.results :: r in m.results
    ensures ScoresOf(m, names) == ScoresOf(less, names)
    decreases |names|
  {
    if names != [] {
      var last := |names| - 1;
      SameScores(m, less, names[..last]);
      OneResultPerId(m, ResultOf(m, names[last]).value, ResultOf(less, names[last]).value);
    }
  }

  lemma OneResultPerId(m: MatchRecord, r: SeatResult, s: SeatResult)
    requires Distinct(IdsOf(m.results)) && r in m.results && s in m.results && r.id == s.id
    ensures r == s
  {
    var i :| 0 <= i < |m.results| && m.results[i] == r;
    var j :| 0 <= j < |m.results| && m.results[j] == s;
    assert IdsOf(m.results)[i] == IdsOf(m.results)[j];
  }

  lemma {:induction false} NetsAreScoresLessMeans(m: MatchRecord, names: seq<string>, players: nat)
    requires AllFound(m, names) && players > 0
    ensures NetsOf(m, names, players)
      == ScoresOf(m, names) as real - |names| as real * MeanScore(m, players)
    decreases |names|
  {
    hide MeanScore, ResultOf;
    if names != [] { NetsAreScoresLessMeans(m, names[..|names| - 1], players); }
  }

  /** In one match the participants' nets cancel. */
  lemma NetsSumToZero(m: MatchRecord, roster: seq<RosterEntry>, players: nat)
    requires RosterFits(roster, players) && ResultsFit(m.results, RosterIds(roster), players)
    requires |m.results| == players > 0
    ensures AllFound(m, NamesOf(roster)) && NetsOf(m, NamesOf(roster), players) == 0.0
  {
    hide ResultFits, ResultOf, MeanScore, ScoreTotal, ScoresOf, NetsOf;
    var names := NamesOf(roster);
    ResultsCoverTheRoster(m.results, roster, players);
    forall i | 0 <= i < |names|
      ensures ResultOf(m, names[i]).Some?
    {
      LookupFinds(m, roster, players, i);
    }
    ScoresAreTheTotal(m, names);
    NetsAreScoresLessMeans(m, names, players);
    SharesMakeTheWhole(m, players);
  }

  lemma SharesMakeTheWhole(m: MatchRecord, players: nat)
    requires players > 0
    ensures players as real * MeanScore(m, players) == ScoreTotal(m.results) as real
  {
    hide ScoreTotal;
  }

  function TotalsOf(ms: seq<MatchRecord>, names: seq<string>, players: nat): real
    requires players > 0 && forall x <- names :: PlayedAll(ms, x)
  {
    if names == [] then 0.0
    else TotalsOf(ms, names[..|names| - 1], players) + NetTotal(ms, names[|names| - 1], players)
  }

  lemma {:induction false} TotalsGrowByNets(ms: seq<MatchRecord>, names: seq<string>, players: nat)
    requires players > 0 && ms != [] && forall x <- names :: PlayedAll(ms, x)
    ensures forall x <- names :: PlayedAll(ms[..|ms| - 1], x)
    ensures AllFound(ms[|ms| - 1], names)
    ensures TotalsOf(ms, names, players)
      == TotalsOf(ms[..|ms| - 1], names, players) + NetsOf(ms[|ms| - 1], names, players)
    decreases |names|
  {
    hide ResultOf, Net;
    if names != [] {
      assert names[|names| - 1] in names;
      TotalsGrowByNets(ms, names[..|names| - 1], players);
    }
  }

  lemma {:induction false} NoMatchesNoTotals(names: seq<string>, players: nat)
    requires players > 0
    ensures TotalsOf([], names, players) == 0.0
  {
    if names != [] { NoMatchesNoTotals(names[..|names| - 1], players); }
  }

  /** After any number of matches the participants' cumulative nets cancel. */
  lemma {:induction false} CumulativeNetsSumToZero(ms: seq<MatchRecord>, roster: seq<RosterEntry>, players: nat)
    requires players > 0 && RosterFits(roster, players) && MatchesFit(ms, RosterIds(roster), players)
    ensures forall x <- NamesOf(roster) :: PlayedAll(ms, x)
    ensures TotalsOf(ms, NamesOf(roster), players) == 0.0
    decreases |ms|
  {
    EveryoneIsFound(ms, roster, players);
    var names := NamesOf(roster);
    assert forall x <- names :: PlayedAll(ms, x) by {
      forall x | x in names
        ensures PlayedAll(ms, x)
      {
        var i :| 0 <= i < |names| && names[i] == x;
        assert roster[i] in roster;
      }
    }
    if ms == [] {
      NoMatchesNoTotals(names, players);
    } else {
      var rest, last := ms[..|ms| - 1], |ms| - 1;
      FitsWithoutLast(ms, RosterIds(roster), players);
      CumulativeNetsSumToZero(rest, roster, players);
      assert MatchFits(ms, last, RosterIds(roster), players);
      NetsSumToZero(ms[last], roster, players);
      TotalsGrowByNets(ms, names, players);
    }
  }

  lemma FitsWithoutLast(ms: seq<MatchRecord>, ids: set<string>, players: nat)
    requires ms != [] && MatchesFit(ms, ids, players)
    ensures MatchesFit(ms[..|ms| - 1], ids, players)
  {
    hide ResultsFit;
    var rest := ms[..|ms| - 1];
    forall i | 0 <= i < |rest|
      ensures MatchFits(rest, i, ids, players)
    {
      assert MatchFits(ms, i, ids, players);
    }
  }

  // ----- Rank counts --------------------------------------------------------------------------------

  function CountsUpTo(ranks: seq<int>, n: nat): nat {
    if n == 0 then 0 else CountsUpTo(ranks, n - 1) + CountOf(ranks, n)
  }

  function WeightedUpTo(ranks: seq<int>, n: nat): int {
    if n == 0 then 0 else WeightedUpTo(ranks, n - 1) + n * CountOf(ranks, n)
  }

  lemma {:induction false} OneMoreRank(ranks: seq<int>, n: nat)
    requires ranks != []
    ensures var rest, last := ranks[..|ranks| - 1], ranks[|ranks| - 1];
      && CountsUpTo(ranks, n) == CountsUpTo(rest, n) + (if 1 <= last <= n then 1 else 0)
      && WeightedUpTo(ranks, n) == WeightedUpTo(rest, n) + (if 1 <= last <= n then last else 0)
    decreases n
  {
    if n > 0 {
      OneMoreRank(ranks, n - 1);
      var rest, last := ranks[..|ranks| - 1], ranks[|ranks| - 1];
      var c := CountOf(rest, n);
      assert CountOf(ranks, n) == c + if last == n then 1 else 0;
      OneMoreTime(n, c);
    }
  }

  lemma OneMoreTime(n: nat, c: nat)
    ensures n * (c + 1) == n * c + n
  {
  }

  lemma {:induction false} NoRanksNoCounts(n: nat)
    ensures CountsUpTo([], n) == 0 && WeightedUpTo([], n) == 0
  {
    if n > 0 { NoRanksNoCounts(n - 1); }
  }

  /** The rank counts add up to the matches played, and weighted by rank to the sum of ranks. */
  lemma {:induction false} CountsAddUp(ranks: seq<int>, players: nat)
    requires forall i :: 0 <= i < |ranks| ==> 1 <= ranks[i] <= players
    ensures CountsUpTo(ranks, players) == |ranks| && WeightedUpTo(ranks, players) == Total(ranks)
  {
    if ranks == [] {
      NoRanksNoCounts(players);
    } else {
      CountsAddUp(ranks[..|ranks| - 1], players);
      OneMoreRank(ranks, players);
    }
  }

  lemma RanksAreInRange(ms: seq<MatchRecord>, roster: seq<RosterEntry>, players: nat, p: nat)
    requires RosterFits(roster, players) && MatchesFit(ms, RosterIds(roster), players) && p < |roster|
    ensures PlayedAll(ms, roster[p].id)
    ensures forall i :: 0 <= i < |ms| ==> 1 <= RanksOf(ms, roster[p].id)[i] <= players
  {
    EveryoneIsFound(ms, roster, players);
    assert roster[p] in roster;
    forall i | 0 <= i < |ms|
      ensures 1 <= RanksOf(ms, roster[p].id)[i] <= players
    {
      assert MatchFits(ms, i, RosterIds(roster), players);
      var r := ResultOf(ms[i], roster[p].id).value;
      var k :| 0 <= k < |ms[i].results| && ms[i].results[k] == r;
      assert ResultFits(ms[i].results, k, RosterIds(roster), players);
    }
  }

  // ----- The order of the matches -----------------------------------------------------------------

  lemma FittingIsNumbered(ms: seq<MatchRecord>, ids: set<string>, players: nat)
    requires MatchesFit(ms, ids, players)
    ensures Numbered(ms)
  {
    forall i | 0 <= i < |ms|
      ensures ms[i].sequence == i + 1
    {
      assert MatchFits(ms, i, ids, players);
    }
  }

  /** Reordering the matches of a run changes neither whether it is accepted nor what is derived. */
  lemma OrderDoesNotMatter(run: BenchmarkRun, matches: seq<MatchRecord>)
    requires multiset(run.matches) == multiset(matches)
    ensures RunFits(run) <==> RunFits(run.(matches := matches))
    ensures RunFits(run) ==> BySequence(matches) == BySequence(run.matches)
  {
    hide FirstProblem, RosterFits, BySequence;
    SameCount(run.matches, matches);
    if RunFits(run) { SortedAlike(run, matches); }
    if RunFits(run.(matches := matches)) { SortedAlike(run.(matches := matches), run.matches); }
  }

  lemma SameCount(s: seq<MatchRecord>, t: seq<MatchRecord>)
    requires multiset(s) == multiset(t)
    ensures |s| == |t|
  {
    assert |s| == |multiset(s)| && |t| == |multiset(t)|;
  }

  lemma SortedAlike(run: BenchmarkRun, matches: seq<MatchRecord>)
    requires multiset(run.matches) == multiset(matches) && RunFits(run)
    ensures BySequence(matches) == BySequence(run.matches)
  {
    FittingIsNumbered(BySequence(run.matches), RosterIds(run.roster), PlayersOf(run.gameMode).value);
    SortingFindsTheNumbering(matches, BySequence(run.matches));
  }

  /** The whole outcome of a run: the first problem, or everyone's statistics in roster order. */
  function Outcome(run: BenchmarkRun): RunAnalytics {
    match ProblemOf(run)
    case Some(reason) => InvalidRun(reason)
    case None =>
      var ms, players := BySequence(run.matches), PlayersOf(run.gameMode).value;
      EveryoneIsFound(ms, run.roster, players);
      Ready(run.completed, run.completed < 10,
        seq(|run.roster|, i requires 0 <= i < |run.roster| => AnalyticsOf(ms, run.roster[i], players)))
  }

  // ----- The derivation as written ------------------------------------------------------------------

  method CheckRoster(roster: seq<RosterEntry>, players: nat) returns (ids: Option<set<string>>)
    requires |roster| == players
    ensures ids.Some? <==> RosterFits(roster, players)
    ensures ids.Some? ==> ids.value == RosterIds(roster)
  {
    var participantIds: set<string>, initialSeats: set<int> := {}, {};
    for i := 0 to |roster|
      invariant forall j :: 0 <= j < i ==> RosterEntryFits(roster, j, players)
      invariant participantIds == set j | 0 <= j < i :: roster[j].id
      invariant initialSeats == set j | 0 <= j < i :: roster[j].initialSeat
    {
      var p := roster[i];
      if p.id == "" || p.id in participantIds || p.initialSeat < 0 || p.initialSeat >= players
        || p.initialSeat in initialSeats {
        assert !RosterEntryFits(roster, i, players);
        return None;
      }
      participantIds := participantIds + {p.id};
      initialSeats := initialSeats + {p.initialSeat};
    }
    return Some(participantIds);
  }

  method CheckResults(results: seq<SeatResult>, ids: set<string>, players: nat) returns (ok: bool)
    ensures ok <==> ResultsFit(results, ids, players)
  {
    var resultIds: set<string>, seats: set<int> := {}, {};
    for i := 0 to |results|
      invariant forall j :: 0 <= j < i ==> ResultFits(results, j, ids, players)
      invariant resultIds == set j | 0 <= j < i :: results[j].id
      invariant seats == set j | 0 <= j < i :: results[j].seat
    {
      var r := results[i];
      if r.id !in ids || r.id in resultIds || r.seat < 0 || r.seat >= players || r.seat in seats
        || r.rank < 1 || r.rank > players {
        assert !ResultFits(results, i, ids, players);
        return false;
      }
      resultIds := resultIds + {r.id};
      seats := seats + {r.seat};
    }
    return true;
  }

  method CheckMatches(matches: seq<MatchRecord>, ids: set<string>, players: nat) returns (r: Option<Reason>)
    ensures r == FirstProblem(matches, ids, players, 0)
  {
    hide ResultsFit;
    var matchIds: set<string> := {};
    for i := 0 to |matches|
      invariant FirstProblem(matches, ids, players, 0) == FirstProblem(matches, ids, players, i)
      invariant matchIds == set j | 0 <= j < i :: matches[j].id
    {
      var m := matches[i];
      if m.sequence != i + 1 || m.id == "" || m.id in matchIds || |m.results| != players {
        assert !HeaderFits(matches, i, players);
        return Some(MatchesInvalid);
      }
      assert HeaderFits(matches, i, players);
      matchIds := matchIds + {m.id};
      var ok := CheckResults(m.results, ids, players);
      if !ok { return Some(ResultsInvalid); }
    }
    return None;
  }

  lemma NextMatch(ms: seq<MatchRecord>, id: string, players: nat, i: nat)
    requires i < |ms| && PlayedAll(ms, id) && players > 0
    ensures PlayedAll(ms[..i], id) && PlayedAll(ms[..i + 1], id)
    ensures NetTotal(ms[..i + 1], id, players) == NetTotal(ms[..i], id, players) + Net(ms[i], id, players)
    ensures RanksOf(ms[..i + 1], id) == RanksOf(ms[..i], id) + [ResultOf(ms[i], id).value.rank]
  {
    hide ResultOf, Net;
    assert ms[..i + 1][..i] == ms[..i];
  }

  lemma NextRank(ranks: seq<int>, rank: int, players: nat)
    requires 1 <= rank <= players
    ensures Total(ranks + [rank]) == Total(ranks) + rank
    ensures var counts := RankCounts(ranks, players);
      RankCounts(ranks + [rank], players) == counts[rank - 1 := counts[rank - 1] + 1]
  {
    assert (ranks + [rank])[..|ranks|] == ranks;
  }

  lemma NextPoint(ms: seq<MatchRecord>, id: string, players: nat, i: nat)
    requires i < |ms| && players > 0 && PlayedAll(ms, id)
    ensures PlayedAll(ms[..i], id) && PlayedAll(ms[..i + 1], id)
    ensures PointsOf(ms[..i + 1], id, players)
      == PointsOf(ms[..i], id, players) + [PointAfter(ms[..i + 1], id, players)]
  {
    hide PointAfter, ResultOf;
    var left := PointsOf(ms[..i + 1], id, players);
    var right := PointsOf(ms[..i], id, players) + [PointAfter(ms[..i + 1], id, players)];
    forall k | 0 <= k < |left|
      ensures left[k] == right[k]
    {
      var n := k + 1;
      assert ms[..i + 1][..n] == ms[..n];
      if k < i { assert ms[..i][..n] == ms[..n]; }
    }
  }

  /** One participant's pass over the matches. */
  method DeriveParticipant(ms: seq<MatchRecord>, who: RosterEntry, players: nat) returns (r: ParticipantAnalytics)
    requires players > 0 && PlayedAll(ms, who.id)
    requires forall i :: 0 <= i < |ms| ==> 1 <= RanksOf(ms, who.id)[i] <= players
    ensures r == AnalyticsOf(ms, who, players)
  {
    hide ResultOf, Net, NetTotal, CountOf, Total, RankCounts, PointsOf;
    var cumulative, rankSum, ranks, rankCounts, points := 0.0, 0, [], seq(players, _ => 0), [];
    StartsEmpty(ms, who.id, players);
    for i := 0 to |ms|
      invariant PlayedAll(ms[..i], who.id)
      invariant cumulative == NetTotal(ms[..i], who.id, players)
      invariant ranks == RanksOf(ms[..i], who.id) && rankSum == Total(ranks)
      invariant rankCounts == RankCounts(ranks, players)
      invariant points == PointsOf(ms[..i], who.id, players)
    {
      NextMatch(ms, who.id, players, i);
      NextPoint(ms, who.id, players, i);
      var result := ResultOf(ms[i], who.id).value;
      assert RanksOf(ms, who.id)[i] == result.rank;
      var mean := ScoreTotal(ms[i].results) as real / players as real;
      var net := result.finalScore as real - mean;
      NetUnfolds(ms[i], who.id, players);
      cumulative := cumulative + net;
      NextRank(ranks, result.rank, players);
      rankSum := rankSum + result.rank;
      rankCounts := rankCounts[result.rank - 1 := rankCounts[result.rank - 1] + 1];
      ranks := ranks + [result.rank];
      var trailing := Trailing(ranks);
      var movingRank := Total(trailing) as real / |trailing| as real;
      points := points + [AnalyticsPoint(ms[i].sequence, ms[i].id, net, cumulative, movingRank, |trailing|)];
      assert ms[..i + 1][|ms[..i + 1]| - 1] == ms[i];
    }
    assert ms[..|ms|] == ms;
    FirstCount(ranks, players);
    var completed := |ms|;
    r := ParticipantAnalytics(who.id, who.displayName,
      if completed == 0 then None else Some(rankSum as real / completed as real),
      if completed == 0 then None else Some(rankCounts[0] as real / completed as real),
      cumulative, rankCounts, points);
  }

  lemma FirstCount(ranks: seq<int>, players: nat)
    requires players > 0
    ensures RankCounts(ranks, players)[0] == CountOf(ranks, 1)
  {
  }

  lemma NetUnfolds(m: MatchRecord, id: string, players: nat)
    requires ResultOf(m, id).Some? && players > 0
    ensures Net(m, id, players)
      == ResultOf(m, id).value.finalScore as real - ScoreTotal(m.results) as real / players as real
  {
  }

  lemma StartsEmpty(ms: seq<MatchRecord>, id: string, players: nat)
    requires players > 0
    ensures PlayedAll(ms[..0], id) && NetTotal(ms[..0], id, players) == 0.0
    ensures RanksOf(ms[..0], id) == [] && Total([]) == 0
    ensures RankCounts([], players) == seq(players, _ => 0) && PointsOf(ms[..0], id, players) == []
  {
  }

  /** Derives a run's statistics, or says why it is refused. */
  method DeriveRunAnalytics(run: BenchmarkRun) returns (r: RunAnalytics)
    ensures r == Outcome(run)
  {
    hide AnalyticsOf, RosterFits, RosterIds, BySequence, PlayedAll, MatchFits;
    var mode := PlayersOf(run.gameMode);
    if mode.None? { return InvalidRun(UnsupportedMode); }
    var players := mode.value;
    if run.completed < 0 || run.completed > 1000 || |run.matches| != run.completed {
      return InvalidRun(CountMismatch);
    }
    if |run.roster| != players { return InvalidRun(RosterMismatch); }
    var ids := CheckRoster(run.roster, players);
    if ids.None? { return InvalidRun(RosterInvalid); }
    var matches := BySequence(run.matches);
    var problem := CheckMatches(matches, ids.value, players);
    if problem.Some? { return InvalidRun(problem.value); }
    EveryoneIsFound(matches, run.roster, players);
    var participants := [];
    for i := 0 to players
      invariant |participants| == i
      invariant forall k :: 0 <= k < i ==>
        && PlayedAll(matches, run.roster[k].id)
        && participants[k] == AnalyticsOf(matches, run.roster[k], players)
    {
      RanksAreInRange(matches, run.roster, players, i);
      var one := DeriveParticipant(matches, run.roster[i], players);
      participants := participants + [one];
    }
    return Ready(run.completed, run.completed < 10, participants);
  }
}
