// The statistics in plain figures, and when a run has any.

module BenchmarkMeaning {
  import opened Wrappers
  import opened BenchmarkRuns
  import opened BenchmarkAnalytics
  import opened BenchmarkDerivation

  // ----- The figures -----------------------------------------------------------------------------------

  /** What a participant's line in a match says. */
  function RankIn(m: MatchRecord, id: string): int
    requires ResultOf(m, id).Some?
  {
    ResultOf(m, id).value.rank
  }

  /** The ranks of matches [lo, hi), added up. */
  function RankSum(ms: seq<MatchRecord>, id: string, lo: nat, hi: nat): int
    requires lo <= hi <= |ms| && PlayedAll(ms, id)
    decreases hi
  {
    if lo == hi then 0 else RankSum(ms, id, lo, hi - 1) + RankIn(ms[hi - 1], id)
  }

  /** In how many of the first `n` matches the participant came in at `rank`. */
  function TimesPlaced(ms: seq<MatchRecord>, id: string, rank: int, n: nat): nat
    requires n <= |ms| && PlayedAll(ms, id)
  {
    if n == 0 then 0 else TimesPlaced(ms, id, rank, n - 1) + if RankIn(ms[n - 1], id) == rank then 1 else 0
  }

  lemma {:induction false} TotalIsSum(ms: seq<MatchRecord>, id: string, lo: nat, hi: nat)
    requires lo <= hi <= |ms| && PlayedAll(ms, id)
    ensures Total(RanksOf(ms, id)[lo..hi]) == RankSum(ms, id, lo, hi)
    decreases hi
  {
    hide ResultOf;
    var ranks := RanksOf(ms, id);
    if lo < hi {
      TotalIsSum(ms, id, lo, hi - 1);
      assert ranks[lo..hi][..hi - lo - 1] == ranks[lo..hi - 1];
    }
  }

  lemma {:induction false} CountIsTimes(ms: seq<MatchRecord>, id: string, rank: int, n: nat)
    requires n <= |ms| && PlayedAll(ms, id)
    ensures CountOf(RanksOf(ms, id)[..n], rank) == TimesPlaced(ms, id, rank, n)
  {
    var ranks := RanksOf(ms, id);
    if n > 0 {
      CountIsTimes(ms, id, rank, n - 1);
      assert ranks[..n][..n - 1] == ranks[..n - 1];
    }
  }

  lemma MeanTimesCount(ranks: seq<int>)
    requires ranks != []
    ensures Mean(ranks) * |ranks| as real == Total(ranks) as real
  {
  }

  /** The scores of a match's table, added up. */
  function TableSum(m: MatchRecord, n: nat): int
    requires n <= |m.results|
  {
    if n == 0 then 0 else TableSum(m, n - 1) + m.results[n - 1].finalScore
  }

  lemma {:induction false} TableSumIs(results: seq<SeatResult>, n: nat, m: MatchRecord)
    requires n <= |results| && m.results == results
    ensures ScoreTotal(results[..n]) == TableSum(m, n)
  {
    if n > 0 {
      TableSumIs(results, n - 1, m);
      assert results[..n][..n - 1] == results[..n - 1];
    }
  }

  /** One match's point: the gain over the table's mean, and the mean of the last ten ranks or fewer. */
  predicate PointStands(ms: seq<MatchRecord>, id: string, players: nat, k: nat, p: AnalyticsPoint)
    requires k < |ms| && PlayedAll(ms, id)
  {
    var n := if k + 1 < 10 then k + 1 else 10;
    && p.sequence == ms[k].sequence && p.matchId == ms[k].id
    && p.net * players as real ==
         (players * ResultOf(ms[k], id).value.finalScore - TableSum(ms[k], |ms[k].results|)) as real
    && p.movingN == n && p.movingRank * n as real == RankSum(ms, id, k + 1 - n, k + 1) as real
  }

  lemma NetStands(m: MatchRecord, id: string, players: nat)
    requires ResultOf(m, id).Some? && players > 0
    ensures Net(m, id, players) * players as real ==
      (players * ResultOf(m, id).value.finalScore - TableSum(m, |m.results|)) as real
  {
    TableSumIs(m.results, |m.results|, m);
    assert m.results[..|m.results|] == m.results;
    var score, total, n := ResultOf(m, id).value.finalScore, ScoreTotal(m.results), players as real;
    assert (total as real / n) * n == total as real;
    assert (players * score) as real == score as real * n;
  }

  /** The ranks a moving mean is taken of are the last ten up to there, or all of them if there are fewer. */
  lemma TrailingAre(ms: seq<MatchRecord>, id: string, k: nat, n: nat)
    requires k < |ms| && PlayedAll(ms, id) && n == if k + 1 < 10 then k + 1 else 10
    ensures PlayedAll(ms[..k + 1], id)
    ensures Trailing(RanksOf(ms[..k + 1], id)) == RanksOf(ms, id)[k + 1 - n..k + 1]
  {
    hide ResultOf;
    assert RanksOf(ms[..k + 1], id) == RanksOf(ms, id)[..k + 1];
  }

  lemma MovingMeanStands(ms: seq<MatchRecord>, id: string, k: nat, n: nat)
    requires k < |ms| && PlayedAll(ms, id) && n == if k + 1 < 10 then k + 1 else 10
    ensures PlayedAll(ms[..k + 1], id)
    ensures var trailing := Trailing(RanksOf(ms[..k + 1], id));
      |trailing| == n && Mean(trailing) * n as real == RankSum(ms, id, k + 1 - n, k + 1) as real
  {
    hide Mean, Total, RankSum, ResultOf, Trailing;
    TrailingAre(ms, id, k, n);
    TotalIsSum(ms, id, k + 1 - n, k + 1);
    MeanTimesCount(Trailing(RanksOf(ms[..k + 1], id)));
  }

  lemma PointIsRight(ms: seq<MatchRecord>, id: string, players: nat, k: nat)
    requires k < |ms| && PlayedAll(ms, id) && players > 0
    ensures PointStands(ms, id, players, k, PointsOf(ms, id, players)[k])
  {
    hide Net, Mean, Total, RankSum, ResultOf, Trailing, RanksOf, NetTotal, TableSum;
    NetStands(ms[k], id, players);
    MovingMeanStands(ms, id, k, if k + 1 < 10 then k + 1 else 10);
    assert ms[..k + 1][k] == ms[k];
  }

  /** Cumulative gains: each match adds its own. */
  lemma GainsAddUp(ms: seq<MatchRecord>, id: string, players: nat, k: nat)
    requires k < |ms| && PlayedAll(ms, id) && players > 0
    ensures var points := PointsOf(ms, id, players);
      && points[k].cumulative == (if k == 0 then 0.0 else points[k - 1].cumulative) + points[k].net
      && (k == |ms| - 1 ==> NetTotal(ms, id, players) == points[k].cumulative)
  {
    hide Net, Mean, RanksOf, NetTotal, Trailing;
    NextMatch(ms, id, players, k);
    if k == |ms| - 1 { assert ms[..k + 1] == ms; }
    if k == 0 { NothingGained(ms, id, players); }
    assert ms[..k + 1][k] == ms[k];
  }

  lemma NothingGained(ms: seq<MatchRecord>, id: string, players: nat)
    requires PlayedAll(ms, id) && players > 0
    ensures PlayedAll(ms[..0], id) && NetTotal(ms[..0], id, players) == 0.0
  {
  }

  lemma RateTimesCount(c: int, n: nat)
    requires n > 0
    ensures (c as real / n as real) * n as real == c as real
  {
  }

  /** Averages over the matches played; over none there are none. */
  predicate AveragesStand(a: ParticipantAnalytics, ms: seq<MatchRecord>, id: string)
    requires PlayedAll(ms, id)
  {
    if ms == [] then a.averageRank.None? && a.firstPlaceRate.None?
    else
      && a.averageRank.Some? && a.averageRank.value * |ms| as real == RankSum(ms, id, 0, |ms|) as real
      && a.firstPlaceRate.Some? && a.firstPlaceRate.value * |ms| as real == TimesPlaced(ms, id, 1, |ms|) as real
  }

  predicate CountsStand(counts: seq<nat>, ms: seq<MatchRecord>, id: string, players: nat)
    requires PlayedAll(ms, id)
  {
    |counts| == players && forall k :: 0 <= k < players ==> counts[k] == TimesPlaced(ms, id, k + 1, |ms|)
  }

  /** What has been gained up to a point is what had been before it and the point's own gain. */
  predicate GainsStand(points: seq<AnalyticsPoint>, k: nat)
    requires k < |points|
  {
    points[k].cumulative == (if k == 0 then 0.0 else points[k - 1].cumulative) + points[k].net
  }

  predicate CourseStands(points: seq<AnalyticsPoint>, ms: seq<MatchRecord>, id: string, players: nat)
    requires PlayedAll(ms, id)
  {
    |points| == |ms|
    && forall k :: 0 <= k < |ms| ==> PointStands(ms, id, players, k, points[k]) && GainsStand(points, k)
  }

  /** A participant's statistics, figure by figure. */
  predicate StatisticsStand(a: ParticipantAnalytics, ms: seq<MatchRecord>, who: RosterEntry, players: nat)
    requires PlayedAll(ms, who.id)
  {
    && a.participantId == who.id && a.displayName == who.displayName
    && AveragesStand(a, ms, who.id) && CountsStand(a.rankCounts, ms, who.id, players)
    && CourseStands(a.points, ms, who.id, players)
    && a.cumulativeNet == if ms == [] then 0.0 else a.points[|ms| - 1].cumulative
  }

  lemma AveragesAreRight(ms: seq<MatchRecord>, who: RosterEntry, players: nat)
    requires PlayedAll(ms, who.id) && players > 0
    ensures AveragesStand(AnalyticsOf(ms, who, players), ms, who.id)
  {
    hide Mean, Total, CountOf, RankSum, TimesPlaced, NetTotal, PointsOf, RankCounts, RanksOf;
    if ms != [] {
      var ranks := RanksOf(ms, who.id);
      assert ranks[0..|ms|] == ranks && ranks[..|ms|] == ranks;
      TotalIsSum(ms, who.id, 0, |ms|);
      MeanTimesCount(ranks);
      CountIsTimes(ms, who.id, 1, |ms|);
      RateTimesCount(CountOf(ranks, 1), |ms|);
    }
  }

  lemma CountsAreRight(ms: seq<MatchRecord>, id: string, players: nat)
    requires PlayedAll(ms, id)
    ensures CountsStand(RankCounts(RanksOf(ms, id), players), ms, id, players)
  {
    hide CountOf, TimesPlaced, RanksOf;
    var ranks := RanksOf(ms, id);
    assert ranks[..|ms|] == ranks;
    forall k | 0 <= k < players
      ensures RankCounts(ranks, players)[k] == TimesPlaced(ms, id, k + 1, |ms|)
    {
      CountIsTimes(ms, id, k + 1, |ms|);
    }
  }

  lemma CourseIsRight(ms: seq<MatchRecord>, id: string, players: nat)
    requires PlayedAll(ms, id) && players > 0
    ensures CourseStands(PointsOf(ms, id, players), ms, id, players)
    ensures NetTotal(ms, id, players) ==
      if ms == [] then 0.0 else PointsOf(ms, id, players)[|ms| - 1].cumulative
  {
    hide PointStands, PointsOf, NetTotal;
    forall k | 0 <= k < |ms|
      ensures PointStands(ms, id, players, k, PointsOf(ms, id, players)[k]) && GainsStand(PointsOf(ms, id, players), k)
    {
      PointIsRight(ms, id, players, k);
      GainsAddUp(ms, id, players, k);
    }
    if ms == [] {
      assert ms[..0] == ms;
      NothingGained(ms, id, players);
    } else {
      GainsAddUp(ms, id, players, |ms| - 1);
    }
  }

  /** What is derived for a participant is what it says. */
  lemma StatisticsAreRight(ms: seq<MatchRecord>, who: RosterEntry, players: nat)
    requires PlayedAll(ms, who.id) && players > 0
    ensures StatisticsStand(AnalyticsOf(ms, who, players), ms, who, players)
  {
    hide AveragesStand, CountsStand, CourseStands, PointsOf, RankCounts, RanksOf, NetTotal;
    AveragesAreRight(ms, who, players);
    CountsAreRight(ms, who.id, players);
    CourseIsRight(ms, who.id, players);
    SamePoints(ms, who, players);
  }

  lemma SamePoints(ms: seq<MatchRecord>, who: RosterEntry, players: nat)
    requires PlayedAll(ms, who.id) && players > 0
    ensures var a := AnalyticsOf(ms, who, players);
      && a.points == PointsOf(ms, who.id, players) && a.cumulativeNet == NetTotal(ms, who.id, players)
      && a.rankCounts == RankCounts(RanksOf(ms, who.id), players)
      && a.participantId == who.id && a.displayName == who.displayName
  {
    hide PointsOf, RankCounts, RanksOf, NetTotal, Mean, CountOf;
  }

  // ----- Which runs have statistics --------------------------------------------------------------------

  /** The table size a mode is played at. */
  predicate PlayedBy(gameMode: string, players: nat) {
    || (players == 3 && (gameMode == "3p-red-east" || gameMode == "3p-red-half"))
    || (players == 4 && (gameMode == "4p-red-east" || gameMode == "4p-red-half"))
  }

  predicate CountsMatch(run: BenchmarkRun) { 0 <= run.completed <= 1000 && |run.matches| == run.completed }

  /** One entry per seat, each with an id and a seat of its own. */
  predicate RosterStands(roster: seq<RosterEntry>, players: nat) {
    && |roster| == players
    && (forall i :: 0 <= i < |roster| ==> roster[i].id != "" && 0 <= roster[i].initialSeat < players)
    && forall i, j :: 0 <= i < j < |roster| ==>
         roster[i].id != roster[j].id && roster[i].initialSeat != roster[j].initialSeat
  }

  /** Numbered for its place, named like no earlier match, and with a result for every seat. */
  predicate HeaderStands(ms: seq<MatchRecord>, k: nat, players: nat)
    requires k < |ms|
  {
    && ms[k].sequence == k + 1 && ms[k].id != "" && |ms[k].results| == players
    && forall j :: 0 <= j < k ==> ms[j].id != ms[k].id
  }

  predicate OnRoster(roster: seq<RosterEntry>, id: string) { exists p :: 0 <= p < |roster| && roster[p].id == id }

  /** Results of roster participants, each once, in seats of their own, with ranks of the table. */
  predicate ResultsStand(results: seq<SeatResult>, roster: seq<RosterEntry>, players: nat) {
    && (forall i :: 0 <= i < |results| ==>
          && 0 <= results[i].seat < players && 1 <= results[i].rank <= players && OnRoster(roster, results[i].id))
    && forall i, j :: 0 <= i < j < |results| ==> results[i].id != results[j].id && results[i].seat != results[j].seat
  }

  lemma RosterStandsIff(roster: seq<RosterEntry>, players: nat)
    ensures RosterFits(roster, players) <==> RosterStands(roster, players)
  {
    if RosterStands(roster, players) {
      forall i | 0 <= i < |roster|
        ensures RosterEntryFits(roster, i, players)
      {
      }
    }
    if RosterFits(roster, players) {
      forall i, j | 0 <= i < j < |roster|
        ensures roster[i].id != roster[j].id && roster[i].initialSeat != roster[j].initialSeat
      {
        assert RosterEntryFits(roster, j, players);
      }
      forall i | 0 <= i < |roster|
        ensures roster[i].id != "" && 0 <= roster[i].initialSeat < players
      {
        assert RosterEntryFits(roster, i, players);
      }
    }
  }

  lemma RosterIdsAre(roster: seq<RosterEntry>, id: string)
    ensures id in RosterIds(roster) <==> OnRoster(roster, id)
  {
  }

  lemma ResultsStandIff(results: seq<SeatResult>, roster: seq<RosterEntry>, players: nat)
    ensures ResultsFit(results, RosterIds(roster), players) <==> ResultsStand(results, roster, players)
  {
    hide RosterIds, OnRoster;
    var ids := RosterIds(roster);
    forall i | 0 <= i < |results|
      ensures results[i].id in ids <==> OnRoster(roster, results[i].id)
    {
      RosterIdsAre(roster, results[i].id);
    }
    if ResultsStand(results, roster, players) {
      forall i | 0 <= i < |results|
        ensures ResultFits(results, i, ids, players)
      {
      }
    }
    if ResultsFit(results, ids, players) {
      forall i, j | 0 <= i < j < |results|
        ensures results[i].id != results[j].id && results[i].seat != results[j].seat
      {
        assert ResultFits(results, j, ids, players);
      }
      forall i | 0 <= i < |results|
        ensures results[i].id in ids && 0 <= results[i].seat < players && 1 <= results[i].rank <= players
      {
        assert ResultFits(results, i, ids, players);
      }
    }
  }

  /** Every match before `k` is in order. */
  predicate InOrderBefore(ms: seq<MatchRecord>, roster: seq<RosterEntry>, players: nat, k: nat)
    requires k <= |ms|
  {
    forall j :: 0 <= j < k ==> HeaderStands(ms, j, players) && ResultsStand(ms[j].results, roster, players)
  }

  /** The reason is the first fault in reading order; without one there is none. */
  predicate ReasonStands(run: BenchmarkRun, reason: Option<Reason>, players: nat) {
    var ms := BySequence(run.matches);
    if !CountsMatch(run) then reason == Some(CountMismatch)
    else if |run.roster| != players then reason == Some(RosterMismatch)
    else if !RosterStands(run.roster, players) then reason == Some(RosterInvalid)
    else match reason
      case None => InOrderBefore(ms, run.roster, players, |ms|)
      case Some(MatchesInvalid) =>
        exists k :: 0 <= k < |ms| && InOrderBefore(ms, run.roster, players, k) && !HeaderStands(ms, k, players)
      case Some(ResultsInvalid) =>
        exists k :: 0 <= k < |ms| && InOrderBefore(ms, run.roster, players, k) && HeaderStands(ms, k, players)
          && !ResultsStand(ms[k].results, run.roster, players)
      case Some(_) => false
  }

  lemma {:induction false} FirstFault(ms: seq<MatchRecord>, roster: seq<RosterEntry>, players: nat, k: nat)
    requires k <= |ms| && InOrderBefore(ms, roster, players, k)
    ensures var reason := FirstProblem(ms, RosterIds(roster), players, k);
      && (reason.None? ==> InOrderBefore(ms, roster, players, |ms|))
      && (reason == Some(MatchesInvalid) ==>
            exists l :: 0 <= l < |ms| && InOrderBefore(ms, roster, players, l) && !HeaderStands(ms, l, players))
      && (reason == Some(ResultsInvalid) ==>
            exists l :: 0 <= l < |ms| && InOrderBefore(ms, roster, players, l) && HeaderStands(ms, l, players)
              && !ResultsStand(ms[l].results, roster, players))
      && (reason.Some? ==> reason.value.MatchesInvalid? || reason.value.ResultsInvalid?)
    decreases |ms| - k
  {
    hide ResultsFit, ResultsStand;
    if k < |ms| {
      ResultsStandIff(ms[k].results, roster, players);
      assert HeaderFits(ms, k, players) <==> HeaderStands(ms, k, players);
      if HeaderFits(ms, k, players) && ResultsFit(ms[k].results, RosterIds(roster), players) {
        FirstFault(ms, roster, players, k + 1);
      }
    }
  }

  /**
   * A run of an unknown mode is refused as such. Otherwise it is refused for the first fault, and if
   * it has none every participant's statistics are derived, in roster order, from the matches in
   * sequence; below ten matches they are provisional.
   */
  lemma OutcomeMeans(run: BenchmarkRun)
    ensures (forall players: nat :: PlayedBy(run.gameMode, players) ==> PlayersOf(run.gameMode) == Some(players))
    ensures PlayersOf(run.gameMode).None? ==> Outcome(run) == InvalidRun(UnsupportedMode)
    ensures PlayersOf(run.gameMode).Some? ==>
      var players, r := PlayersOf(run.gameMode).value, Outcome(run);
      && PlayedBy(run.gameMode, players)
      && ReasonStands(run, if r.InvalidRun? then Some(r.reason) else None, players)
      && (r.Ready? ==>
            && r.completed == run.completed && (r.provisional <==> run.completed < 10)
            && |r.participants| == |run.roster|
            && forall p :: 0 <= p < |run.roster| ==>
                 && PlayedAll(BySequence(run.matches), run.roster[p].id)
                 && StatisticsStand(r.participants[p], BySequence(run.matches), run.roster[p], players))
  {
    hide RosterFits, RosterStands, FirstProblem, InOrderBefore, StatisticsStand, AnalyticsOf, PlayedAll;
    if PlayersOf(run.gameMode).Some? {
      var players := PlayersOf(run.gameMode).value;
      RosterStandsIff(run.roster, players);
      NothingBefore(BySequence(run.matches), run.roster, players);
      FirstFault(BySequence(run.matches), run.roster, players, 0);
      if Outcome(run).Ready? { ReadyMeans(run, players); }
    }
  }

  lemma NothingBefore(ms: seq<MatchRecord>, roster: seq<RosterEntry>, players: nat)
    ensures InOrderBefore(ms, roster, players, 0)
  {
  }

  lemma ReadyMeans(run: BenchmarkRun, players: nat)
    requires PlayersOf(run.gameMode) == Some(players) && Outcome(run).Ready?
    ensures var r := Outcome(run);
      && r.completed == run.completed && (r.provisional <==> run.completed < 10)
      && |r.participants| == |run.roster|
      && forall p :: 0 <= p < |run.roster| ==>
           && PlayedAll(BySequence(run.matches), run.roster[p].id)
           && StatisticsStand(r.participants[p], BySequence(run.matches), run.roster[p], players)
  {
    hide RosterFits, StatisticsStand, AnalyticsOf, PlayedAll, MatchFits;
    var ms := BySequence(run.matches);
    EveryoneIsFound(ms, run.roster, players);
    forall p | 0 <= p < |run.roster|
      ensures PlayedAll(ms, run.roster[p].id)
      ensures StatisticsStand(Outcome(run).participants[p], ms, run.roster[p], players)
    {
      StatisticsAreRight(ms, run.roster[p], players);
    }
  }
}
