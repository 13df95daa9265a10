// Statistics of a benchmark run, over exact numbers: what each participant won, lost and placed.

module BenchmarkAnalytics {
  import opened Wrappers
  import opened Sequences
  import opened BenchmarkRuns

  datatype AnalyticsPoint = AnalyticsPoint(
    sequence: int, matchId: string, net: real, cumulative: real, movingRank: real, movingN: nat)

  datatype ParticipantAnalytics = ParticipantAnalytics(
    participantId: string, displayName: string, averageRank: Option<real>, firstPlaceRate: Option<real>,
    cumulativeNet: real, rankCounts: seq<nat>, points: seq<AnalyticsPoint>)

  datatype Reason =
    | UnsupportedMode | CountMismatch | RosterMismatch | RosterInvalid | MatchesInvalid | ResultsInvalid

  datatype RunAnalytics =
    | Ready(completed: int, provisional: bool, participants: seq<ParticipantAnalytics>)
    | InvalidRun(reason: Reason)

  // ----- What the numbers mean ----------------------------------------------------------------------

  function ScoreTotal(results: seq<SeatResult>): int {
    if results == [] then 0 else ScoreTotal(results[..|results| - 1]) + results[|results| - 1].finalScore
  }

  function ResultOf(m: MatchRecord, id: string): (r: Option<SeatResult>)
    ensures r.Some? ==> r.value in m.results && r.value.id == id
    ensures r.None? ==> forall i :: 0 <= i < |m.results| ==> m.results[i].id != id
  {
    match First(m.results, (r: SeatResult) => r.id == id)
    case None => None
    case Some(k) => Some(m.results[k])
  }

  function MeanScore(m: MatchRecord, players: nat): real
    requires players > 0
  {
    ScoreTotal(m.results) as real / players as real
  }

  /** What a participant gained over the table's mean. */
  function Net(m: MatchRecord, id: string, players: nat): real
    requires ResultOf(m, id).Some? && players > 0
  {
    ResultOf(m, id).value.finalScore as real - MeanScore(m, players)
  }

  predicate PlayedAll(ms: seq<MatchRecord>, id: string) {
    forall i :: 0 <= i < |ms| ==> ResultOf(ms[i], id).Some?
  }

  function NetTotal(ms: seq<MatchRecord>, id: string, players: nat): real
    requires PlayedAll(ms, id) && players > 0
  {
    if ms == [] then 0.0
    else NetTotal(ms[..|ms| - 1], id, players) + Net(ms[|ms| - 1], id, players)
  }

  function RanksOf(ms: seq<MatchRecord>, id: string): (r: seq<int>)
    requires PlayedAll(ms, id)
    ensures |r| == |ms|
  {
    seq(|ms|, i requires 0 <= i < |ms| => ResultOf(ms[i], id).value.rank)
  }

  function Total(ranks: seq<int>): int {
    if ranks == [] then 0 else Total(ranks[..|ranks| - 1]) + ranks[|ranks| - 1]
  }

  function CountOf(ranks: seq<int>, rank: int): nat {
    if ranks == [] then 0
    else CountOf(ranks[..|ranks| - 1], rank) + if ranks[|ranks| - 1] == rank then 1 else 0
  }

  /** The last ten ranks, or all of them while there are fewer. */
  function Trailing(ranks: seq<int>): seq<int> { if |ranks| <= 10 then ranks else ranks[|ranks| - 10..] }

  function Mean(ranks: seq<int>): real
    requires ranks != []
  {
    Total(ranks) as real / |ranks| as real
  }

  function PointAfter(ms: seq<MatchRecord>, id: string, players: nat): AnalyticsPoint
    requires ms != [] && PlayedAll(ms, id) && players > 0
  {
    var m, trailing := ms[|ms| - 1], Trailing(RanksOf(ms, id));
    AnalyticsPoint(m.sequence, m.id, Net(m, id, players), NetTotal(ms, id, players), Mean(trailing), |trailing|)
  }

  /** How often each rank from first to last occurs. */
  function RankCounts(ranks: seq<int>, players: nat): (r: seq<nat>)
    ensures |r| == players
  {
    seq(players, k => CountOf(ranks, k + 1))
  }

  /** One point per match, each from the matches up to it. */
  function PointsOf(ms: seq<MatchRecord>, id: string, players: nat): (r: seq<AnalyticsPoint>)
    requires PlayedAll(ms, id) && players > 0
    ensures |r| == |ms|
  {
    seq(|ms|, k requires 0 <= k < |ms| => PointAfter(ms[..k + 1], id, players))
  }

  function AnalyticsOf(ms: seq<MatchRecord>, who: RosterEntry, players: nat): ParticipantAnalytics
    requires PlayedAll(ms, who.id) && players > 0
  {
    var ranks := RanksOf(ms, who.id);
    ParticipantAnalytics(
      who.id, who.displayName,
      if ms == [] then None else Some(Mean(ranks)),
      if ms == [] then None else Some(CountOf(ranks, 1) as real / |ms| as real),
      NetTotal(ms, who.id, players),
      RankCounts(ranks, players),
      PointsOf(ms, who.id, players))
  }
}
