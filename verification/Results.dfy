// Hand records and final match results, and what the server requires of them.

module Results {
  import opened Wrappers
  import opened Checked
  import opened Domain
  import opened WinHands

  datatype ScoreChange =
    ScoreChange(participantId: string, seat: Seat, before: I32, delta: I32, after: I32)

  datatype KyokuSettlement =
    KyokuSettlement(changes: seq<ScoreChange>, potBefore: U32, potAfter: U32, drawReason: Option<string>)

  datatype WinResult =
    WinResult(eventIndex: nat, winner: string, seat: Seat, target: Seat, tsumo: bool, hand: WinHand)

  datatype KyokuResultRecord = KyokuResultRecord(
    version: nat,
    kyokuSequence: nat,
    mode: GameMode,
    endEventIndex: nat,
    wins: seq<WinResult>,
    settlement: KyokuSettlement,
    drawEventDeltaAdjustment: Option<seq<I32>>)

  datatype PublishedKyokuResults =
    PublishedKyokuResults(kyokuSequence: nat, wins: seq<WinResult>, settlement: Option<KyokuSettlement>)

  datatype MatchPlayerResult = MatchPlayerResult(
    participantId: string, displayName: string, kind: ParticipantKind, seat: Seat, finalScore: I32, rank: nat)

  datatype MatchResult = MatchResult(mode: GameMode, players: seq<MatchPlayerResult>, finalScores: seq<I32>)

  function Afters(s: KyokuSettlement): (r: seq<I32>)
    ensures |r| == |s.changes| && forall i :: 0 <= i < |r| ==> r[i] == s.changes[i].after
  {
    seq(|s.changes|, i requires 0 <= i < |s.changes| => s.changes[i].after)
  }

  function Befores(s: KyokuSettlement): (r: seq<I32>)
    ensures |r| == |s.changes| && forall i :: 0 <= i < |r| ==> r[i] == s.changes[i].before
  {
    seq(|s.changes|, i requires 0 <= i < |s.changes| => s.changes[i].before)
  }

  // ----- A hand record ---------------------------------------------------------

  predicate DistinctIds(roster: seq<Participant>) {
    forall i, j :: 0 <= i < j < |roster| ==> roster[i].id != roster[j].id
  }

  predicate ChangeFits(c: ScoreChange, seat: nat, p: Participant) {
    p.id != "" && c.seat == seat && c.participantId == p.id && c.before + c.delta == c.after
  }

  predicate WinFits(w: WinResult, roster: seq<Participant>, endEventIndex: nat) {
    && w.hand.winPoints != 0
    && w.seat < |roster| && w.target < |roster| && w.winner == roster[w.seat].id
    && w.tsumo == (w.seat == w.target) && w.eventIndex < endEventIndex
  }

  /** Seats, identities and score arithmetic agree with the roster. */
  predicate SettlementFits(changes: seq<ScoreChange>, roster: seq<Participant>) {
    && |changes| == |roster| && DistinctIds(roster)
    && forall i :: 0 <= i < |roster| ==> ChangeFits(changes[i], i, roster[i])
  }

  /** Winners are distinct seats of the roster, in event order. */
  predicate WinsFit(wins: seq<WinResult>, roster: seq<Participant>, endEventIndex: nat) {
    && (forall i :: 0 <= i < |wins| ==> WinFits(wins[i], roster, endEventIndex))
    && forall i, j :: 0 <= i < j < |wins| ==>
         wins[i].seat != wins[j].seat && wins[i].eventIndex < wins[j].eventIndex
  }

  predicate HandsFit(wins: seq<WinResult>, mode: GameMode) {
    forall i :: 0 <= i < |wins| ==> HandFits(wins[i].hand, wins[i].seat, mode, mode.SeatCount())
  }

  /** What a stored hand record promises about its roster, settlement and winners. */
  predicate RecordValid(r: KyokuResultRecord, roster: seq<Participant>) {
    && r.version == 1 && r.kyokuSequence != 0 && |roster| == r.mode.SeatCount()
    && SettlementFits(r.settlement.changes, roster)
    && (r.wins == [] <==> r.settlement.drawReason.Some?)
    && (r.wins == [] <==> r.drawEventDeltaAdjustment.Some?)
    && (r.wins == [] ==> |r.drawEventDeltaAdjustment.value| == |roster|)
    && WinsFit(r.wins, roster, r.endEventIndex) && HandsFit(r.wins, r.mode)
  }

  /** The validator as written: one pass over the seats, one over the wins. */
  method ValidateRecord(r: KyokuResultRecord, roster: seq<Participant>) returns (ok: bool)
    ensures ok <==> RecordValid(r, roster)
  {
    hide SettlementFits, WinsFit, HandsFit;
    if r.version != 1 || r.kyokuSequence == 0 || |roster| != r.mode.SeatCount() { return false; }
    ok := ValidateSettlement(r.settlement.changes, roster);
    if !ok { return false; }
    if (r.wins == []) == r.settlement.drawReason.None? { return false; }
    if r.wins == [] {
      if r.drawEventDeltaAdjustment.None? || |r.drawEventDeltaAdjustment.value| != |roster| { return false; }
    } else if r.drawEventDeltaAdjustment.Some? {
      return false;
    }
    ok := ValidateWins(r.wins, roster, r.endEventIndex, r.mode);
  }

  method ValidateSettlement(changes: seq<ScoreChange>, roster: seq<Participant>) returns (ok: bool)
    ensures ok <==> SettlementFits(changes, roster)
  {
    if |changes| != |roster| { return false; }
    var ids: set<string> := {};
    for i := 0 to |roster|
      invariant ids == set j | 0 <= j < i :: roster[j].id
      invariant forall j, k :: 0 <= j < k < i ==> roster[j].id != roster[k].id
      invariant forall j :: 0 <= j < i ==> ChangeFits(changes[j], j, roster[j])
    {
      var participant := roster[i];
      if participant.id in ids || participant.id == "" { return false; }
      ids := ids + {participant.id};
      var change := changes[i];
      if change.seat != i || change.participantId != participant.id
        || CheckedAdd(change.before, change.delta) != Some(change.after) {
        return false;
      }
    }
    return true;
  }

  method ValidateWins(wins: seq<WinResult>, roster: seq<Participant>, endEventIndex: nat, mode: GameMode)
    returns (ok: bool)
    ensures ok <==> WinsFit(wins, roster, endEventIndex) && HandsFit(wins, mode)
  {
    hide HandFits;
    var winners: set<nat> := {};
    var previous: Option<nat> := None;
    for i := 0 to |wins|
      invariant winners == set j | 0 <= j < i :: wins[j].seat as nat
      invariant previous == if i == 0 then None else Some(wins[i - 1].eventIndex)
      invariant WinsFit(wins[..i], roster, endEventIndex) && HandsFit(wins[..i], mode)
    {
      var win := wins[i];
      assert wins[..i + 1] == wins[..i] + [win];
      if win.seat >= |roster| || win.winner != roster[win.seat].id || win.seat in winners
        || win.target >= |roster| || win.tsumo != (win.seat == win.target)
        || win.eventIndex >= endEventIndex
        || (previous.Some? && win.eventIndex <= previous.value)
        || win.hand.winPoints == 0 {
        return false;
      }
      ok := CheckHand(win.hand, win.seat, mode, mode.SeatCount());
      if !ok { return; }
      winners := winners + {win.seat};
      previous := Some(win.eventIndex);
    }
    assert wins[..|wins|] == wins;
    return true;
  }

  // ----- Final ranks -------------------------------------------------------------

  /** `other` places above `seat`: more points, or as many from a lower seat. */
  predicate Better(scores: seq<I32>, other: nat, seat: nat)
    requires other < |scores| && seat < |scores|
  {
    scores[other] > scores[seat] || (scores[other] == scores[seat] && other < seat)
  }

  function BetterSeats(scores: seq<I32>, seat: nat): set<nat>
    requires seat < |scores|
  {
    set other: nat | other < |scores| && Better(scores, other, seat)
  }

  function RankOf(scores: seq<I32>, seat: nat): nat
    requires seat < |scores|
  {
    1 + |BetterSeats(scores, seat)|
  }

  predicate Whitespace(c: char) {
    var n := c as int;
    || 9 <= n <= 13 || n == 0x20 || n == 0x85 || n == 0xA0 || n == 0x1680 || 0x2000 <= n <= 0x200A
    || n == 0x2028 || n == 0x2029 || n == 0x202F || n == 0x205F || n == 0x3000
  }

  /** Trimming leaves nothing. */
  predicate Blank(name: string) { forall i :: 0 <= i < |name| ==> Whitespace(name[i]) }

  predicate PlayerFits(p: MatchPlayerResult, seat: nat, scores: seq<I32>)
    requires seat < |scores|
  {
    && p.seat == seat && p.participantId != "" && !Blank(p.displayName)
    && p.finalScore == scores[seat] && p.rank == RankOf(scores, seat)
  }

  /** What a final result promises; the ranks are then a permutation of 1..n (see `RanksArePermutation`). */
  predicate ResultValid(r: MatchResult) {
    && |r.players| == |r.finalScores| == r.mode.SeatCount()
    && (forall i :: 0 <= i < |r.players| ==> PlayerFits(r.players[i], i, r.finalScores))
    && (forall i, j :: 0 <= i < j < |r.players| ==> r.players[i].participantId != r.players[j].participantId)
  }

  lemma BetterIsStrictOrder(scores: seq<I32>, a: nat, b: nat)
    requires a < |scores| && b < |scores| && a != b
    ensures Better(scores, a, b) <==> !Better(scores, b, a)
    ensures Better(scores, a, b) ==> BetterSeats(scores, a) < BetterSeats(scores, b)
  {
    if Better(scores, a, b) {
      assert a in BetterSeats(scores, b) && a !in BetterSeats(scores, a);
    }
  }

  lemma {:induction false} ProperSubsetIsSmaller<T>(a: set<T>, b: set<T>)
    requires a < b
    ensures |a| < |b|
  {
    assert b == a + (b - a);
    assert |b| == |a| + |b - a|;
    var x :| x in b - a;
    assert |b - a| > 0;
  }

  function SeatsBelow(n: nat): (r: set<nat>)
    ensures |r| == n && forall s: nat :: s in r <==> s < n
  {
    if n == 0 then {} else SeatsBelow(n - 1) + {n - 1}
  }

  /** Counting gives distinct ranks between 1 and n. */
  lemma RanksArePermutation(scores: seq<I32>)
    ensures forall i :: 0 <= i < |scores| ==> 1 <= RankOf(scores, i) <= |scores|
    ensures forall i, j :: 0 <= i < j < |scores| ==> RankOf(scores, i) != RankOf(scores, j)
  {
    forall i | 0 <= i < |scores|
      ensures RankOf(scores, i) <= |scores|
    {
      assert i !in BetterSeats(scores, i) && i in SeatsBelow(|scores|);
      ProperSubsetIsSmaller(BetterSeats(scores, i), SeatsBelow(|scores|));
    }
    forall i, j | 0 <= i < j < |scores|
      ensures RankOf(scores, i) != RankOf(scores, j)
    {
      BetterIsStrictOrder(scores, i, j);
      BetterIsStrictOrder(scores, j, i);
      if Better(scores, i, j) {
        ProperSubsetIsSmaller(BetterSeats(scores, i), BetterSeats(scores, j));
      } else {
        ProperSubsetIsSmaller(BetterSeats(scores, j), BetterSeats(scores, i));
      }
    }
  }

  /** The validator as written, which also collects ids and ranks in sets. */
  method ValidateResult(r: MatchResult) returns (ok: bool)
    ensures ok <==> ResultValid(r)
  {
    hide BetterSeats, Better, Blank;
    var count := r.mode.SeatCount();
    if |r.players| != count || |r.finalScores| != count { return false; }
    RanksArePermutation(r.finalScores);
    var ids: set<string> := {};
    var ranks: set<nat> := {};
    for seat := 0 to |r.players|
      invariant ids == set j | 0 <= j < seat :: r.players[j].participantId
      invariant ranks == set j | 0 <= j < seat :: r.players[j].rank
      invariant forall j :: 0 <= j < seat ==> PlayerFits(r.players[j], j, r.finalScores)
      invariant forall j, k :: 0 <= j < k < seat ==> r.players[j].participantId != r.players[k].participantId
    {
      var player := r.players[seat];
      if player.seat != seat || player.participantId in ids || player.participantId == ""
        || Blank(player.displayName) || player.finalScore != r.finalScores[seat] {
        return false;
      }
      ids := ids + {player.participantId};
      var rank := CountBetter(r.finalScores, seat);
      if player.rank in ranks || player.rank == 0 || player.rank > count {
        assert player.rank != RankOf(r.finalScores, seat);
        return false;
      }
      ranks := ranks + {player.rank};
      if player.rank != 1 + rank { return false; }
    }
    return true;
  }

  method CountBetter(scores: seq<I32>, seat: nat) returns (n: nat)
    requires seat < |scores|
    ensures n == |BetterSeats(scores, seat)|
  {
    n := 0;
    ghost var counted: set<nat> := {};
    for other := 0 to |scores|
      invariant counted == set o: nat | o < other && Better(scores, o, seat)
      invariant n == |counted|
    {
      if Better(scores, other, seat) {
        n := n + 1;
        counted := counted + {other};
      }
    }
    assert counted == BetterSeats(scores, seat);
  }

  // ----- Building the final result -------------------------------------------------

  function BuiltResult(mode: GameMode, players: seq<Participant>, scores: seq<I32>): MatchResult
    requires |players| == |scores| == mode.SeatCount()
  {
    MatchResult(mode,
      seq(|players|, i requires 0 <= i < |players| =>
        MatchPlayerResult(players[i].id, players[i].displayName, players[i].kind, i, scores[i], RankOf(scores, i))),
      scores)
  }

  /** `order` lists every seat once, best first. */
  predicate RankedOrder(order: seq<nat>, scores: seq<I32>) {
    && |order| == |scores|
    && (forall i :: 0 <= i < |order| ==> order[i] < |scores|)
    && (forall i, j :: 0 <= i < j < |order| ==> order[i] != order[j] && Better(scores, order[i], order[j]))
    && (forall s :: 0 <= s < |scores| ==> s in order)
  }

  lemma {:induction false} PrefixHasDistinctElements(order: seq<nat>, k: nat)
    requires k <= |order|
    requires forall i, j :: 0 <= i < j < |order| ==> order[i] != order[j]
    ensures |set i | 0 <= i < k :: order[i]| == k
  {
    if k > 0 {
      PrefixHasDistinctElements(order, k - 1);
      assert (set i | 0 <= i < k :: order[i]) == (set i | 0 <= i < k - 1 :: order[i]) + {order[k - 1]};
    }
  }

  /** A seat's place in a ranked order is its counted rank. */
  lemma PlaceIsRank(order: seq<nat>, scores: seq<I32>, k: nat)
    requires RankedOrder(order, scores) && k < |order|
    ensures RankOf(scores, order[k]) == k + 1
  {
    PrefixHasDistinctElements(order, k);
    var ahead := set i | 0 <= i < k :: order[i];
    forall s: nat | s < |scores|
      ensures s in ahead <==> Better(scores, s, order[k])
    {
      assert s in order;
      var i :| 0 <= i < |order| && order[i] == s;
      if i < k {
        assert Better(scores, order[i], order[k]);
      } else if i > k {
        assert Better(scores, order[k], order[i]);
        BetterIsStrictOrder(scores, order[k], order[i]);
      }
    }
    assert ahead == BetterSeats(scores, order[k]);
  }

  /** `order` lists the seats below `n` once each, best first. */
  predicate RankedPrefix(order: seq<nat>, scores: seq<I32>, n: nat) {
    && n <= |scores| && |order| == n
    && (forall i :: 0 <= i < |order| ==> order[i] < n)
    && (forall i, j :: 0 <= i < j < |order| ==> order[i] != order[j] && Better(scores, order[i], order[j]))
    && (forall s :: 0 <= s < n ==> s in order)
  }

  lemma InsertKeepsMembers(order: seq<nat>, n: nat, at: nat)
    requires at <= |order| && forall s :: 0 <= s < n ==> s in order
    ensures forall s :: 0 <= s < n + 1 ==> s in order[..at] + [n] + order[at..]
  {
    var after := order[..at] + [n] + order[at..];
    forall s | 0 <= s < n
      ensures s in after
    {
      assert s in order;
      var i :| 0 <= i < |order| && order[i] == s;
      assert if i < at then after[i] == s else after[i + 1] == s;
    }
    assert after[at] == n;
  }

  lemma InsertKeepsRanked(order: seq<nat>, scores: seq<I32>, n: nat, at: nat)
    requires n < |scores| && RankedPrefix(order, scores, n) && at <= |order|
    requires forall i :: 0 <= i < at ==> Better(scores, order[i], n)
    requires at < |order| ==> !Better(scores, order[at], n)
    ensures RankedPrefix(order[..at] + [n] + order[at..], scores, n + 1)
  {
    InsertKeepsMembers(order, n, at);
    forall i | at <= i < |order|
      ensures Better(scores, n, order[i])
    {
      assert i == at || Better(scores, order[at], order[i]);
    }
    forall i, j | 0 <= i < j < |order| + 1
      ensures var after := order[..at] + [n] + order[at..];
        after[i] != after[j] && Better(scores, after[i], after[j])
    {
      var i' := if i < at then i else i - 1;
      var j' := if j < at then j else j - 1;
      if i != at && j != at { assert Better(scores, order[i'], order[j']); }
    }
  }

  /** Sorts the seats by descending score, then seat. */
  method SortSeats(scores: seq<I32>) returns (order: seq<nat>)
    ensures RankedOrder(order, scores)
  {
    order := [];
    for seat := 0 to |scores|
      invariant RankedPrefix(order, scores, seat)
    {
      var at := 0;
      while at < |order| && Better(scores, order[at], seat)
        invariant 0 <= at <= |order|
        invariant forall i :: 0 <= i < at ==> Better(scores, order[i], seat)
      {
        at := at + 1;
      }
      InsertKeepsRanked(order, scores, seat, at);
      order := order[..at] + [seat] + order[at..];
    }
  }

  /** Ranks by sorting; the outcome is the counting rank of every seat. */
  method BuildResult(mode: GameMode, players: seq<Participant>, scores: seq<I32>) returns (r: MatchResult)
    requires |players| == |scores| == mode.SeatCount()
    ensures r == BuiltResult(mode, players, scores)
  {
    var order := SortSeats(scores);
    var ranks := new nat[|order|](_ => 0);
    for place := 0 to |order|
      invariant forall i :: 0 <= i < place ==> ranks[order[i]] == i + 1
    {
      ranks[order[place]] := place + 1;
    }
    var built: seq<MatchPlayerResult> := [];
    ghost var expected := BuiltResult(mode, players, scores).players;
    for seat := 0 to |players|
      invariant built == expected[..seat]
      invariant forall i :: 0 <= i < |order| ==> ranks[order[i]] == i + 1
    {
      assert seat in order;
      ghost var k :| 0 <= k < |order| && order[k] == seat;
      PlaceIsRank(order, scores, k);
      var p := players[seat];
      built := built + [MatchPlayerResult(p.id, p.displayName, p.kind, seat, scores[seat], ranks[seat])];
      assert expected[..seat + 1] == expected[..seat] + [expected[seat]];
    }
    assert expected[..|players|] == expected;
    r := MatchResult(mode, built, scores);
  }

  // ----- Rosters -------------------------------------------------------------------

  /** What the machine demands of a roster before it starts; ids may still be empty. */
  predicate RosterValid(mode: GameMode, players: seq<Participant>) {
    && |players| == mode.SeatCount() && DistinctIds(players)
    && forall i :: 0 <= i < |players| ==> !Blank(players[i].displayName)
  }

  method ValidateParticipants(mode: GameMode, players: seq<Participant>) returns (ok: bool)
    ensures ok <==> RosterValid(mode, players)
  {
    if |players| != mode.SeatCount() { return false; }
    var ids: set<string> := {};
    for i := 0 to |players|
      invariant ids == set j | 0 <= j < i :: players[j].id
      invariant forall j, k :: 0 <= j < k < i ==> players[j].id != players[k].id
      invariant forall j :: 0 <= j < i ==> !Blank(players[j].displayName)
    {
      if Blank(players[i].displayName) { return false; }
      if players[i].id in ids { return false; }
      ids := ids + {players[i].id};
    }
    return true;
  }

  /** A result built for an accepted roster validates exactly when no participant id is empty. */
  lemma BuiltResultValidIff(mode: GameMode, players: seq<Participant>, scores: seq<I32>)
    requires RosterValid(mode, players) && |scores| == |players|
    ensures ResultValid(BuiltResult(mode, players, scores)) <==>
      forall i :: 0 <= i < |players| ==> players[i].id != ""
  {
    var r := BuiltResult(mode, players, scores);
    if ResultValid(r) {
      forall i | 0 <= i < |players|
        ensures players[i].id != ""
      {
        assert PlayerFits(r.players[i], i, scores);
      }
    }
  }

  /** Such a roster exists: one empty id among named players. */
  lemma EmptyIdBreaksTheResult()
    ensures var players :=
        [Participant("", "East", Human), Participant("s", "South", Human), Participant("w", "West", Human)];
      && RosterValid(ThreePlayerRedEast, players)
      && !ResultValid(BuiltResult(ThreePlayerRedEast, players, [35_000, 35_000, 35_000]))
  {
    hide ResultValid, BuiltResult;
    var players := [Participant("", "East", Human), Participant("s", "South", Human), Participant("w", "West", Human)];
    assert !Whitespace(players[0].displayName[0]) && !Whitespace(players[1].displayName[0])
      && !Whitespace(players[2].displayName[0]);
    BuiltResultValidIff(ThreePlayerRedEast, players, [35_000, 35_000, 35_000]);
    assert players[0].id == "";
  }
}
