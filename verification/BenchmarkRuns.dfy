// A benchmark run as the browser receives it: what it must look like, and its matches in order.

module BenchmarkRuns {
  datatype RosterEntry = RosterEntry(id: string, displayName: string, initialSeat: int)

  datatype SeatResult = SeatResult(id: string, seat: int, rank: int, finalScore: int)

  datatype MatchRecord = MatchRecord(sequence: int, id: string, results: seq<SeatResult>)

  datatype BenchmarkRun =
    BenchmarkRun(gameMode: string, completed: int, roster: seq<RosterEntry>, matches: seq<MatchRecord>)

  // ----- What a run must look like ----------------------------------------------------------------

  predicate RosterEntryFits(roster: seq<RosterEntry>, i: nat, players: nat)
    requires i < |roster|
  {
    && roster[i].id != "" && 0 <= roster[i].initialSeat < players
    && forall j :: 0 <= j < i ==> roster[j].id != roster[i].id && roster[j].initialSeat != roster[i].initialSeat
  }

  predicate RosterFits(roster: seq<RosterEntry>, players: nat) {
    |roster| == players && forall i :: 0 <= i < |roster| ==> RosterEntryFits(roster, i, players)
  }

  function RosterIds(roster: seq<RosterEntry>): set<string> { set i | 0 <= i < |roster| :: roster[i].id }

  predicate ResultFits(results: seq<SeatResult>, i: nat, ids: set<string>, players: nat)
    requires i < |results|
  {
    var r := results[i];
    && r.id in ids && 0 <= r.seat < players && 1 <= r.rank <= players
    && forall j :: 0 <= j < i ==> results[j].id != r.id && results[j].seat != r.seat
  }

  predicate ResultsFit(results: seq<SeatResult>, ids: set<string>, players: nat) {
    forall i :: 0 <= i < |results| ==> ResultFits(results, i, ids, players)
  }

  predicate HeaderFits(matches: seq<MatchRecord>, i: nat, players: nat)
    requires i < |matches|
  {
    && matches[i].sequence == i + 1 && matches[i].id != "" && |matches[i].results| == players
    && forall j :: 0 <= j < i ==> matches[j].id != matches[i].id
  }

  predicate MatchFits(matches: seq<MatchRecord>, i: nat, ids: set<string>, players: nat)
    requires i < |matches|
  {
    HeaderFits(matches, i, players) && ResultsFit(matches[i].results, ids, players)
  }

  predicate MatchesFit(matches: seq<MatchRecord>, ids: set<string>, players: nat) {
    forall i :: 0 <= i < |matches| ==> MatchFits(matches, i, ids, players)
  }

  // ----- Matches in sequence ----------------------------------------------------------------------

  predicate InSequence(s: seq<MatchRecord>) { forall i, j :: 0 <= i < j < |s| ==> s[i].sequence <= s[j].sequence }

  function InsertMatch(s: seq<MatchRecord>, m: MatchRecord): (r: seq<MatchRecord>)
    ensures |r| == |s| + 1 && multiset(r) == multiset(s) + multiset{m}
  {
    if s == [] || s[|s| - 1].sequence <= m.sequence then s + [m]
    else
      assert s == s[..|s| - 1] + [s[|s| - 1]];
      InsertMatch(s[..|s| - 1], m) + [s[|s| - 1]]
  }

  /** The matches by sequence number; equal numbers keep their order. */
  function BySequence(s: seq<MatchRecord>): (r: seq<MatchRecord>)
    ensures |r| == |s| && multiset(r) == multiset(s)
  {
    if s == [] then []
    else
      assert s == s[..|s| - 1] + [s[|s| - 1]];
      InsertMatch(BySequence(s[..|s| - 1]), s[|s| - 1])
  }

  lemma {:induction false} InsertKeepsSequence(s: seq<MatchRecord>, m: MatchRecord)
    requires InSequence(s)
    ensures InSequence(InsertMatch(s, m))
  {
    if s != [] && m.sequence < s[|s| - 1].sequence {
      var rest, last := InsertMatch(s[..|s| - 1], m), s[|s| - 1];
      InsertKeepsSequence(s[..|s| - 1], m);
      forall i | 0 <= i < |rest|
        ensures rest[i].sequence <= last.sequence
      {
        assert rest[i] in multiset(rest);
        if rest[i] != m { assert rest[i] in s[..|s| - 1]; }
      }
    }
  }

  lemma {:induction false} BySequenceIsInSequence(s: seq<MatchRecord>)
    ensures InSequence(BySequence(s))
  {
    if s != [] {
      BySequenceIsInSequence(s[..|s| - 1]);
      InsertKeepsSequence(BySequence(s[..|s| - 1]), s[|s| - 1]);
    }
  }

  predicate Numbered(s: seq<MatchRecord>) { forall i :: 0 <= i < |s| ==> s[i].sequence == i + 1 }

  /** Two sequences of one to `n` with the same matches are the same list. */
  lemma NumberedIsUnique(s: seq<MatchRecord>, t: seq<MatchRecord>)
    requires multiset(s) == multiset(t) && Numbered(s) && Numbered(t)
    ensures s == t
  {
    assert |s| == |multiset(s)| == |multiset(t)| == |t|;
    forall i | 0 <= i < |s|
      ensures s[i] == t[i]
    {
      assert s[i] in multiset(t);
      var k :| 0 <= k < |t| && t[k] == s[i];
    }
  }

  /** If any order of the matches numbers them one to `n`, sorting finds it. */
  lemma SortingFindsTheNumbering(s: seq<MatchRecord>, t: seq<MatchRecord>)
    requires multiset(s) == multiset(t) && Numbered(t)
    ensures BySequence(s) == t
  {
    var sorted := BySequence(s);
    BySequenceIsInSequence(s);
    assert |sorted| == |multiset(s)| == |multiset(t)| == |t|;
    NumberingOfSorted(sorted, t);
    NumberedIsUnique(sorted, t);
  }

  lemma {:induction false} NumberingOfSorted(sorted: seq<MatchRecord>, t: seq<MatchRecord>)
    requires InSequence(sorted) && multiset(sorted) == multiset(t) && Numbered(t) && |sorted| == |t|
    ensures Numbered(sorted)
    decreases |t|
  {
    hide Numbered;
    if t == [] {
      NothingNumbered(sorted);
    } else {
      var last := |t| - 1;
      LastIsLargest(sorted, t);
      WithoutLast(sorted);
      WithoutLast(t);
      NumberedFront(t);
      NumberingOfSorted(sorted[..last], t[..last]);
      NumberedBack(sorted, t);
    }
  }

  lemma NothingNumbered(s: seq<MatchRecord>)
    requires s == []
    ensures Numbered(s)
  {
  }

  lemma NumberedFront(t: seq<MatchRecord>)
    requires Numbered(t) && t != []
    ensures Numbered(t[..|t| - 1])
  {
  }

  lemma NumberedBack(sorted: seq<MatchRecord>, t: seq<MatchRecord>)
    requires |sorted| == |t| > 0 && Numbered(sorted[..|t| - 1]) && Numbered(t) && sorted[|t| - 1] == t[|t| - 1]
    ensures Numbered(sorted)
  {
    assert forall i :: 0 <= i < |t| - 1 ==> sorted[i] == sorted[..|t| - 1][i];
  }

  lemma WithoutLast(s: seq<MatchRecord>)
    requires s != []
    ensures multiset(s[..|s| - 1]) == multiset(s) - multiset{s[|s| - 1]}
  {
    assert s == s[..|s| - 1] + [s[|s| - 1]];
  }

  lemma LastIsLargest(sorted: seq<MatchRecord>, t: seq<MatchRecord>)
    requires InSequence(sorted) && multiset(sorted) == multiset(t) && Numbered(t) && |sorted| == |t| > 0
    ensures sorted[|t| - 1] == t[|t| - 1]
  {
    var last := |t| - 1;
    assert sorted[last] in multiset(t);
    var k :| 0 <= k < |t| && t[k] == sorted[last];
    assert t[last] in multiset(sorted);
    var j :| 0 <= j < |sorted| && sorted[j] == t[last];
    assert sorted[j].sequence <= sorted[last].sequence;
  }
}
