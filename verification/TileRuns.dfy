// Tile types in order, and runs of three.

module TileRuns {
  import opened Domain

  predicate Ascending(s: seq<nat>) { forall i, j :: 0 <= i < j < |s| ==> s[i] <= s[j] }

  function Insert(s: seq<nat>, x: nat): (r: seq<nat>)
    ensures |r| == |s| + 1 && multiset(r) == multiset(s) + multiset{x}
  {
    if s == [] || x <= s[0] then [x] + s
    else
      assert s == [s[0]] + s[1..];
      [s[0]] + Insert(s[1..], x)
  }

  function Sorted(s: seq<nat>): (r: seq<nat>)
    ensures |r| == |s| && multiset(r) == multiset(s)
  {
    if s == [] then []
    else
      assert s == [s[0]] + s[1..];
      Insert(Sorted(s[1..]), s[0])
  }

  lemma {:induction false} InsertStaysAbove(s: seq<nat>, x: nat, low: nat)
    requires low <= x && forall i :: 0 <= i < |s| ==> low <= s[i]
    ensures forall i :: 0 <= i < |Insert(s, x)| ==> low <= Insert(s, x)[i]
  {
    if s != [] { InsertStaysAbove(s[1..], x, low); }
  }

  lemma {:induction false} InsertAscends(s: seq<nat>, x: nat)
    requires Ascending(s)
    ensures Ascending(Insert(s, x))
  {
    if s != [] && x > s[0] {
      InsertAscends(s[1..], x);
      InsertStaysAbove(s[1..], x, s[0]);
    }
  }

  lemma {:induction false} SortedAscends(s: seq<nat>)
    ensures Ascending(Sorted(s))
  {
    if s != [] {
      SortedAscends(s[1..]);
      InsertAscends(Sorted(s[1..]), s[0]);
    }
  }

  function TypesOf(tiles: seq<Tile>): (r: seq<nat>)
    ensures |r| == |tiles| && forall i :: 0 <= i < |r| ==> r[i] == TileType(tiles[i])
  {
    seq(|tiles|, i requires 0 <= i < |tiles| => TileType(tiles[i]))
  }

  /** Three types form a run of one suit. */
  ghost predicate SameSuitRun(types: seq<nat>) {
    exists low: nat :: IsRun(types, low) && low / 9 == (low + 2) / 9 && low + 2 < 27
  }

  predicate IsRun(types: seq<nat>, low: nat) { multiset(types) == multiset{low, low + 1, low + 2} }

  lemma SortedTripleIsRun(types: seq<nat>, sorted: seq<nat>)
    requires multiset(types) == multiset(sorted) && |sorted| == 3
    requires sorted[1] == sorted[0] + 1 && sorted[2] == sorted[1] + 1
    ensures IsRun(types, sorted[0])
  {
    assert sorted == [sorted[0], sorted[0] + 1, sorted[0] + 2];
  }

  lemma RunSortsToRun(types: seq<nat>, low: nat)
    requires IsRun(types, low)
    ensures Sorted(types) == [low, low + 1, low + 2]
  {
    hide Sorted;
    var sorted := Sorted(types);
    SortedAscends(types);
    TripleIsRun(sorted, low);
  }

  lemma TripleIsRun(s: seq<nat>, low: nat)
    requires Ascending(s) && multiset(s) == multiset{low, low + 1, low + 2}
    ensures s == [low, low + 1, low + 2]
  {
    assert |multiset(s)| == 3;
    assert s == [s[0], s[1], s[2]];
    assert s[0] in multiset(s) && s[1] in multiset(s) && s[2] in multiset(s);
    assert low in multiset(s) && low + 1 in multiset(s) && low + 2 in multiset(s);
  }

  predicate NumberRun(sorted: seq<nat>) {
    |sorted| == 3 && sorted[1] == sorted[0] + 1 && sorted[2] == sorted[1] + 1 && sorted[2] < 27
  }
}
