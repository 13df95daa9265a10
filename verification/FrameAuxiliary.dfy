// Private side records of a replay, gathered under the timeline position each belongs to.

module FrameAuxiliary {
  import opened Wrappers
  import opened ReplayFrames

  function PhaseKey(p: AuxiliaryPhase): nat { if p.Before? then 0 else 2 }

  /** The order of side records at one position: by phase, then by sequence number. */
  predicate Follows(a: AuxiliaryRecord, b: AuxiliaryRecord) {
    PhaseKey(a.phase) < PhaseKey(b.phase) || (a.phase == b.phase && a.sequence <= b.sequence)
  }

  predicate InOrder(s: seq<AuxiliaryRecord>) { forall i, j :: 0 <= i < j < |s| ==> Follows(s[i], s[j]) }

  function AtLine(records: seq<AuxiliaryRecord>, line: nat): (r: seq<AuxiliaryRecord>)
    ensures forall x <- r :: x.lineIndex == line
  {
    if records == [] then []
    else
      var last := |records| - 1;
      AtLine(records[..last], line) + (if records[last].lineIndex == line then [records[last]] else [])
  }

  /** Puts a record after every one it follows, so equal ones keep the order they came in. */
  function Insert(s: seq<AuxiliaryRecord>, x: AuxiliaryRecord): (r: seq<AuxiliaryRecord>)
    ensures multiset(r) == multiset(s) + multiset{x}
  {
    if s == [] || Follows(s[|s| - 1], x) then s + [x]
    else
      assert s == s[..|s| - 1] + [s[|s| - 1]];
      Insert(s[..|s| - 1], x) + [s[|s| - 1]]
  }

  function Ordered(s: seq<AuxiliaryRecord>): (r: seq<AuxiliaryRecord>)
    ensures multiset(r) == multiset(s)
  {
    if s == [] then []
    else
      assert s == s[..|s| - 1] + [s[|s| - 1]];
      Insert(Ordered(s[..|s| - 1]), s[|s| - 1])
  }

  /** The side records of one position, in order. */
  function AuxiliaryAt(records: seq<AuxiliaryRecord>, line: nat): seq<AuxiliaryRecord> {
    Ordered(AtLine(records, line))
  }

  lemma {:induction false} InsertKeepsOrder(s: seq<AuxiliaryRecord>, x: AuxiliaryRecord)
    requires InOrder(s)
    ensures InOrder(Insert(s, x))
  {
    if s != [] && !Follows(s[|s| - 1], x) {
      var rest, last := Insert(s[..|s| - 1], x), s[|s| - 1];
      InsertKeepsOrder(s[..|s| - 1], x);
      forall i | 0 <= i < |rest|
        ensures Follows(rest[i], last)
      {
        assert rest[i] in multiset(rest);
        if rest[i] != x { assert rest[i] in s[..|s| - 1]; }
      }
    }
  }

  /** Side records come out by phase, then by sequence number. */
  lemma {:induction false} OrderedIsInOrder(s: seq<AuxiliaryRecord>)
    ensures InOrder(Ordered(s))
  {
    if s != [] {
      OrderedIsInOrder(s[..|s| - 1]);
      InsertKeepsOrder(Ordered(s[..|s| - 1]), s[|s| - 1]);
    }
  }

  /** The records that compare equal to a given one, in the order they come. */
  function Peers(s: seq<AuxiliaryRecord>, phase: AuxiliaryPhase, sequence: nat): seq<AuxiliaryRecord> {
    if s == [] then []
    else Peers(s[..|s| - 1], phase, sequence) + Peer(s[|s| - 1], phase, sequence)
  }

  function Peer(x: AuxiliaryRecord, phase: AuxiliaryPhase, n: nat): seq<AuxiliaryRecord> {
    if x.phase == phase && x.sequence == n then [x] else []
  }

  lemma PeersSnoc(s: seq<AuxiliaryRecord>, x: AuxiliaryRecord, phase: AuxiliaryPhase, n: nat)
    ensures Peers(s + [x], phase, n) == Peers(s, phase, n) + Peer(x, phase, n)
  {
    assert (s + [x])[..|s|] == s;
  }

  lemma {:induction false} InsertIsStable(s: seq<AuxiliaryRecord>, x: AuxiliaryRecord, phase: AuxiliaryPhase, n: nat)
    ensures Peers(Insert(s, x), phase, n) == Peers(s, phase, n) + Peer(x, phase, n)
  {
    hide Peers;
    if s == [] || Follows(s[|s| - 1], x) {
      PeersSnoc(s, x, phase, n);
    } else {
      var rest, last := s[..|s| - 1], s[|s| - 1];
      InsertIsStable(rest, x, phase, n);
      PeersSnoc(Insert(rest, x), last, phase, n);
      PeersSnoc(rest, last, phase, n);
      assert s == rest + [last];
      assert Peer(last, phase, n) == [] || Peer(x, phase, n) == [];
    }
  }

  /** The sort is stable: records with the same phase and number keep their arrival order. */
  lemma {:induction false} OrderedIsStable(s: seq<AuxiliaryRecord>, phase: AuxiliaryPhase, n: nat)
    ensures Peers(Ordered(s), phase, n) == Peers(s, phase, n)
  {
    hide Insert, Peers;
    if s == [] {
    } else {
      var rest, last := s[..|s| - 1], s[|s| - 1];
      OrderedIsStable(rest, phase, n);
      InsertIsStable(Ordered(rest), last, phase, n);
      PeersSnoc(rest, last, phase, n);
      assert s == rest + [last];
    }
  }

  predicate InRange(records: seq<AuxiliaryRecord>, lines: nat) {
    forall i :: 0 <= i < |records| ==> records[i].lineIndex < lines
  }

  /** Every record placed at the first so many positions. */
  function UpTo(records: seq<AuxiliaryRecord>, lines: nat): multiset<AuxiliaryRecord> {
    if lines == 0 then multiset{} else UpTo(records, lines - 1) + multiset(AuxiliaryAt(records, lines - 1))
  }

  lemma OneMoreAtLine(records: seq<AuxiliaryRecord>, x: AuxiliaryRecord, line: nat)
    ensures multiset(AuxiliaryAt(records + [x], line))
      == multiset(AuxiliaryAt(records, line)) + if x.lineIndex == line then multiset{x} else multiset{}
  {
    hide Ordered;
    assert (records + [x])[..|records|] == records;
  }

  lemma {:induction false} OneMoreRecord(records: seq<AuxiliaryRecord>, x: AuxiliaryRecord, lines: nat)
    ensures UpTo(records + [x], lines) == UpTo(records, lines) + if x.lineIndex < lines then multiset{x} else multiset{}
  {
    hide AuxiliaryAt;
    if lines > 0 {
      OneMoreRecord(records, x, lines - 1);
      OneMoreAtLine(records, x, lines - 1);
    }
  }

  /** No side record is lost or repeated when they are spread over the timeline. */
  lemma {:induction false} AuxiliaryIsConserved(records: seq<AuxiliaryRecord>, lines: nat)
    requires InRange(records, lines)
    ensures UpTo(records, lines) == multiset(records)
  {
    hide UpTo;
    if records == [] {
      NothingToSpread(lines);
    } else {
      var rest, last := records[..|records| - 1], records[|records| - 1];
      assert rest + [last] == records;
      AuxiliaryIsConserved(rest, lines);
      OneMoreRecord(rest, last, lines);
    }
  }

  lemma {:induction false} NothingToSpread(lines: nat)
    ensures UpTo([], lines) == multiset{}
  {
    if lines > 0 { NothingToSpread(lines - 1); }
  }

  /** The groups hold what came so far for each position. */
  predicate Grouped(byLine: map<nat, seq<AuxiliaryRecord>>, records: seq<AuxiliaryRecord>, lines: nat) {
    forall k :: 0 <= k < lines ==> AtLine(records, k) == if k in byLine then byLine[k] else []
  }

  lemma GroupedOneMore(byLine: map<nat, seq<AuxiliaryRecord>>, records: seq<AuxiliaryRecord>, lines: nat)
    requires records != [] && Grouped(byLine, records[..|records| - 1], lines)
    ensures var last := records[|records| - 1]; var line := last.lineIndex;
      Grouped(byLine[line := (if line in byLine then byLine[line] else []) + [last]], records, lines)
  {
  }

  lemma GroupsOrdered(byLine: map<nat, seq<AuxiliaryRecord>>, records: seq<AuxiliaryRecord>, lines: nat)
    requires Grouped(byLine, records, lines)
    ensures var ordered := map k | k in byLine :: Ordered(byLine[k]);
      forall k :: 0 <= k < lines ==> AuxiliaryAt(records, k) == if k in ordered then ordered[k] else []
  {
    hide Ordered;
    assert Ordered([]) == [] by { NothingOrdered(); }
  }

  lemma NothingGrouped(lines: nat)
    ensures Grouped(map[], [], lines)
  {
  }

  lemma NothingOrdered()
    ensures Ordered([]) == []
  {
  }

  /** Groups the records by position, then orders every group; refuses one beyond the timeline. */
  method GroupAuxiliary(records: seq<AuxiliaryRecord>, lines: nat)
    returns (r: Option<map<nat, seq<AuxiliaryRecord>>>)
    ensures r.Some? <==> InRange(records, lines)
    ensures r.Some? ==> forall k :: 0 <= k < lines ==>
      AuxiliaryAt(records, k) == if k in r.value then r.value[k] else []
  {
    hide AtLine, Ordered, Grouped, AuxiliaryAt;
    var byLine: map<nat, seq<AuxiliaryRecord>> := map[];
    NothingGrouped(lines);
    assert records[..0] == [];
    for i := 0 to |records|
      invariant InRange(records[..i], lines) && Grouped(byLine, records[..i], lines)
    {
      assert records[..i + 1][..i] == records[..i];
      GroupedOneMore(byLine, records[..i + 1], lines);
      var line := records[i].lineIndex;
      if line >= lines { return None; }
      byLine := byLine[line := (if line in byLine then byLine[line] else []) + [records[i]]];
    }
    assert records[..|records|] == records;
    GroupsOrdered(byLine, records, lines);
    byLine := map k | k in byLine :: Ordered(byLine[k]);
    return Some(byLine);
  }

  /** At every position what came before the event stands first, and each phase is in sequence. */
  lemma BeforeStandsFirst(records: seq<AuxiliaryRecord>, line: nat, i: nat, j: nat)
    requires i < j < |AuxiliaryAt(records, line)|
    ensures var a, b := AuxiliaryAt(records, line)[i], AuxiliaryAt(records, line)[j];
      && a.lineIndex == line && b.lineIndex == line && !(a.phase.After? && b.phase.Before?)
      && (a.phase == b.phase ==> a.sequence <= b.sequence)
  {
    hide AtLine, Ordered, Insert;
    OrderedIsInOrder(AtLine(records, line));
    var s := AuxiliaryAt(records, line);
    assert Follows(s[i], s[j]);
    assert s[i] in multiset(s) && s[j] in multiset(s);
    assert multiset(s) == multiset(AtLine(records, line));
    assert s[i] in AtLine(records, line) && s[j] in AtLine(records, line);
  }
}
