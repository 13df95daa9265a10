// Positions in the canonical event log: where hands start and end.

module EventLog {
  import opened Domain

  function CountStarts(log: seq<GameEvent>): nat {
    if log == [] then 0 else CountStarts(log[..|log| - 1]) + if log[|log| - 1].StartKyoku? then 1 else 0
  }

  function CountEnds(log: seq<GameEvent>): nat {
    if log == [] then 0 else CountEnds(log[..|log| - 1]) + if log[|log| - 1].EndKyoku? then 1 else 0
  }

  lemma {:induction false} CountsAdd(a: seq<GameEvent>, b: seq<GameEvent>)
    ensures CountStarts(a + b) == CountStarts(a) + CountStarts(b)
    ensures CountEnds(a + b) == CountEnds(a) + CountEnds(b)
    decreases |b|
  {
    if b == [] {
      assert a + b == a;
    } else {
      var front := b[..|b| - 1];
      assert (a + b)[..|a + b| - 1] == a + front;
      CountsAdd(a, front);
    }
  }

  lemma {:induction false} NoEndCountsNone(log: seq<GameEvent>)
    requires EndKyoku !in log
    ensures CountEnds(log) == 0
  {
    if log != [] { NoEndCountsNone(log[..|log| - 1]); }
  }

  /** Hands started, and ended, before position `k`. */
  function StartsBefore(log: seq<GameEvent>, k: nat): nat
    requires k <= |log|
  {
    CountStarts(log[..k])
  }

  function EndsBefore(log: seq<GameEvent>, k: nat): nat
    requires k <= |log|
  {
    CountEnds(log[..k])
  }

  /** What follows a position does not change the counts before it. */
  lemma CountsBeforeStay(log: seq<GameEvent>, more: seq<GameEvent>, k: nat)
    requires k <= |log|
    ensures StartsBefore(log + more, k) == StartsBefore(log, k)
    ensures EndsBefore(log + more, k) == EndsBefore(log, k)
  {
    hide CountStarts, CountEnds;
    assert (log + more)[..k] == log[..k];
  }

  /** Counts before a position of the second part. */
  lemma CountsBeforeJoin(log: seq<GameEvent>, more: seq<GameEvent>, k: nat)
    requires k <= |more|
    ensures StartsBefore(log + more, |log| + k) == CountStarts(log) + StartsBefore(more, k)
    ensures EndsBefore(log + more, |log| + k) == CountEnds(log) + EndsBefore(more, k)
  {
    hide CountStarts, CountEnds;
    assert (log + more)[..|log| + k] == log + more[..k];
    CountsAdd(log, more[..k]);
  }

  /** One event later. */
  lemma CountsAfterOne(log: seq<GameEvent>, k: nat)
    requires k < |log|
    ensures StartsBefore(log, k + 1) == StartsBefore(log, k) + (if log[k].StartKyoku? then 1 else 0)
    ensures EndsBefore(log, k + 1) == EndsBefore(log, k) + (if log[k].EndKyoku? then 1 else 0)
  {
    assert log[..k + 1][..k] == log[..k];
  }

  /** Prefixes only count more the longer they are. */
  lemma CountsGrow(log: seq<GameEvent>, i: nat, k: nat)
    requires i <= k <= |log|
    ensures CountStarts(log[..i]) <= CountStarts(log[..k])
    ensures CountEnds(log[..i]) <= CountEnds(log[..k])
  {
    assert log[..k] == log[..i] + log[i..k];
    CountsAdd(log[..i], log[i..k]);
  }

  /** Where hands start, in order. */
  function StartsOf(log: seq<GameEvent>): (r: seq<nat>)
    ensures |r| == CountStarts(log)
    ensures forall n :: 0 <= n < |r| ==> r[n] < |log| && log[r[n]].StartKyoku?
  {
    if log == [] then []
    else
      StartsOf(log[..|log| - 1]) + if log[|log| - 1].StartKyoku? then [|log| - 1] else []
  }

  /** The n-th start comes before position `k` exactly when more than `n` hands started before `k`. */
  lemma {:induction false} StartBeforeIff(log: seq<GameEvent>, n: nat, k: nat)
    requires n < |StartsOf(log)| && k <= |log|
    ensures StartsOf(log)[n] < k <==> n < StartsBefore(log, k)
    decreases |log|
  {
    var last := |log| - 1;
    var front := log[..last];
    CountsGrow(log, k, |log|);
    assert log[..|log|] == log;
    if k == |log| {
    } else {
      assert front[..k] == log[..k];
      CountsGrow(front, k, |front|);
      assert front[..|front|] == front;
      if n < |StartsOf(front)| {
        StartBeforeIff(front, n, k);
      }
    }
  }

  /** Hands start and end in turn: never two in play, never an end without a start. */
  predicate Alternating(log: seq<GameEvent>) {
    forall k :: 0 <= k <= |log| ==> EndsBefore(log, k) <= StartsBefore(log, k) <= EndsBefore(log, k) + 1
  }

  /** Wins are only announced while a hand is in play. */
  predicate WinsInsideHands(log: seq<GameEvent>) {
    forall k :: 0 <= k < |log| && log[k].Hora? ==> StartsBefore(log, k) == EndsBefore(log, k) + 1
  }
}
