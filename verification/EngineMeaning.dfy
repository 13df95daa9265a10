// What the producer accepts and writes, in plain figures: reconciling a hand's end, then its record.

module EngineMeaning {
  import opened Wrappers
  import opened Checked
  import opened Domain
  import opened Results
  import opened Engine

  // ----- Reconciling ---------------------------------------------------------------------------------

  /** How often an event occurs in a list. */
  function Times(events: seq<GameEvent>, e: GameEvent): nat { multiset(events)[e] }

  /** The terminal events are kept, each as often as it occurs, and nothing else is. */
  lemma {:induction false} TerminalsAreKept(events: seq<GameEvent>, e: GameEvent)
    ensures Times(Terminals(events), e) == if IsTerminal(e) then Times(events, e) else 0
  {
    if events != [] {
      TerminalsAreKept(events[1..], e);
      assert events == [events[0]] + events[1..];
      var head := if IsTerminal(events[0]) then [events[0]] else [];
      assert multiset(head + Terminals(events[1..])) == multiset(head) + multiset(Terminals(events[1..]));
    }
  }

  /** And in the order they came. */
  lemma {:induction false} TerminalsAppend(a: seq<GameEvent>, b: seq<GameEvent>)
    ensures Terminals(a + b) == Terminals(a) + Terminals(b)
  {
    hide IsTerminal;
    if a == [] {
      assert a + b == b;
    } else {
      assert (a + b)[1..] == a[1..] + b;
      TerminalsAppend(a[1..], b);
      var head, rest := if IsTerminal(a[0]) then [a[0]] else [], Terminals(a[1..]);
      assert head + (rest + Terminals(b)) == head + rest + Terminals(b);
    }
  }

  /** How many wins a batch announces. */
  function WinsAnnounced(events: seq<GameEvent>): nat {
    if events == [] then 0
    else WinsAnnounced(events[..|events| - 1]) + if events[|events| - 1].Hora? then 1 else 0
  }

  lemma {:induction false} HoraAdd(a: seq<GameEvent>, b: seq<GameEvent>)
    ensures CountHora(a + b) == CountHora(a) + CountHora(b)
  {
    if a == [] {
      assert a + b == b;
    } else {
      assert (a + b)[1..] == a[1..] + b;
      HoraAdd(a[1..], b);
    }
  }

  lemma {:induction false} HoraAreCounted(events: seq<GameEvent>)
    ensures CountHora(events) == WinsAnnounced(events)
  {
    if events != [] {
      var front, last := events[..|events| - 1], events[|events| - 1];
      HoraAreCounted(front);
      HoraAdd(front, [last]);
      assert events == front + [last] && [last][1..] == [];
      assert CountHora([last]) == if last.Hora? then 1 else 0;
    }
  }

  /** The leader of the copy gets the sticks, and that is how the real hand ended. */
  predicate SticksGoTo(copy: Snapshot, actual: Snapshot, top: nat) {
    && IsTop(copy.scores, top) && 1000 * copy.pot < 0x8000_0000
    && copy.scores[top] + 1000 * copy.pot < 0x8000_0000
    && actual.scores == copy.scores[top := copy.scores[top] + 1000 * copy.pot]
  }

  /** The copy explains the real end: the same, or the match is over and its leader got the sticks. */
  predicate CopyExplains(copy: Snapshot, actual: Snapshot, done: bool) {
    if done && copy.pot > 0 && actual.pot == 0 then
      exists top :: 0 <= top < |copy.scores| && SticksGoTo(copy, actual, top)
    else actual == copy
  }

  lemma ExplainsIff(copy: Snapshot, actual: Snapshot, done: bool)
    requires copy.scores != []
    ensures CopyExplains(copy, actual, done) <==>
      if PotWasAwarded(copy, actual, done) then Awarded(copy) == Ok(actual.scores)
      else actual.pot == copy.pot && actual.scores == copy.scores
  {
    var top := TopSeat(copy.scores);
    if exists other :: 0 <= other < |copy.scores| && SticksGoTo(copy, actual, other) {
      var other :| 0 <= other < |copy.scores| && SticksGoTo(copy, actual, other);
      TopIsUnique(copy.scores, top, other);
    }
    if Awarded(copy) == Ok(actual.scores) { assert SticksGoTo(copy, actual, top); }
  }

  /**
   * A hand end is taken exactly when the copy stopped at it, saw the same wins or draw, has a result
   * for every winner, and explains the real scores and sticks; nothing is taken without an end.
   */
  lemma TakenIff(events: seq<GameEvent>, pre: Snapshot, capture: Capture, actual: Snapshot, done: bool)
    requires capture.state.scores != []
    ensures var r := FinishApply(events, pre, capture, actual, done);
      && (r == Ok(None) <==> EndKyoku !in events)
      && (EndKyoku in events ==>
            (r.Ok? <==>
              && capture.done && (forall k :: 0 <= k < |capture.log| ==> !capture.log[k].StartKyoku?)
              && Terminals(events) == Terminals(capture.log)
              && |capture.wins| == WinsAnnounced(events)
              && CopyExplains(capture.state, actual, done)))
      && (r.Ok? && r.value.Some? ==>
            r.value.value == EngineKyokuEnd(pre, capture.state, capture.wins, actual))
  {
    hide Terminals, CountHora, CopyExplains, Awarded, TopSeat;
    HoraAreCounted(events);
    ExplainsIff(capture.state, actual, done);
  }

  // ----- Writing the record ----------------------------------------------------------------------------

  /** What the recorder needs of an event: a winner it has a hand for, a draw with a reason. */
  predicate Readable(e: GameEvent, ended: EngineKyokuEnd, roster: seq<Participant>) {
    match e
    case Hora(actor, _, tile, _, _) =>
      && actor in ended.wins && actor < |roster|
      && (tile.Some? ==> tile.value == ended.wins[actor].winningTile)
    case Ryukyoku(reason, _, _, _) => reason.Some?
    case _ => true
  }

  lemma {:induction false} ScannedIff(events: seq<GameEvent>, first: nat, ended: EngineKyokuEnd,
                                      roster: seq<Participant>)
    ensures ScanEvents(events, first, ended, roster).Ok? <==>
      forall k :: 0 <= k < |events| ==> Readable(events[k], ended, roster)
  {
    if events != [] {
      var last := |events| - 1;
      ScannedIff(events[..last], first, ended, roster);
      assert forall k :: 0 <= k < last ==> events[..last][k] == events[k];
      if forall k :: 0 <= k < last ==> Readable(events[..last][k], ended, roster) {
        LastScannedIff(events, first, ended, roster);
      } else {
        var k :| 0 <= k < last && !Readable(events[..last][k], ended, roster);
        assert !Readable(events[k], ended, roster);
      }
    }
  }

  lemma LastScannedIff(events: seq<GameEvent>, first: nat, ended: EngineKyokuEnd, roster: seq<Participant>)
    requires events != [] && ScanEvents(events[..|events| - 1], first, ended, roster).Ok?
    ensures ScanEvents(events, first, ended, roster).Ok? <==> Readable(events[|events| - 1], ended, roster)
  {
  }

  /** A recorded win is its event, with the winner's name from the roster and the engine's hand. */
  predicate WinWritten(w: WinResult, e: GameEvent, index: nat, ended: EngineKyokuEnd, roster: seq<Participant>) {
    && e.Hora? && w.eventIndex == index && w.seat == e.actor && w.target == e.winTarget
    && (w.tsumo <==> e.actor == e.winTarget)
    && e.actor < |roster| && w.winner == roster[e.actor].id
    && e.actor in ended.wins && w.hand == ended.wins[e.actor]
  }

  /** The wins are those of the batch, one for one and in order. */
  predicate WinsWritten(wins: seq<WinResult>, events: seq<GameEvent>, first: nat, ended: EngineKyokuEnd,
                        roster: seq<Participant>)
    decreases |events|
  {
    if events == [] then wins == []
    else
      var last := |events| - 1;
      if events[last].Hora? then
        && wins != [] && WinWritten(wins[|wins| - 1], events[last], first + last, ended, roster)
        && WinsWritten(wins[..|wins| - 1], events[..last], first, ended, roster)
      else WinsWritten(wins, events[..last], first, ended, roster)
  }

  lemma {:induction false} ScanWrites(events: seq<GameEvent>, first: nat, ended: EngineKyokuEnd,
                                      roster: seq<Participant>)
    requires ScanEvents(events, first, ended, roster).Ok?
    ensures WinsWritten(ScanEvents(events, first, ended, roster).value.wins, events, first, ended, roster)
  {
    if events != [] {
      var last := |events| - 1;
      ScanWrites(events[..last], first, ended, roster);
      var wins := ScanEvents(events, first, ended, roster).value.wins;
      if events[last].Hora? {
        var before := ScanEvents(events[..last], first, ended, roster).value.wins;
        assert wins[..|wins| - 1] == before;
      }
    }
  }

  /** A seat's line in the settlement. */
  predicate ChangeWritten(c: ScoreChange, p: Participant, seat: nat, before: I32, after: I32) {
    && c.participantId == p.id && c.seat == seat && c.before == before && c.after == after
    && c.delta == after - before
  }

  lemma {:induction false} ChangesWritten(roster: seq<Participant>, before: seq<I32>, after: seq<I32>)
    requires |roster| == |before| == |after| <= 4
    ensures ChangesOf(roster, before, after).Some? <==>
      forall i :: 0 <= i < |roster| ==> -0x8000_0000 <= after[i] - before[i] < 0x8000_0000
    ensures ChangesOf(roster, before, after).Some? ==>
      forall i :: 0 <= i < |roster| ==>
        ChangeWritten(ChangesOf(roster, before, after).value[i], roster[i], i, before[i], after[i])
  {
    if roster != [] {
      var last := |roster| - 1;
      ChangesWritten(roster[..last], before[..last], after[..last]);
      assert forall i :: 0 <= i < last ==> after[..last][i] == after[i] && before[..last][i] == before[i];
      if forall i :: 0 <= i < last ==> -0x8000_0000 <= after[i] - before[i] < 0x8000_0000 {
        assert ChangesOf(roster[..last], before[..last], after[..last]).Some?;
      } else {
        var i :| 0 <= i < last && !(-0x8000_0000 <= after[i] - before[i] < 0x8000_0000);
        assert !(-0x8000_0000 <= after[..last][i] - before[..last][i] < 0x8000_0000);
      }
    }
  }

  /** A draw's evidence: what its emitted delta says beyond the copy's real movement, seat by seat. */
  predicate EvidenceWritten(evidence: seq<int>, emitted: seq<int>, before: seq<int>, copy: seq<int>) {
    && |evidence| == |emitted| == |before| == |copy|
    && forall i :: 0 <= i < |evidence| ==> emitted[i] - (copy[i] - before[i]) == evidence[i]
  }

  lemma EvidenceIs(emitted: seq<I32>, before: seq<I32>, copy: seq<I32>)
    requires |emitted| == |before| == |copy| && AdjustmentsOf(emitted, before, copy).Some?
    ensures EvidenceWritten(AdjustmentsOf(emitted, before, copy).value, emitted, before, copy)
  {
    hide AdjustmentsOf;
    var evidence: seq<int>, emits: seq<int> := AdjustmentsOf(emitted, before, copy).value, emitted;
    var befores: seq<int>, copies: seq<int> := before, copy;
    forall i | 0 <= i < |evidence|
      ensures emits[i] - (copies[i] - befores[i]) == evidence[i]
    {
      assert AdjustmentOf(emitted[i], before[i], copy[i]) == Some(AdjustmentsOf(emitted, before, copy).value[i]);
    }
  }

  /**
   * The record of a hand: its number and mode, a line per seat from the state before the last action
   * to the real one, both pots, its wins as the batch announced them, and for a draw its reason and
   * evidence. Every event of the batch could be read.
   */
  lemma RecordWritten(ended: EngineKyokuEnd, mode: GameMode, roster: seq<Participant>, sequence: nat, first: nat,
                      events: seq<GameEvent>)
    requires |ended.preAction.scores| == mode.SeatCount()
    requires RecordOf(ended, mode, roster, sequence, first, events).Ok?
    ensures var r := RecordOf(ended, mode, roster, sequence, first, events).value;
      && (forall k :: 0 <= k < |events| ==> Readable(events[k], ended, roster))
      && r.version == 1 && r.kyokuSequence == sequence && r.mode == mode
      && |r.settlement.changes| == |roster| == |ended.realAfter.scores| == mode.SeatCount()
      && (forall i :: 0 <= i < |roster| ==>
            ChangeWritten(r.settlement.changes[i], roster[i], i, ended.preAction.scores[i], ended.realAfter.scores[i]))
      && r.settlement.potBefore == ended.preAction.pot && r.settlement.potAfter == ended.realAfter.pot
      && WinsWritten(r.wins, events, first, ended, roster)
      && (r.settlement.drawReason.None? ==> r.drawEventDeltaAdjustment.None?)
      && (r.settlement.drawReason.Some? ==>
            && r.drawEventDeltaAdjustment.Some? && |DrawDeltas(events)| == 1 && DrawDeltas(events)[0].Some?
            && EvidenceWritten(r.drawEventDeltaAdjustment.value, DrawDeltas(events)[0].value,
                               ended.preAction.scores, ended.endedCopy.scores))
      && EndRead(Some(r.endEventIndex), events, first)
  {
    hide ScanEvents, ChangesOf, RecordValid, DrawDeltas, AdjustmentsOf, WinsWritten, EndRead, EvidenceWritten;
    hide Readable, ChangeWritten, WinsRead, EveryHoraRead;
    ScannedIff(events, first, ended, roster);
    ScanWrites(events, first, ended, roster);
    ScanMeaning(events, first, ended, roster);
    ChangesWritten(roster, ended.preAction.scores, ended.realAfter.scores);
    var deltas := DrawDeltas(events);
    if |deltas| == 1 && deltas[0].Some? && |deltas[0].value| == |roster| && |ended.endedCopy.scores| == |roster|
      && AdjustmentsOf(deltas[0].value, ended.preAction.scores, ended.endedCopy.scores).Some? {
      EvidenceIs(deltas[0].value, ended.preAction.scores, ended.endedCopy.scores);
    }
  }

  /** The deltas collected are the draws' own, one per draw event, in order. */
  lemma {:induction false} DeltaOfTheDraw(events: seq<GameEvent>, k: nat)
    requires k < |events| && events[k].Ryukyoku?
    requires forall l :: 0 <= l < |events| && l != k ==> !events[l].Ryukyoku?
    ensures DrawDeltas(events) == [events[k].delta]
  {
    if k == 0 {
      NoDrawsNoDeltas(events[1..]);
    } else {
      assert events[1..][k - 1] == events[k];
      DeltaOfTheDraw(events[1..], k - 1);
    }
  }

  lemma {:induction false} NoDrawsNoDeltas(events: seq<GameEvent>)
    requires forall l :: 0 <= l < |events| ==> !events[l].Ryukyoku?
    ensures DrawDeltas(events) == []
  {
    if events != [] { NoDrawsNoDeltas(events[1..]); }
  }

  /** The top seat has the most points, and more than every seat before it. */
  lemma TopMeans(scores: seq<I32>, seat: nat)
    ensures IsTop(scores, seat) <==>
      && seat < |scores|
      && (forall other :: 0 <= other < |scores| ==> scores[other] <= scores[seat])
      && forall other :: 0 <= other < seat ==> scores[other] < scores[seat]
  {
  }
}
