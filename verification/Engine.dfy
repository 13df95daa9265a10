// The producing half: reconcile the captured end of a hand with the real engine, then record it.
// The rules library itself is outside the model; its states and logs are inputs.

module Engine {
  import opened Wrappers
  import opened Checked
  import opened Domain
  import opened WinHands
  import opened Results

  /** The scores and riichi sticks an engine state holds. */
  datatype Snapshot = Snapshot(scores: seq<I32>, pot: U32)

  /** What replaying the last batch on a copy that stops at the end of the hand produced. */
  datatype Capture = Capture(state: Snapshot, done: bool, log: seq<GameEvent>, wins: map<Seat, WinHand>)

  datatype EngineKyokuEnd = EngineKyokuEnd(
    preAction: Snapshot, endedCopy: Snapshot, wins: map<Seat, WinHand>, realAfter: Snapshot)

  // ----- The top seat ------------------------------------------------------------

  /** `seat` has the most points, ties going to the lowest seat. */
  predicate IsTop(scores: seq<I32>, seat: nat) {
    && seat < |scores|
    && forall other :: 0 <= other < |scores| && other != seat ==>
         scores[other] < scores[seat] || (scores[other] == scores[seat] && seat < other)
  }

  /** The seat `max_by_key` picks over (score, reversed seat). */
  function TopSeat(scores: seq<I32>): (top: nat)
    requires scores != []
    ensures IsTop(scores, top)
  {
    if |scores| == 1 then 0
    else
      var front := TopSeat(scores[..|scores| - 1]);
      if scores[|scores| - 1] > scores[front] then |scores| - 1 else front
  }

  lemma TopIsUnique(scores: seq<I32>, a: nat, b: nat)
    requires IsTop(scores, a) && IsTop(scores, b)
    ensures a == b
  {
    assert scores[a] <= scores[b] <= scores[a];
  }

  /** A positive award to the leader leaves the same leader, so the award can be undone. */
  lemma AwardKeepsTop(scores: seq<I32>, award: I32)
    requires scores != [] && award > 0 && CheckedAdd(scores[TopSeat(scores)], award).Some?
    ensures var top := TopSeat(scores);
      TopSeat(scores[top := scores[top] + award]) == top
  {
    var top := TopSeat(scores);
    var awarded := scores[top := scores[top] + award];
    assert IsTop(awarded, top);
    TopIsUnique(awarded, top, TopSeat(awarded));
  }

  // ----- Reconciling the copy with the real engine --------------------------------

  function Terminals(events: seq<GameEvent>): seq<GameEvent> {
    if events == [] then []
    else (if IsTerminal(events[0]) then [events[0]] else []) + Terminals(events[1..])
  }

  function CountHora(events: seq<GameEvent>): nat {
    if events == [] then 0 else (if events[0].Hora? then 1 else 0) + CountHora(events[1..])
  }

  /** The copy's scores after a leftover pot is awarded to its leader. */
  function Awarded(copy: Snapshot): Result<seq<I32>, string>
    requires copy.scores != []
  {
    match PotAward(copy.pot)
    case None => Err("captured pot award overflow")
    case Some(award) =>
      var top := TopSeat(copy.scores);
      match CheckedAdd(copy.scores[top], award)
      case None => Err("captured score award overflow")
      case Some(score) => Ok(copy.scores[top := score])
  }

  /** Whether the match ended here and the engine gave the leftover pot away. */
  predicate PotWasAwarded(copy: Snapshot, actual: Snapshot, done: bool) {
    done && copy.pot > 0 && actual.pot == 0
  }

  /** Accepts a captured hand end only if it explains the real scores and pot. */
  function FinishApply(events: seq<GameEvent>, pre: Snapshot, capture: Capture, actual: Snapshot, done: bool)
    : Result<Option<EngineKyokuEnd>, string>
    requires capture.state.scores != []
  {
    if EndKyoku !in events then Ok(None)
    else if !capture.done || (exists e :: e in capture.log && e.StartKyoku?) then
      Err("capture did not stop at the ended kyoku")
    else if Terminals(events) != Terminals(capture.log) then
      Err("captured terminal events differ from real resolution")
    else if |capture.wins| != CountHora(events) then
      Err("captured results differ from winner count")
    else
      var expected :=
        if PotWasAwarded(capture.state, actual, done) then Awarded(capture.state)
        else if actual.pot != capture.state.pot then Err("captured pot differs from real resolution")
        else Ok(capture.state.scores);
      match expected
      case Err(e) => Err(e)
      case Ok(scores) =>
        if actual.scores != scores then Err("captured scores differ from real")
        else Ok(Some(EngineKyokuEnd(pre, capture.state, capture.wins, actual)))
  }

  // ----- Writing the record ---------------------------------------------------------

  /** What the scan over the hand's last events has found so far. */
  datatype Scan = Scan(wins: seq<WinResult>, drawReason: Option<string>, endEventIndex: Option<nat>)

  function ScanEvent(scan: Scan, e: GameEvent, eventIndex: nat, ended: EngineKyokuEnd, roster: seq<Participant>)
    : Result<Scan, string>
  {
    match e
    case Hora(actor, target, tile, _, _) =>
      if actor !in ended.wins then Err("missing adjudicated winner")
      else if actor >= |roster| then Err("invalid seat")
      else if tile.Some? && tile.value != ended.wins[actor].winningTile then
        Err("winning event tile differs from draw")
      else
        Ok(scan.(wins := scan.wins +
          [WinResult(eventIndex, roster[actor].id, actor, target, actor == target, ended.wins[actor])]))
    case Ryukyoku(reason, _, _, _) =>
      if reason.None? then Err("missing engine draw reason") else Ok(scan.(drawReason := reason))
    case EndKyoku => Ok(scan.(endEventIndex := Some(eventIndex)))
    case _ => Ok(scan)
  }

  /** Scans events from the front; `first` is the journal index of `events[0]`. */
  function ScanEvents(events: seq<GameEvent>, first: nat, ended: EngineKyokuEnd, roster: seq<Participant>)
    : Result<Scan, string>
  {
    if events == [] then Ok(Scan([], None, None))
    else
      var last := |events| - 1;
      match ScanEvents(events[..last], first, ended, roster)
      case Err(e) => Err(e)
      case Ok(scan) => ScanEvent(scan, events[last], first + last, ended, roster)
  }

  /** before, movement and after for one seat; fails if the movement does not fit. */
  function ChangeOf(p: Participant, seat: nat, before: I32, after: I32): Option<ScoreChange> {
    match CheckedSub(after, before)
    case None => None
    case Some(delta) =>
      if seat < 4 then Some(ScoreChange(p.id, seat, before, delta, after)) else None
  }

  function ChangesOf(roster: seq<Participant>, before: seq<I32>, after: seq<I32>): (r: Option<seq<ScoreChange>>)
    requires |roster| == |before| == |after|
    ensures r.Some? ==> |r.value| == |roster|
    ensures r.Some? ==>
      forall i :: 0 <= i < |roster| ==> ChangeOf(roster[i], i, before[i], after[i]) == Some(r.value[i])
  {
    if roster == [] then Some([])
    else
      var last := |roster| - 1;
      match ChangesOf(roster[..last], before[..last], after[..last])
      case None => None
      case Some(changes) =>
        match ChangeOf(roster[last], last, before[last], after[last])
        case None => None
        case Some(change) => Some(changes + [change])
  }

  /** How far the emitted delta of one seat is from its real movement. */
  function AdjustmentOf(emitted: I32, before: I32, after: I32): Option<I32> {
    match CheckedSub(after, before)
    case None => None
    case Some(movement) => CheckedSub(emitted, movement)
  }

  function AdjustmentsOf(emitted: seq<I32>, before: seq<I32>, after: seq<I32>): (r: Option<seq<I32>>)
    requires |emitted| == |before| == |after|
    ensures r.Some? ==> |r.value| == |emitted|
    ensures r.Some? ==>
      forall i :: 0 <= i < |emitted| ==> AdjustmentOf(emitted[i], before[i], after[i]) == Some(r.value[i])
  {
    if emitted == [] then Some([])
    else
      var last := |emitted| - 1;
      match AdjustmentsOf(emitted[..last], before[..last], after[..last])
      case None => None
      case Some(front) =>
        match AdjustmentOf(emitted[last], before[last], after[last])
        case None => None
        case Some(a) => Some(front + [a])
  }

  /** The deltas of every draw event, in order. */
  function DrawDeltas(events: seq<GameEvent>): seq<Option<seq<I32>>> {
    if events == [] then []
    else (if events[0].Ryukyoku? then [events[0].delta] else []) + DrawDeltas(events[1..])
  }

  /** Evidence kept for a draw: its one delta minus the real pre-award movement. */
  function DrawEvidence(events: seq<GameEvent>, ended: EngineKyokuEnd, n: nat): Result<seq<I32>, string>
    requires |ended.preAction.scores| == n
  {
    var deltas := DrawDeltas(events);
    if |deltas| != 1 || deltas[0].None? || |deltas[0].value| != n then
      Err("missing or malformed canonical draw delta")
    else if |ended.endedCopy.scores| != n then Err("captured draw score count differs from roster")
    else
      match AdjustmentsOf(deltas[0].value, ended.preAction.scores, ended.endedCopy.scores)
      case None => Err("draw movement or adjustment overflow")
      case Some(evidence) => Ok(evidence)
  }

  /** The private record of an ended hand; `first` is the journal index of the batch's first event. */
  function RecordOf(ended: EngineKyokuEnd, mode: GameMode, roster: seq<Participant>, sequence: nat, first: nat,
                    events: seq<GameEvent>): Result<KyokuResultRecord, string>
    requires |ended.preAction.scores| == mode.SeatCount()
  {
    if |roster| != mode.SeatCount() || |ended.realAfter.scores| != |roster| then
      Err("result roster size differs from engine")
    else
      match ChangesOf(roster, ended.preAction.scores, ended.realAfter.scores)
      case None => Err("settlement overflow")
      case Some(changes) =>
        match ScanEvents(events, first, ended, roster)
        case Err(e) => Err(e)
        case Ok(scan) =>
          var evidence :=
            if scan.drawReason.None? then Ok(None)
            else match DrawEvidence(events, ended, |roster|)
              case Err(e) => Err(e)
              case Ok(adjustment) => Ok(Some(adjustment));
          match evidence
          case Err(e) => Err(e)
          case Ok(adjustment) =>
            if scan.endEventIndex.None? then Err("missing end kyoku event")
            else
              var record := KyokuResultRecord(1, sequence, mode, scan.endEventIndex.value, scan.wins,
                KyokuSettlement(changes, ended.preAction.pot, ended.realAfter.pot, scan.drawReason), adjustment);
              if RecordValid(record, roster) then Ok(record) else Err("invalid result record")
  }

  /** The recorder as written: one loop over the batch's events, then the evidence. */
  method ResultRecord(ended: EngineKyokuEnd, mode: GameMode, roster: seq<Participant>, sequence: nat, first: nat,
                      events: seq<GameEvent>) returns (r: Result<KyokuResultRecord, string>)
    requires |ended.preAction.scores| == mode.SeatCount()
    ensures r == RecordOf(ended, mode, roster, sequence, first, events)
  {
    hide RecordValid, DrawEvidence, ScanEvent;
    if |roster| != mode.SeatCount() || |ended.realAfter.scores| != |roster| {
      return Err("result roster size differs from engine");
    }
    var changes := ChangesOf(roster, ended.preAction.scores, ended.realAfter.scores);
    if changes.None? { return Err("settlement overflow"); }
    var scan := Scan([], None, None);
    for index := 0 to |events|
      invariant ScanEvents(events[..index], first, ended, roster) == Ok(scan)
    {
      assert events[..index + 1][..index] == events[..index];
      var next := ScanEvent(scan, events[index], first + index, ended, roster);
      if next.Err? {
        ScanFailsAt(events, index + 1, first, ended, roster);
        return Err(next.error);
      }
      scan := next.value;
    }
    assert events[..|events|] == events;
    var adjustment: Option<seq<I32>> := None;
    if scan.drawReason.Some? {
      var evidence := DrawEvidence(events, ended, |roster|);
      if evidence.Err? { return Err(evidence.error); }
      adjustment := Some(evidence.value);
    }
    if scan.endEventIndex.None? { return Err("missing end kyoku event"); }
    var record := KyokuResultRecord(1, sequence, mode, scan.endEventIndex.value, scan.wins,
      KyokuSettlement(changes.value, ended.preAction.pot, ended.realAfter.pot, scan.drawReason), adjustment);
    var valid := ValidateRecord(record, roster);
    return if valid then Ok(record) else Err("invalid result record");
  }

  lemma {:induction false} ScanFailsAt(events: seq<GameEvent>, k: nat, first: nat, ended: EngineKyokuEnd,
                                       roster: seq<Participant>)
    requires k <= |events| && ScanEvents(events[..k], first, ended, roster).Err?
    ensures ScanEvents(events, first, ended, roster) == ScanEvents(events[..k], first, ended, roster)
    decreases |events|
  {
    if k == |events| {
      assert events[..k] == events;
    } else {
      var front := events[..|events| - 1];
      assert front[..k] == events[..k];
      ScanFailsAt(front, k, first, ended, roster);
    }
  }

  // ----- What the record says about the events ---------------------------------------

  /** Win `w` was read off a `Hora` of this batch. */
  predicate WinReads(w: WinResult, events: seq<GameEvent>, first: nat) {
    && first <= w.eventIndex < first + |events|
    && var e := events[w.eventIndex - first];
       e.Hora? && e.actor == w.seat && e.winTarget == w.target
       && (e.winTile.Some? ==> e.winTile.value == w.hand.winningTile)
  }

  predicate EveryHoraRead(wins: seq<WinResult>, events: seq<GameEvent>, first: nat) {
    forall k :: 0 <= k < |events| && events[k].Hora? ==>
      exists i :: 0 <= i < |wins| && wins[i].eventIndex == first + k
  }

  predicate WinsRead(wins: seq<WinResult>, events: seq<GameEvent>, first: nat) {
    forall i :: 0 <= i < |wins| ==> WinReads(wins[i], events, first)
  }

  predicate EndRead(end: Option<nat>, events: seq<GameEvent>, first: nat) {
    match end
    case None => EndKyoku !in events
    case Some(e) =>
      && first <= e < first + |events| && events[e - first].EndKyoku?
      && EndKyoku !in events[e - first + 1..]
  }

  /** The scan reports exactly the wins of the batch and its last `EndKyoku`. */
  lemma {:induction false} ScanMeaning(events: seq<GameEvent>, first: nat, ended: EngineKyokuEnd,
                                       roster: seq<Participant>)
    requires ScanEvents(events, first, ended, roster).Ok?
    ensures var scan := ScanEvents(events, first, ended, roster).value;
      && WinsRead(scan.wins, events, first) && EveryHoraRead(scan.wins, events, first)
      && EndRead(scan.endEventIndex, events, first)
  {
    if events != [] {
      var last := |events| - 1;
      var front := events[..last];
      ScanMeaning(front, first, ended, roster);
      var before := ScanEvents(front, first, ended, roster).value;
      var scan := ScanEvents(events, first, ended, roster).value;
      assert events == front + [events[last]];
      ScanStepMeaning(before, scan, events, first, ended, roster);
    }
  }

  lemma ScanStepMeaning(before: Scan, scan: Scan, events: seq<GameEvent>, first: nat, ended: EngineKyokuEnd,
                        roster: seq<Participant>)
    requires events != []
    requires ScanEvent(before, events[|events| - 1], first + |events| - 1, ended, roster) == Ok(scan)
    requires WinsRead(before.wins, events[..|events| - 1], first)
    requires EveryHoraRead(before.wins, events[..|events| - 1], first)
    requires EndRead(before.endEventIndex, events[..|events| - 1], first)
    ensures WinsRead(scan.wins, events, first) && EveryHoraRead(scan.wins, events, first)
    ensures EndRead(scan.endEventIndex, events, first)
  {
    var last := |events| - 1;
    hide WinsRead, EveryHoraRead, EndRead;
    if events[last].Hora? {
      assert scan.wins[..|before.wins|] == before.wins;
      assert WinReads(scan.wins[|before.wins|], events, first);
    }
    WinsStillRead(before.wins, scan.wins, events, first);
    HoraStillRead(before.wins, scan.wins, events, first);
    EndStepMeaning(before.endEventIndex, scan.endEventIndex, events, first);
  }

  lemma WinsStillRead(before: seq<WinResult>, after: seq<WinResult>, events: seq<GameEvent>, first: nat)
    requires events != [] && WinsRead(before, events[..|events| - 1], first)
    requires after == before
      || (|after| == |before| + 1 && after[..|before|] == before && WinReads(after[|before|], events, first))
    ensures WinsRead(after, events, first)
  {
    forall i | 0 <= i < |before|
      ensures WinReads(before[i], events, first)
    {
      assert WinReads(before[i], events[..|events| - 1], first);
    }
  }

  lemma HoraStillRead(before: seq<WinResult>, after: seq<WinResult>, events: seq<GameEvent>, first: nat)
    requires events != [] && EveryHoraRead(before, events[..|events| - 1], first) && |before| <= |after|
    requires after[..|before|] == before
    requires events[|events| - 1].Hora? ==>
      |after| > |before| && after[|before|].eventIndex == first + |events| - 1
    ensures EveryHoraRead(after, events, first)
  {
    var front := events[..|events| - 1];
    forall k | 0 <= k < |events| && events[k].Hora?
      ensures exists i :: 0 <= i < |after| && after[i].eventIndex == first + k
    {
      if k < |front| {
        assert front[k].Hora?;
        var i :| 0 <= i < |before| && before[i].eventIndex == first + k;
        assert after[i] == before[i];
      }
    }
  }

  lemma EndStepMeaning(before: Option<nat>, after: Option<nat>, events: seq<GameEvent>, first: nat)
    requires events != [] && EndRead(before, events[..|events| - 1], first)
    requires after == if events[|events| - 1].EndKyoku? then Some(first + |events| - 1) else before
    ensures EndRead(after, events, first)
  {
    var last := |events| - 1;
    if events[last].EndKyoku? {
      assert events[last + 1..] == [];
    } else {
      assert events == events[..last] + [events[last]];
      if before.Some? {
        var k := before.value - first;
        assert events[k + 1..] == events[..last][k + 1..] + [events[last]];
      }
    }
  }
}
