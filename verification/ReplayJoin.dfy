// Joining hand records to replay frames: validate everything, preview the joined frames' size,
// then rewrite the frames in place.

module ReplayFrames {
  import opened Wrappers
  import opened Domain
  import opened Results
  import opened Projection

  datatype AuxiliaryPhase = Before | After

  datatype AuxiliaryRecord = AuxiliaryRecord(event: string, lineIndex: nat, phase: AuxiliaryPhase, sequence: nat)

  datatype ReplayFrame = ReplayFrame(
    eventIndex: nat,
    visibleEvent: GameEvent,
    visibleState: AudienceProjection,
    auxiliaryEvents: seq<AuxiliaryRecord>,
    result: Option<WinResult>,
    settlement: Option<KyokuSettlement>)

  datatype ReplayError = ReplayTooLarge | InvalidEvent | Json

  const MAX_REPLAY_EVENTS: nat := 100_000
  const MAX_REPLAY_FRAME_BYTES: nat := 67_108_864

  function LogOf(frames: seq<ReplayFrame>): (log: seq<GameEvent>)
    ensures |log| == |frames| && forall i :: 0 <= i < |log| ==> log[i] == frames[i].visibleEvent
  {
    seq(|frames|, i requires 0 <= i < |frames| => frames[i].visibleEvent)
  }

  /** The bytes of a JSON array of frames: brackets, separators and each frame's own bytes. */
  function EncodedSize(frames: seq<ReplayFrame>, size: ReplayFrame -> nat): nat {
    if frames == [] then 2
    else
      var last := |frames| - 1;
      EncodedSize(frames[..last], size) + (if last > 0 then 1 else 0) + size(frames[last])
  }
}

module ReplayJoin {
  import opened Wrappers
  import opened Domain
  import opened EventLog
  import opened ReplayBoundary
  import opened Results
  import opened WinValues
  import opened Projection
  import opened Settlement
  import opened ReplayFrames

  /** A win's points are what the table pays its winner, now that the dealer is known. */
  predicate PaymentFits(win: WinResult, dealer: Seat) {
    BasicPoints(win.hand.evaluation, win.hand.points, win.seat == dealer) == Some(win.hand.winPoints)
  }

  function ApplySettlement(state: AudienceProjection, settlement: KyokuSettlement): AudienceProjection {
    state.(
      players := seq(|state.players|, i requires 0 <= i < |state.players| =>
        if i < |settlement.changes| then state.players[i].(score := settlement.changes[i].after)
        else state.players[i]),
      kyotaku := Some(settlement.potAfter))
  }

  // ----- What a joined replay looks like ---------------------------------------------------

  function WinAt(wins: seq<WinResult>, i: nat): (r: Option<WinResult>)
    ensures r.Some? ==> r.value in wins && r.value.eventIndex == i
    ensures r.None? ==> forall k :: 0 <= k < |wins| ==> wins[k].eventIndex != i
  {
    if wins == [] then None
    else
      var last := wins[|wins| - 1];
      if last.eventIndex == i then Some(last) else WinAt(wins[..|wins| - 1], i)
  }

  /** Frame `i` of the hand `record` is about: its win, its settlement, and the scores from its end on. */
  function JoinedFrame(f: ReplayFrame, record: KyokuResultRecord, i: nat): ReplayFrame {
    f.(visibleState := if i >= record.endEventIndex then ApplySettlement(f.visibleState, record.settlement)
                       else f.visibleState,
       result := if WinAt(record.wins, i).Some? then WinAt(record.wins, i) else f.result,
       settlement := if i == record.endEventIndex then Some(record.settlement) else f.settlement)
  }

  /** The hand that position `i` belongs to: the last one started by then. */
  function HandOf(log: seq<GameEvent>, i: nat): nat
    requires i < |log| && StartsBefore(log, i + 1) > 0
  {
    StartsBefore(log, i + 1) - 1
  }

  predicate BeforeFirstHand(log: seq<GameEvent>, i: nat)
    requires i < |log|
  {
    StartsBefore(log, i + 1) == 0
  }

  lemma HandExists(log: seq<GameEvent>, i: nat)
    requires i < |log|
    ensures StartsBefore(log, i + 1) <= |StartsOf(log)|
  {
    CountsGrow(log, i + 1, |log|);
    assert log[..|log|] == log;
  }

  function Joined(frames: seq<ReplayFrame>, records: seq<KyokuResultRecord>, i: nat): ReplayFrame
    requires i < |frames| && |records| == |StartsOf(LogOf(frames))|
  {
    var log := LogOf(frames);
    HandExists(log, i);
    if BeforeFirstHand(log, i) then frames[i] else JoinedFrame(frames[i], records[HandOf(log, i)], i)
  }

  function JoinedFrames(frames: seq<ReplayFrame>, records: seq<KyokuResultRecord>): (r: seq<ReplayFrame>)
    requires |records| == |StartsOf(LogOf(frames))|
    ensures |r| == |frames|
  {
    seq(|frames|, i requires 0 <= i < |frames| => Joined(frames, records, i))
  }

  // ----- The preview: lookup tables and a running score state ---------------------------------

  datatype Join = Join(results: map<nat, WinResult>, settlements: map<nat, KyokuSettlement>)

  function AddWins(results: map<nat, WinResult>, wins: seq<WinResult>): map<nat, WinResult> {
    if wins == [] then results
    else
      var last := wins[|wins| - 1];
      AddWins(results, wins[..|wins| - 1])[last.eventIndex := last]
  }

  function JoinOf(records: seq<KyokuResultRecord>): Join {
    if records == [] then Join(map[], map[])
    else
      var before, last := JoinOf(records[..|records| - 1]), records[|records| - 1];
      Join(AddWins(before.results, last.wins), before.settlements[last.endEventIndex := last.settlement])
  }

  /** The settlement whose scores frame `i` is streamed with: dropped at a hand's start, set at an end. */
  function ScoreState(frames: seq<ReplayFrame>, j: Join, i: nat): Option<KyokuSettlement>
    requires i < |frames|
  {
    if i in j.settlements then Some(j.settlements[i])
    else if frames[i].visibleEvent.StartKyoku? then None
    else if i == 0 then None
    else ScoreState(frames, j, i - 1)
  }

  function PreviewFrame(f: ReplayFrame, j: Join, i: nat, scoreState: Option<KyokuSettlement>): ReplayFrame {
    f.(visibleState := if scoreState.Some? then ApplySettlement(f.visibleState, scoreState.value) else f.visibleState,
       result := if i in j.results then Some(j.results[i]) else f.result,
       settlement := if i in j.settlements then Some(j.settlements[i]) else f.settlement)
  }

  // ----- Preview equals commit -------------------------------------------------------------------

  lemma {:induction false} AddWinsFinds(results: map<nat, WinResult>, wins: seq<WinResult>, i: nat)
    ensures i in AddWins(results, wins) <==> WinAt(wins, i).Some? || i in results
    ensures WinAt(wins, i).Some? ==> AddWins(results, wins)[i] == WinAt(wins, i).value
    ensures WinAt(wins, i).None? && i in results ==> AddWins(results, wins)[i] == results[i]
  {
    if wins != [] { AddWinsFinds(results, wins[..|wins| - 1], i); }
  }

  /** Position `i` lies in hand `p`: from its start up to the next one's. */
  predicate InHand(log: seq<GameEvent>, p: nat, i: nat)
    requires p < |StartsOf(log)|
  {
    var starts := StartsOf(log);
    starts[p] <= i < |log| && (p + 1 < |starts| ==> i < starts[p + 1])
  }

  lemma InHandIff(log: seq<GameEvent>, p: nat, i: nat)
    requires p < |StartsOf(log)| && i < |log|
    ensures InHand(log, p, i) <==> StartsBefore(log, i + 1) == p + 1
  {
    hide StartsBefore;
    StartBeforeIff(log, p, i + 1);
    HandExists(log, i);
    if p + 1 < |StartsOf(log)| { StartBeforeIff(log, p + 1, i + 1); }
  }

  lemma HandsAreApart(log: seq<GameEvent>, p: nat, q: nat, i: nat)
    requires p < |StartsOf(log)| && q < |StartsOf(log)| && InHand(log, p, i) && InHand(log, q, i)
    ensures p == q
  {
    hide StartsBefore, InHand;
    assert i < |log| by { InHandInside(log, p, i); }
    InHandIff(log, p, i);
    InHandIff(log, q, i);
  }

  lemma InHandInside(log: seq<GameEvent>, p: nat, i: nat)
    requires p < |StartsOf(log)| && InHand(log, p, i)
    ensures i < |log|
  {
  }

  /** A record's end and wins all lie in its own hand. */
  lemma RecordLiesInItsHand(log: seq<GameEvent>, modes: seq<GameMode>, records: seq<KyokuResultRecord>, p: nat)
    requires RecordsInPlace(log, modes, StartsOf(log), records) && p < |records|
    ensures InHand(log, p, records[p].endEventIndex)
    ensures forall k :: 0 <= k < |records[p].wins| ==> InHand(log, p, records[p].wins[k].eventIndex)
  {
    assert RecordInPlace(log, modes[p], StartsOf(log), records[p], p);
  }

  /** The tables hold, for a position of hand `p`, that hand's win and settlement and nothing else. */
  lemma {:induction false} JoinFinds(log: seq<GameEvent>, modes: seq<GameMode>, records: seq<KyokuResultRecord>,
                                     n: nat, p: nat, i: nat)
    requires RecordsInPlace(log, modes, StartsOf(log), records) && n <= |records| && p < |records| && InHand(log, p, i)
    ensures var j := JoinOf(records[..n]);
      && (i in j.settlements <==> p < n && i == records[p].endEventIndex)
      && (i in j.settlements ==> j.settlements[i] == records[p].settlement)
      && (i in j.results <==> p < n && WinAt(records[p].wins, i).Some?)
      && (i in j.results ==> j.results[i] == WinAt(records[p].wins, i).value)
  {
    hide RecordsInPlace, InHand, StartsOf;
    if n > 0 {
      var q := n - 1;
      assert records[..n][..q] == records[..q] && records[..n][q] == records[q];
      JoinFinds(log, modes, records, q, p, i);
      AddWinsFinds(JoinOf(records[..q]).results, records[q].wins, i);
      OtherHandsMiss(log, modes, records, q, p, i);
    }
  }

  lemma OtherHandsMiss(log: seq<GameEvent>, modes: seq<GameMode>, records: seq<KyokuResultRecord>,
                       q: nat, p: nat, i: nat)
    requires RecordsInPlace(log, modes, StartsOf(log), records)
    requires q < |records| && p < |records| && InHand(log, p, i)
    ensures q != p ==> i != records[q].endEventIndex && WinAt(records[q].wins, i).None?
  {
    hide RecordsInPlace, InHand, StartsOf;
    assert |records| == |StartsOf(log)| by { SameCount(log, modes, records); }
    RecordLiesInItsHand(log, modes, records, q);
    if q != p {
      if i == records[q].endEventIndex { HandsAreApart(log, p, q, i); }
      if WinAt(records[q].wins, i).Some? {
        var k :| 0 <= k < |records[q].wins| && records[q].wins[k].eventIndex == i;
        HandsAreApart(log, p, q, i);
      }
    }
  }

  lemma SameCount(log: seq<GameEvent>, modes: seq<GameMode>, records: seq<KyokuResultRecord>)
    requires RecordsInPlace(log, modes, StartsOf(log), records)
    ensures |records| == |StartsOf(log)|
  {
  }

  /** Before the first hand nothing is joined. */
  lemma {:induction false} NothingBeforeFirst(log: seq<GameEvent>, modes: seq<GameMode>,
                                              records: seq<KyokuResultRecord>, n: nat, i: nat)
    requires RecordsInPlace(log, modes, StartsOf(log), records) && n <= |records|
    requires i < |log| && BeforeFirstHand(log, i)
    ensures i !in JoinOf(records[..n]).settlements && i !in JoinOf(records[..n]).results
  {
    hide RecordsInPlace, StartsBefore;
    if n > 0 {
      var q := n - 1;
      assert records[..n][..q] == records[..q] && records[..n][q] == records[q];
      NothingBeforeFirst(log, modes, records, q, i);
      AddWinsFinds(JoinOf(records[..q]).results, records[q].wins, i);
      SameCount(log, modes, records);
      RecordLiesInItsHand(log, modes, records, q);
      if i == records[q].endEventIndex { InHandIff(log, q, i); }
      if WinAt(records[q].wins, i).Some? {
        var k :| 0 <= k < |records[q].wins| && records[q].wins[k].eventIndex == i;
        InHandIff(log, q, i);
      }
    }
  }

  /** Inside a hand the score state is that hand's settlement from its end on, and nothing before. */
  lemma {:induction false} ScoreStateInHand(frames: seq<ReplayFrame>, modes: seq<GameMode>,
                                            records: seq<KyokuResultRecord>, p: nat, i: nat)
    requires RecordsInPlace(LogOf(frames), modes, StartsOf(LogOf(frames)), records)
    requires p < |records| && InHand(LogOf(frames), p, i)
    ensures ScoreState(frames, JoinOf(records), i) ==
      if i >= records[p].endEventIndex then Some(records[p].settlement) else None
  {
    hide StartsOf, JoinOf, RecordsInPlace;
    var log := LogOf(frames);
    SameCount(log, modes, records);
    assert records[..|records|] == records;
    JoinFinds(log, modes, records, |records|, p, i);
    var start := StartsOf(log)[p];
    EndFollowsStart(log, modes, records, p);
    if i > start {
      assert InHand(log, p, i - 1);
      ScoreStateInHand(frames, modes, records, p, i - 1);
      NoStartInside(log, p, i);
    }
  }

  lemma EndFollowsStart(log: seq<GameEvent>, modes: seq<GameMode>, records: seq<KyokuResultRecord>, p: nat)
    requires RecordsInPlace(log, modes, StartsOf(log), records) && p < |records|
    ensures StartsOf(log)[p] < records[p].endEventIndex < |log|
  {
    assert RecordInPlace(log, modes[p], StartsOf(log), records[p], p);
  }

  /** A hand starts only once. */
  lemma NoStartInside(log: seq<GameEvent>, p: nat, i: nat)
    requires p < |StartsOf(log)| && InHand(log, p, i) && i > StartsOf(log)[p]
    ensures !log[i].StartKyoku?
  {
    hide StartsBefore, StartsOf;
    InHandIff(log, p, i);
    assert InHand(log, p, i - 1);
    InHandIff(log, p, i - 1);
    CountsAfterOne(log, i);
  }

  lemma {:induction false} ScoreStateBeforeFirst(frames: seq<ReplayFrame>, modes: seq<GameMode>,
                                                 records: seq<KyokuResultRecord>, i: nat)
    requires RecordsInPlace(LogOf(frames), modes, StartsOf(LogOf(frames)), records)
    requires i < |frames| && BeforeFirstHand(LogOf(frames), i)
    ensures ScoreState(frames, JoinOf(records), i).None?
  {
    hide StartsOf, JoinOf, RecordsInPlace, StartsBefore;
    var log := LogOf(frames);
    assert records[..|records|] == records;
    NothingBeforeFirst(log, modes, records, |records|, i);
    if i > 0 {
      CountsAfterOne(log, i);
      ScoreStateBeforeFirst(frames, modes, records, i - 1);
    }
  }

  /** The element streamed by the preview at every position is the frame the join will leave there. */
  lemma PreviewIsCommit(frames: seq<ReplayFrame>, modes: seq<GameMode>, records: seq<KyokuResultRecord>, i: nat)
    requires RecordsInPlace(LogOf(frames), modes, StartsOf(LogOf(frames)), records) && i < |frames|
    ensures |records| == |StartsOf(LogOf(frames))|
    ensures PreviewFrame(frames[i], JoinOf(records), i, ScoreState(frames, JoinOf(records), i)) ==
      Joined(frames, records, i)
  {
    hide StartsOf, JoinOf, RecordsInPlace, StartsBefore, ScoreState, InHand;
    var log := LogOf(frames);
    SameCount(log, modes, records);
    HandExists(log, i);
    assert records[..|records|] == records;
    if BeforeFirstHand(log, i) {
      NothingBeforeFirst(log, modes, records, |records|, i);
      ScoreStateBeforeFirst(frames, modes, records, i);
    } else {
      var p := HandOf(log, i);
      InHandIff(log, p, i);
      JoinFinds(log, modes, records, |records|, p, i);
      ScoreStateInHand(frames, modes, records, p, i);
    }
  }

  // ----- Validating the whole join --------------------------------------------------------------

  function RosterOf(changes: seq<ScoreChange>): seq<Participant> {
    seq(|changes|, i requires 0 <= i < |changes| =>
      Participant(changes[i].participantId, "Replay seat", BuiltInBot))
  }

  /** The win recorded at this `Hora` agrees with it. */
  predicate HoraMatches(e: GameEvent, index: nat, wins: seq<WinResult>)
    requires e.Hora?
  {
    exists k :: 0 <= k < |wins| && wins[k].eventIndex == index && wins[k].seat == e.actor
      && wins[k].target == e.winTarget
      && (e.winTile.Some? ==> TileType(e.winTile.value) == TileType(wins[k].hand.winningTile))
  }

  predicate TerminalMatches(e: GameEvent, index: nat, record: KyokuResultRecord)
    requires IsTerminal(e)
  {
    match e
    case Hora(_, _, _, _, _) => HoraMatches(e, index, record.wins)
    case Ryukyoku(reason, _, _, _) => record.wins == [] && reason == record.settlement.drawReason
  }

  predicate TerminalsMatch(log: seq<GameEvent>, terminal: seq<nat>, record: KyokuResultRecord)
    requires TerminalsIn(log, terminal)
  {
    && terminal != []
    && |terminal| == |record.wins| + (if record.wins == [] then 1 else 0)
    && forall i :: 0 <= i < |terminal| ==> TerminalMatches(log[terminal[i]], terminal[i], record)
  }

  /** Everything a record must pass before any frame is touched. */
  predicate RecordJoins(frames: seq<ReplayFrame>, record: KyokuResultRecord, start: nat, finalKyoku: bool)
    requires start < record.endEventIndex < |frames| && frames[start].visibleEvent.StartKyoku?
  {
    var log := LogOf(frames);
    var terminal := TerminalsBetween(log, start + 1, record.endEventIndex);
    && RecordValid(record, RosterOf(record.settlement.changes))
    && frames[start].visibleState.round.Some?
    && (forall k :: 0 <= k < |record.wins| ==>
          PaymentFits(record.wins[k], frames[start].visibleState.round.value.dealer))
    && TerminalsMatch(log, terminal, record)
    && SettlementAccepted(log, start, record.endEventIndex, terminal, record, finalKyoku)
  }

  function ModesAt(frames: seq<ReplayFrame>, starts: seq<nat>): (r: seq<GameMode>)
    requires forall n :: 0 <= n < |starts| ==> starts[n] < |frames|
    ensures |r| == |starts|
    ensures forall n :: 0 <= n < |starts| ==> r[n] == frames[starts[n]].visibleState.mode
  {
    seq(|starts|, n requires 0 <= n < |starts| => frames[starts[n]].visibleState.mode)
  }

  predicate Placed(frames: seq<ReplayFrame>, records: seq<KyokuResultRecord>) {
    var starts := StartsOf(LogOf(frames));
    RecordsInPlace(LogOf(frames), ModesAt(frames, starts), starts, records)
  }

  predicate AllJoin(frames: seq<ReplayFrame>, records: seq<KyokuResultRecord>)
    requires Placed(frames, records)
  {
    forall p :: 0 <= p < |records| ==> RecordJoinsAt(frames, records, p)
  }

  predicate RecordJoinsAt(frames: seq<ReplayFrame>, records: seq<KyokuResultRecord>, p: nat)
    requires Placed(frames, records) && p < |records|
  {
    var starts := StartsOf(LogOf(frames));
    assert RecordInPlace(LogOf(frames), ModesAt(frames, starts)[p], starts, records[p], p);
    RecordJoins(frames, records[p], starts[p], p + 1 == |records|)
  }

  /** The outcome of an attachment, in the order the checks run. */
  function Verdict(frames: seq<ReplayFrame>, records: seq<KyokuResultRecord>, size: ReplayFrame -> nat)
    : Result<(), ReplayError>
  {
    if |frames| > MAX_REPLAY_EVENTS || |records| > MAX_REPLAY_EVENTS then Err(ReplayTooLarge)
    else if !Placed(frames, records) then Err(InvalidEvent)
    else if EncodedSize(JoinedFrames(frames, records), size) > MAX_REPLAY_FRAME_BYTES then Err(ReplayTooLarge)
    else if !AllJoin(frames, records) then Err(InvalidEvent)
    else Ok(())
  }
}
