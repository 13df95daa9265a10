// The attachment as written, over the frame slice it rewrites, and what repeating it does.

module ReplayAttach {
  import opened Wrappers
  import opened Domain
  import opened EventLog
  import opened ReplayBoundary
  import opened Results
  import opened Projection
  import opened Settlement
  import opened SettlementCheck
  import opened ReplayFrames
  import opened ReplayJoin

  method CheckInPlace(log: seq<GameEvent>, mode: GameMode, starts: seq<nat>, record: KyokuResultRecord,
                      position: nat) returns (ok: bool)
    requires position < |starts| && starts[position] < |log|
    ensures ok <==> RecordInPlace(log, mode, starts, record, position)
  {
    var start, end := starts[position], record.endEventIndex;
    if record.kyokuSequence != position + 1 || end <= start || end >= |log|
      || (position + 1 < |starts| && end >= starts[position + 1])
      || !log[end].EndKyoku? || record.mode != mode {
      return false;
    }
    if |record.wins| > end - start - 1
      || (exists k :: 0 <= k < |record.wins| &&
            (record.wins[k].eventIndex <= start || record.wins[k].eventIndex >= end
             || !log[record.wins[k].eventIndex].Hora?))
      || (exists k :: 0 <= k < |record.wins| - 1 &&
            record.wins[k].eventIndex >= record.wins[k + 1].eventIndex) {
      return false;
    }
    return true;
  }

  method CheckPlaced(frames: seq<ReplayFrame>, starts: seq<nat>, records: seq<KyokuResultRecord>) returns (ok: bool)
    requires starts == StartsOf(LogOf(frames))
    ensures ok <==> Placed(frames, records)
  {
    hide RecordInPlace;
    var log := LogOf(frames);
    if |records| != |starts| || records == [] { return false; }
    for position := 0 to |records|
      invariant forall p :: 0 <= p < position ==>
        RecordInPlace(log, ModesAt(frames, starts)[p], starts, records[p], p)
    {
      var mode := frames[starts[position]].visibleState.mode;
      assert mode == ModesAt(frames, starts)[position];
      var ok := CheckInPlace(log, mode, starts, records[position], position);
      if !ok { return false; }
    }
    return true;
  }

  /** The lookup tables the preview reads. */
  method BuildJoin(records: seq<KyokuResultRecord>) returns (j: Join)
    ensures j == JoinOf(records)
  {
    var results: map<nat, WinResult>, settlements: map<nat, KyokuSettlement> := map[], map[];
    for p := 0 to |records|
      invariant Join(results, settlements) == JoinOf(records[..p])
    {
      assert records[..p + 1][..p] == records[..p];
      var record := records[p];
      ghost var before := results;
      for k := 0 to |record.wins|
        invariant results == AddWins(before, record.wins[..k])
      {
        assert record.wins[..k + 1][..k] == record.wins[..k];
        results := results[record.wins[k].eventIndex := record.wins[k]];
      }
      assert record.wins[..|record.wins|] == record.wins;
      settlements := settlements[record.endEventIndex := record.settlement];
    }
    assert records[..|records|] == records;
    return Join(results, settlements);
  }

  /** Every frame as it would look after the join. */
  function Preview(frames: seq<ReplayFrame>, j: Join): (r: seq<ReplayFrame>)
    ensures |r| == |frames|
    ensures forall i :: 0 <= i < |r| ==> r[i] == PreviewFrame(frames[i], j, i, ScoreState(frames, j, i))
  {
    seq(|frames|, i requires 0 <= i < |frames| => PreviewFrame(frames[i], j, i, ScoreState(frames, j, i)))
  }

  lemma OneMoreElement(frames: seq<ReplayFrame>, size: ReplayFrame -> nat, k: nat)
    requires k < |frames|
    ensures EncodedSize(frames[..k + 1], size)
      == EncodedSize(frames[..k], size) + (if k > 0 then 1 else 0) + size(frames[k])
  {
    assert frames[..k + 1][..k] == frames[..k];
  }

  /** Streams the previewed frames and counts the bytes. */
  method PreviewSize(frames: seq<ReplayFrame>, j: Join, size: ReplayFrame -> nat) returns (bytes: nat)
    ensures bytes == EncodedSize(Preview(frames, j), size)
  {
    hide PreviewFrame, EncodedSize, Preview;
    ghost var preview := Preview(frames, j);
    bytes := 2;
    NothingEncoded(preview, size);
    var scoreState: Option<KyokuSettlement> := None;
    for index := 0 to |frames|
      invariant scoreState == if index == 0 then None else ScoreState(frames, j, index - 1)
      invariant bytes == EncodedSize(preview[..index], size)
    {
      if frames[index].visibleEvent.StartKyoku? { scoreState := None; }
      if index in j.settlements { scoreState := Some(j.settlements[index]); }
      var element := PreviewFrame(frames[index], j, index, scoreState);
      OneMoreElement(preview, size, index);
      bytes := bytes + (if index > 0 then 1 else 0) + size(element);
    }
    assert preview[..|frames|] == preview;
  }

  lemma NothingEncoded(frames: seq<ReplayFrame>, size: ReplayFrame -> nat)
    ensures EncodedSize(frames[..0], size) == 2
  {
  }

  method CheckTerminals(log: seq<GameEvent>, terminal: seq<nat>, record: KyokuResultRecord) returns (ok: bool)
    requires TerminalsIn(log, terminal)
    ensures ok <==> TerminalsMatch(log, terminal, record)
  {
    if terminal == [] { return false; }
    if |terminal| != |record.wins| + (if record.wins == [] then 1 else 0) { return false; }
    for i := 0 to |terminal|
      invariant forall k :: 0 <= k < i ==> TerminalMatches(log[terminal[k]], terminal[k], record)
    {
      if !TerminalMatches(log[terminal[i]], terminal[i], record) { return false; }
    }
    return true;
  }

  method CheckRecord(frames: seq<ReplayFrame>, record: KyokuResultRecord, start: nat, finalKyoku: bool)
    returns (ok: bool)
    requires start < record.endEventIndex < |frames| && frames[start].visibleEvent.StartKyoku?
    ensures ok <==> RecordJoins(frames, record, start, finalKyoku)
  {
    hide RecordValid, SettlementAccepted, TerminalsMatch;
    var log := LogOf(frames);
    var terminal := TerminalsBetween(log, start + 1, record.endEventIndex);
    ok := ValidateRecord(record, RosterOf(record.settlement.changes));
    if !ok { return false; }
    if frames[start].visibleState.round.None? { return false; }
    var dealer := frames[start].visibleState.round.value.dealer;
    if exists k :: 0 <= k < |record.wins| && !PaymentFits(record.wins[k], dealer) { return false; }
    ok := CheckTerminals(log, terminal, record);
    if !ok { return false; }
    assert terminal != [] by { MatchedIsNotEmpty(log, terminal, record); }
    ok := ValidateCanonicalSettlement(log, start, record.endEventIndex, terminal, record, finalKyoku);
  }

  lemma MatchedIsNotEmpty(log: seq<GameEvent>, terminal: seq<nat>, record: KyokuResultRecord)
    requires TerminalsIn(log, terminal) && TerminalsMatch(log, terminal, record)
    ensures terminal != []
  {
  }

  /** Shows the settlement in the frames from `end` up to `next`. */
  method CommitSettlement(frames: array<ReplayFrame>, settlement: KyokuSettlement, end: nat, next: nat)
    requires end <= next <= frames.Length
    modifies frames
    ensures forall i :: 0 <= i < frames.Length ==>
      frames[i] == old(frames[i]).(visibleState :=
        if end <= i < next then ApplySettlement(old(frames[i]).visibleState, settlement)
        else old(frames[i]).visibleState)
  {
    hide ApplySettlement;
    for i := end to next
      invariant forall k :: end <= k < i ==>
        frames[k] == old(frames[k]).(visibleState := ApplySettlement(old(frames[k]).visibleState, settlement))
      invariant forall k :: 0 <= k < frames.Length && !(end <= k < i) ==> frames[k] == old(frames[k])
    {
      frames[i] := frames[i].(visibleState := ApplySettlement(frames[i].visibleState, settlement));
    }
  }

  /** Puts every win into the frame of its own event. */
  method CommitWins(frames: array<ReplayFrame>, wins: seq<WinResult>)
    requires forall k :: 0 <= k < |wins| ==> wins[k].eventIndex < frames.Length
    modifies frames
    ensures forall i :: 0 <= i < frames.Length ==>
      frames[i] == old(frames[i]).(result := if WinAt(wins, i).Some? then WinAt(wins, i) else old(frames[i]).result)
  {
    for k := 0 to |wins|
      invariant forall i :: 0 <= i < frames.Length ==>
        frames[i] == old(frames[i]).(result :=
          if WinAt(wins[..k], i).Some? then WinAt(wins[..k], i) else old(frames[i]).result)
    {
      assert wins[..k + 1][..k] == wins[..k];
      var at := wins[k].eventIndex;
      frames[at] := frames[at].(result := Some(wins[k]));
    }
    assert wins[..|wins|] == wins;
  }

  /** Writes one record into its hand's frames, from the end of the hand up to `next`. */
  method CommitRecord(frames: array<ReplayFrame>, record: KyokuResultRecord, start: nat, next: nat)
    requires start < record.endEventIndex < next <= frames.Length
    requires forall k :: 0 <= k < |record.wins| ==> start < record.wins[k].eventIndex < record.endEventIndex
    modifies frames
    ensures forall i :: start <= i < next ==> frames[i] == JoinedFrame(old(frames[i]), record, i)
    ensures forall i :: 0 <= i < frames.Length && !(start <= i < next) ==> frames[i] == old(frames[i])
  {
    hide ApplySettlement;
    var end := record.endEventIndex;
    CommitSettlement(frames, record.settlement, end, next);
    CommitWins(frames, record.wins);
    frames[end] := frames[end].(settlement := Some(record.settlement));
  }

  /** Where hand `p` ends in the frame list: the next hand's start, or the end of the list. */
  function NextStart(starts: seq<nat>, p: nat, length: nat): nat {
    if p + 1 < |starts| then starts[p + 1] else length
  }

  lemma JoinedInHand(frames: seq<ReplayFrame>, modes: seq<GameMode>, records: seq<KyokuResultRecord>, p: nat, i: nat)
    requires RecordsInPlace(LogOf(frames), modes, StartsOf(LogOf(frames)), records) && p < |records|
    requires i < |frames| && StartsOf(LogOf(frames))[p] <= i < NextStart(StartsOf(LogOf(frames)), p, |frames|)
    ensures Joined(frames, records, i) == JoinedFrame(frames[i], records[p], i)
  {
    hide StartsBefore, StartsOf, JoinedFrame;
    var log := LogOf(frames);
    assert InHand(log, p, i);
    InHandIff(log, p, i);
    HandExists(log, i);
  }

  lemma JoinedBeforeFirst(frames: seq<ReplayFrame>, records: seq<KyokuResultRecord>, i: nat)
    requires |records| == |StartsOf(LogOf(frames))| && records != []
    requires i < |frames| && i < StartsOf(LogOf(frames))[0]
    ensures Joined(frames, records, i) == frames[i]
  {
    hide StartsBefore;
    StartBeforeIff(LogOf(frames), 0, i + 1);
    HandExists(LogOf(frames), i);
  }

  /** All frames before `bound` are joined, all others as they were. */
  ghost predicate JoinedUpTo(now: seq<ReplayFrame>, before: seq<ReplayFrame>, records: seq<KyokuResultRecord>,
                             bound: nat)
    requires |records| == |StartsOf(LogOf(before))|
  {
    && |now| == |before|
    && forall i :: 0 <= i < |before| ==> now[i] == if i < bound then Joined(before, records, i) else before[i]
  }

  lemma NothingJoinedYet(before: seq<ReplayFrame>, modes: seq<GameMode>, records: seq<KyokuResultRecord>)
    requires RecordsInPlace(LogOf(before), modes, StartsOf(LogOf(before)), records)
    ensures JoinedUpTo(before, before, records, StartsOf(LogOf(before))[0])
  {
    hide Joined, StartsOf;
    SameCount(LogOf(before), modes, records);
    forall i | 0 <= i < StartsOf(LogOf(before))[0]
      ensures Joined(before, records, i) == before[i]
    {
      JoinedBeforeFirst(before, records, i);
    }
  }

  method CommitAll(frames: array<ReplayFrame>, starts: seq<nat>, records: seq<KyokuResultRecord>)
    requires starts == StartsOf(LogOf(frames[..])) && Placed(frames[..], records)
    modifies frames
    ensures |records| == |starts| && frames[..] == JoinedFrames(old(frames[..]), records)
  {
    hide Joined, JoinedFrame, StartsOf;
    ghost var before := frames[..];
    ghost var modes := ModesAt(before, starts);
    SameCount(LogOf(before), modes, records);
    NothingJoinedYet(before, modes, records);
    for p := 0 to |records|
      invariant JoinedUpTo(frames[..], before, records, if p == |records| then |before| else starts[p])
    {
      var next := if p + 1 < |starts| then starts[p + 1] else frames.Length;
      assert RecordInPlace(LogOf(before), modes[p], starts, records[p], p);
      ghost var now := frames[..];
      CommitRecord(frames, records[p], starts[p], next);
      CommitAdvances(now, frames[..], before, modes, records, p);
    }
    assert frames[..] == JoinedFrames(before, records);
  }

  lemma CommitAdvances(now: seq<ReplayFrame>, after: seq<ReplayFrame>, before: seq<ReplayFrame>, modes: seq<GameMode>,
                       records: seq<KyokuResultRecord>, p: nat)
    requires RecordsInPlace(LogOf(before), modes, StartsOf(LogOf(before)), records) && p < |records|
    requires |now| == |after| == |before|
    requires JoinedUpTo(now, before, records, StartsOf(LogOf(before))[p])
    requires var starts := StartsOf(LogOf(before)); var next := NextStart(starts, p, |before|);
      && starts[p] < next <= |before|
      && (forall i :: starts[p] <= i < next ==> after[i] == JoinedFrame(now[i], records[p], i))
      && (forall i :: 0 <= i < |now| && !(starts[p] <= i < next) ==> after[i] == now[i])
    ensures JoinedUpTo(after, before, records, NextStart(StartsOf(LogOf(before)), p, |before|))
  {
    hide Joined, JoinedFrame, StartsOf, RecordsInPlace;
    SameCount(LogOf(before), modes, records);
    var starts := StartsOf(LogOf(before));
    var next := NextStart(starts, p, |before|);
    forall i | starts[p] <= i < next
      ensures after[i] == Joined(before, records, i)
    {
      JoinedInHand(before, modes, records, p, i);
    }
  }

  // ----- What an attachment shows ----------------------------------------------------------------------

  /** A view from the end of its hand on: the scores and pot after it, and all else as it was. */
  predicate ShowsSettled(before: AudienceProjection, after: AudienceProjection, settlement: KyokuSettlement) {
    && |after.players| == |before.players| && after.kyotaku == Some(settlement.potAfter)
    && (forall k :: 0 <= k < |after.players| && k < |settlement.changes| ==>
          && after.players[k].score == settlement.changes[k].after
          && after.players[k].(score := before.players[k].score) == before.players[k])
    && (forall k :: |settlement.changes| <= k < |after.players| ==> after.players[k] == before.players[k])
    && after.(players := before.players, kyotaku := before.kyotaku) == before
  }

  /** A frame carries the win announced there, and otherwise what it carried. */
  predicate ShowsWin(before: ReplayFrame, after: ReplayFrame, wins: seq<WinResult>, i: nat) {
    && (forall k :: 0 <= k < |wins| && wins[k].eventIndex == i ==> after.result == Some(wins[k]))
    && ((forall k :: 0 <= k < |wins| ==> wins[k].eventIndex != i) ==> after.result == before.result)
  }

  /** Frame `i` of a hand: scores, win and settlement come from its record, each in its place. */
  predicate FrameShows(before: ReplayFrame, after: ReplayFrame, record: KyokuResultRecord, i: nat) {
    && (if i < record.endEventIndex then after.visibleState == before.visibleState
        else ShowsSettled(before.visibleState, after.visibleState, record.settlement))
    && ShowsWin(before, after, record.wins, i)
    && after.settlement == (if i == record.endEventIndex then Some(record.settlement) else before.settlement)
    && after.eventIndex == before.eventIndex && after.visibleEvent == before.visibleEvent
    && after.auxiliaryEvents == before.auxiliaryEvents
  }

  /** Every hand shows its own record, from its start to the next one's; nothing else changes. */
  predicate AttachmentShows(before: seq<ReplayFrame>, after: seq<ReplayFrame>, records: seq<KyokuResultRecord>) {
    var starts := StartsOf(LogOf(before));
    && |after| == |before| && |records| == |starts|
    && (forall p, i :: 0 <= p < |records| && starts[p] <= i < |before| && i < NextStart(starts, p, |before|) ==>
          FrameShows(before[i], after[i], records[p], i))
    && forall i :: 0 <= i < |before| && (starts == [] || i < starts[0]) ==> after[i] == before[i]
  }

  lemma JoinedFrameShows(f: ReplayFrame, record: KyokuResultRecord, i: nat)
    requires forall k, l :: 0 <= k < l < |record.wins| ==> record.wins[k].eventIndex != record.wins[l].eventIndex
    ensures FrameShows(f, JoinedFrame(f, record, i), record, i)
  {
    var after := JoinedFrame(f, record, i);
    if WinAt(record.wins, i).Some? {
      var n :| 0 <= n < |record.wins| && record.wins[n] == WinAt(record.wins, i).value;
      forall k | 0 <= k < |record.wins| && record.wins[k].eventIndex == i
        ensures k == n
      {
      }
    }
  }

  lemma {:induction false} WinsApart(wins: seq<WinResult>, k: nat, l: nat)
    requires k < l < |wins|
    requires forall n :: 0 <= n < |wins| - 1 ==> wins[n].eventIndex < wins[n + 1].eventIndex
    ensures wins[k].eventIndex < wins[l].eventIndex
    decreases l
  {
    if k < l - 1 { WinsApart(wins, k, l - 1); }
  }

  /** What the joined frames show, hand by hand. */
  lemma JoinedShows(frames: seq<ReplayFrame>, records: seq<KyokuResultRecord>)
    requires Placed(frames, records)
    ensures |records| == |StartsOf(LogOf(frames))| && AttachmentShows(frames, JoinedFrames(frames, records), records)
  {
    hide StartsOf, JoinedFrame, FrameShows, Joined;
    var starts := StartsOf(LogOf(frames));
    var modes := ModesAt(frames, starts);
    var after := JoinedFrames(frames, records);
    forall p, i | 0 <= p < |records| && starts[p] <= i < |frames| && i < NextStart(starts, p, |frames|)
      ensures FrameShows(frames[i], after[i], records[p], i)
    {
      assert RecordInPlace(LogOf(frames), modes[p], starts, records[p], p);
      forall k, l | 0 <= k < l < |records[p].wins|
        ensures records[p].wins[k].eventIndex != records[p].wins[l].eventIndex
      {
        WinsApart(records[p].wins, k, l);
      }
      JoinedInHand(frames, modes, records, p, i);
      JoinedFrameShows(frames[i], records[p], i);
    }
    forall i | 0 <= i < |frames| && (starts == [] || i < starts[0])
      ensures after[i] == frames[i]
    {
      JoinedBeforeFirst(frames, records, i);
    }
  }

  /**
   * Validates the whole join before touching a frame. A refused attachment leaves every frame as
   * it was; an accepted one leaves exactly the frames whose size was checked.
   */
  method AttachResultRecords(frames: array<ReplayFrame>, records: seq<KyokuResultRecord>, size: ReplayFrame -> nat)
    returns (r: Result<(), ReplayError>)
    modifies frames
    ensures r == Verdict(old(frames[..]), records, size)
    ensures r.Err? ==> frames[..] == old(frames[..])
    ensures r.Ok? ==> |records| == |StartsOf(LogOf(old(frames[..])))|
    ensures r.Ok? ==> frames[..] == JoinedFrames(old(frames[..]), records)
    ensures r.Ok? ==> AttachmentShows(old(frames[..]), frames[..], records)
  {
    hide AttachmentShows;
    hide StartsOf, JoinOf, RecordJoins, RecordsInPlace, Joined, PreviewFrame, ScoreState;
    if frames.Length > MAX_REPLAY_EVENTS || |records| > MAX_REPLAY_EVENTS { return Err(ReplayTooLarge); }
    var before := frames[..];
    var starts := StartsOf(LogOf(before));
    var placed := CheckPlaced(before, starts, records);
    if !placed { return Err(InvalidEvent); }
    var modes := ModesAt(before, starts);
    var j := BuildJoin(records);
    SameCount(LogOf(before), modes, records);
    var bytes := PreviewSize(before, j, size);
    forall i | 0 <= i < |before|
      ensures PreviewFrame(before[i], j, i, ScoreState(before, j, i)) == Joined(before, records, i)
    {
      PreviewIsCommit(before, modes, records, i);
    }
    assert Preview(before, j) == JoinedFrames(before, records);
    if bytes > MAX_REPLAY_FRAME_BYTES { return Err(ReplayTooLarge); }
    for p := 0 to |records|
      invariant forall q :: 0 <= q < p ==> RecordJoinsAt(before, records, q)
      invariant frames[..] == before
    {
      EndFollowsStart(LogOf(before), modes, records, p);
      var ok := CheckRecord(before, records[p], starts[p], p + 1 == |records|);
      if !ok {
        assert !RecordJoinsAt(before, records, p);
        return Err(InvalidEvent);
      }
    }
    CommitAll(frames, starts, records);
    JoinedShows(before, records);
    return Ok(());
  }

  // ----- Attaching again ---------------------------------------------------------------------------

  lemma JoiningKeepsEvents(frames: seq<ReplayFrame>, records: seq<KyokuResultRecord>)
    requires |records| == |StartsOf(LogOf(frames))|
    ensures LogOf(JoinedFrames(frames, records)) == LogOf(frames)
    ensures forall i :: 0 <= i < |frames| ==>
      && JoinedFrames(frames, records)[i].visibleState.mode == frames[i].visibleState.mode
      && JoinedFrames(frames, records)[i].visibleState.round == frames[i].visibleState.round
  {
    hide StartsOf, StartsBefore;
  }

  lemma ApplyTwice(state: AudienceProjection, settlement: KyokuSettlement)
    ensures ApplySettlement(ApplySettlement(state, settlement), settlement) == ApplySettlement(state, settlement)
  {
  }

  lemma JoinTwiceIsOnce(frames: seq<ReplayFrame>, records: seq<KyokuResultRecord>)
    requires |records| == |StartsOf(LogOf(frames))|
    ensures LogOf(JoinedFrames(frames, records)) == LogOf(frames)
    ensures JoinedFrames(JoinedFrames(frames, records), records) == JoinedFrames(frames, records)
  {
    hide StartsOf, StartsBefore, ApplySettlement;
    JoiningKeepsEvents(frames, records);
    var once := JoinedFrames(frames, records);
    forall i | 0 <= i < |frames|
      ensures Joined(once, records, i) == once[i]
    {
      HandExists(LogOf(frames), i);
      if !BeforeFirstHand(LogOf(frames), i) {
        ApplyTwice(frames[i].visibleState, records[HandOf(LogOf(frames), i)].settlement);
      }
    }
  }

  /** Attaching the same records again succeeds and changes nothing. */
  lemma AttachingTwiceIsOnce(frames: seq<ReplayFrame>, records: seq<KyokuResultRecord>, size: ReplayFrame -> nat)
    requires Verdict(frames, records, size) == Ok(())
    ensures |records| == |StartsOf(LogOf(frames))|
    ensures var joined := JoinedFrames(frames, records);
      && Verdict(joined, records, size) == Ok(())
      && |records| == |StartsOf(LogOf(joined))| && JoinedFrames(joined, records) == joined
  {
    hide StartsOf, StartsBefore, Joined, SettlementAccepted, RecordValid, TerminalsMatch, RecordInPlace;
    JoinTwiceIsOnce(frames, records);
    JoiningKeepsEvents(frames, records);
    var joined, starts := JoinedFrames(frames, records), StartsOf(LogOf(frames));
    assert ModesAt(joined, starts) == ModesAt(frames, starts);
    forall p | 0 <= p < |records|
      ensures RecordJoinsAt(joined, records, p)
    {
      assert RecordJoinsAt(frames, records, p);
      EndFollowsStart(LogOf(frames), ModesAt(frames, starts), records, p);
    }
  }
}
