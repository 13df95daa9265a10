# Double Riichi: verified model

This project models the parts of the Double Riichi match server that keep a match honest, and
proves what they promise. Verify it with `dafny verify dfyconfig.toml`.

## What is modelled

* **Decisions** (`Decision*.dfy`). A window asks several seats at once; each answers before its own
  deadline or takes its default. Sound over any history, resolved at most once, and independent of
  the order of answers.
* **The match machine** (`MatchSpec`, `MatchMachine`, `MatchRuns`, `Publication`, `RecordAlignment`,
  `RecordTerminals`, `ReplayOfRun`, `WindowOpening`, `Takeovers`, `MatchOutcomes`, `Clocks`,
  `Freshness`). It journals what the
  engine reports, holds a finished hand back while its results are shown step by step, and runs
  seats, clocks and ids. Its operations are specified on a value, the class is proved to follow that
  specification in place, and the run theorems quantify over every list of public calls and every
  engine reply.
* **Results and views** (`Results`, `WinHands`, `WinValues`, `RecordChecks`, `Projection`, `Views`,
  `Engine`, `EngineMeaning`). Ranks, record validation, what an audience may see, and how a finished
  hand becomes a settlement record.
* **Settlement and the replay join** (`Settlement*`, `WinSettlements`, `DrawSettlements`, `WinFigures`,
  `Conservation`, `ReplayJoin`, `ReplayAttach`).
  The replay side re-derives scores and pot from the log, accepts or refuses the records, previews
  the joined frames and then commits them.
* **The replay fold and its size limit** (`ReplayFold*`, `ReplayHands`, `TileRuns`,
  `ReplayMachine`, `FrameBytes`, `FrameAuxiliary`, `FrameBuilder`, `FrameMeaning`).
* **Kernels** (`CivilDates`, `FilenameTimestamps`, `Ogg*`, `Benchmark*`).

The rules engine is an outside party: what it replies (events, legal actions, captured scores and
pot, a done flag) is an input of each call, for all possible replies. The only assumptions made of
it are written as preconditions, and where a theorem needs more (hands start and end in turn, wins
happen inside hands) it says so.

## What the proofs brought to light

* A called sequence is checked for three consecutive number tiles only. The clause meant to keep it
  in one suit compares the first tile's suit with itself, so 8 and 9 of characters with 1 of circles
  pass (`ChiAcrossSuitsIsAccepted`, `FoldTakesChiAcrossSuits`); the exact condition is
  `AcceptedChiIsOneSuitIff`. The check on stored results does look at the suit
  (`AcceptedSequenceIff`).
* Looking at a match can abort it. `ProjectionAbortsIff` gives the guard: a window has to be opened
  and the engine fails to list a seat's actions or lists none that is safe, or no hand is held and
  the engine cannot show its table. A completed match is lost that way too
  (`LookingCanLoseACompletedMatch`); a held hand never is (`HeldHandIsNeverLost`).
* A final result built for an accepted roster can fail its own validation: the roster check does not
  look at empty ids (`BuiltResultValidIff`, for instance `EmptyIdBreaksTheResult`).
* For winning hands the validator carries code for a leftover pot's award. Such an award is only ever
  due when there are no wins, so that code decides nothing (`WinsLeaveNoAward`).
* The producer and the validator of draws agree only when the log supports the capture:
  `DrawsAgree` gives the exact condition, for instance that at most one riichi deposit came after
  the captured state, directly before the draw, and that it still fits its seat's score;
  `LateDrawIsRefused` is a recorded draw that is refused. `WinsAgree` is the same for wins.
* Reordering a benchmark run's matches never changes what is derived or whether it is accepted, but
  it can change the reason of a refusal (`ReasonDependsOnOrder`). `OutcomeIgnoresOrderIff` says
  exactly when; distinct sequence numbers rule it out (`NumberedApartIsOrderFree`).
* Replay file names sort in time order only before the year 10000 (`OrderHoldsIff`).

## Model

| member | source | states |
|---|---|---|
| DecisionProofs.SubmitSucceedsIff | crates/double_riichi_core/src/decision.rs:558-611 | a submission is accepted if and only if the window is open, the seat is asked, still silent and not past its deadline, and the action id is one of its own; on success exactly that answer is stored |
| DecisionProofs.ResolveClosesIff | crates/double_riichi_core/src/decision.rs:613-643 | a timeout resolves an open window if and only if every silent seat is past its deadline, and closes it only then |
| DecisionProofs.Liveness | crates/double_riichi_core/src/decision.rs:613-643 | if every seat has a deadline, a timeout at or after the latest one always closes the window, and each silent seat's answer is its default |
| DecisionProofs.StepKeeps | crates/double_riichi_core/src/decision.rs:502-643 | every submit, retime or timeout keeps each answer legal, the window closed exactly when all have answered, and answers unchanged |
| DecisionProofs.StepResolvesIffCloses | crates/double_riichi_core/src/decision.rs:558-671 | a step returns a resolution exactly when it closes the window, and the resolution lists the stored answers, so the lookups behind it cannot fail |
| DecisionProofs.AtMostOneResolution | crates/double_riichi_core/src/decision.rs:502-671 | over any mix of submissions, timeouts and retimings at most one resolution is ever returned, and it is what the window still stores at the end |
| DecisionProofs.OrderDoesNotMatter | crates/double_riichi_core/src/decision.rs:558-671 | for a fixed legal choice per seat, every order of in-time submissions is answered Accepted until the last, which returns the one resolution |
| DecisionProofs.AnyTwoOrdersAgree | crates/double_riichi_core/src/decision.rs:558-671 | two orders, even at different times, end in the same state and the same last reply |
| DecisionProofs.DefaultIsTheSafest | crates/double_riichi_core/src/decision.rs:674-696 | a seat has a default if and only if it can pass or discard; it is a pass if offered, else the drawn tile's discard, else a discard |
| DecisionProofs.RefusalMeans | crates/double_riichi_core/src/decision.rs:558-596 | every refusal states its reason: window closed, seat not asked, seat out of time, seat already answered, or an id not on offer, in that order, and changes nothing |
| DecisionProofs.StaleIsRefused | crates/double_riichi_core/src/decision.rs:598-611 | a submission naming another window is refused for that alone, whatever else is wrong with it |
| DecisionProofs.ShownClockIsCommon | crates/double_riichi_core/src/decision.rs:526-548 | the window shows a deadline, duration and watchdog if and only if all its seats are on that one clock |
| DecisionSpec.OpenDecisionSound | crates/double_riichi_core/src/decision.rs:346-385 | a freshly opened window has a legal default for every seat, no answers, and one shown clock only if all seats share it |
| DecisionSpec.RetimeKeeps | crates/double_riichi_core/src/decision.rs:502-548 | retiming a seat keeps every offer, default and answer, and the window open or closed; the shown clock stays the seats' common one |
| DecisionSpec.RecomputeTimingIdempotent | crates/double_riichi_core/src/decision.rs:526-548 | recomputing the shown clock twice is recomputing it once |
| DecisionWindow.Decision.FromActionIdsWithTimings | crates/double_riichi_core/src/decision.rs:346-385 | opens every seat in offer order, or fails with the first seat without a safe default |
| DecisionWindow.Decision.RecomputeTimingInPlace | crates/double_riichi_core/src/decision.rs:526-548 | the window shows a clock only while every entry is on that clock |
| DecisionWindow.Decision.Retime | crates/double_riichi_core/src/decision.rs:502-516 | rewrites one entry's clock in place, exactly as specified |
| DecisionWindow.Decision.SubmitAt | crates/double_riichi_core/src/decision.rs:558-596 | the checks in the program's order, each with its error; on success only the seat's answer and the closed flag change |
| DecisionWindow.Decision.SubmitForDecision | crates/double_riichi_core/src/decision.rs:598-611 | refuses another decision's id before anything else |
| DecisionWindow.Decision.Resolve | crates/double_riichi_core/src/decision.rs:613-643 | silent seats past their deadline take their default in place; resolves exactly when that answers everyone |
| DecisionWindow.Decision.TimeOutSilentSeats | crates/double_riichi_core/src/decision.rs:619-634 | the loop over entries: exactly the silent, overdue seats take their default, and some seat is returned only if there was one |
| Results.ValidateRecord | crates/double_riichi_core/src/results.rs:165-321 | accepts a record if and only if its roster, settlement, draw reason, draw evidence and winners fit together |
| Results.ValidateSettlement | crates/double_riichi_core/src/results.rs:174-186 | the pass over the seats: ids distinct and not empty, each change is its seat's own, and before plus movement is after |
| Results.ValidateWins | crates/double_riichi_core/src/results.rs:197-318 | the pass over the wins: accepts if and only if every completed hand fits, the winners are distinct seats of the roster with their own ids, and event positions strictly increase below the end |
| WinHands.CheckHand | crates/double_riichi_core/src/results.rs:199-318 | a completed hand passes if and only if its size, tiles, winning tile and melds are in order, no physical tile occurs twice, its yaku add up to its evaluation and its points are the score table's for one of the two roles |
| WinValues.CheckValues | crates/double_riichi_core/src/results.rs:283-312 | the checked loop over the yaku: passes if and only if every value suits the evaluation, no step overflows, every name is known, and the sum is the evaluation's and not zero |
| WinValues.YakuTotalIff | crates/double_riichi_core/src/results.rs:283-297 | the checked sum is the plain one, and fails exactly for a yaku of the wrong kind or a total beyond 32 bits |
| WinValues.AcceptedWinIsWorth | crates/double_riichi_core/src/results.rs:129-155 | an accepted ordinary win's yaku add up to exactly its han, with a fu value that occurs; a stated mangan means fu times 2^(han+2) over 2000 with four han at most, or five han, haneman six or seven, baiman eight to ten, sanbaiman eleven or twelve, counted yakuman thirteen or more; an accepted yakuman's multiples add up to its own, nineteen at the most |
| WinValues.LimitsGrow | crates/double_riichi_core/src/results.rs:25-44 | more han, or more of the fu that occur, never reaches a lower limit |
| WinValues.StatedLimitIff | crates/double_riichi_core/src/results.rs:129-155 | and conversely: a win that states a limit is looked up if and only if exactly that limit is due by those figures |
| WinValues.LimitIsUnique | crates/double_riichi_core/src/results.rs:25-44 | no han and fu reach two limits |
| WinValues.UnstatedLimitPasses | crates/double_riichi_core/src/results.rs:129-155 | a win that states no limit is looked up whenever it has han and a fu value that occurs |
| WinHands.CheckDistinct | crates/double_riichi_core/src/results.rs:238-246 | the pass that fills a set finds a repeated tile exactly when there is one |
| WinHands.CheckMeld | crates/double_riichi_core/src/results.rs:247-275 | a meld passes if and only if its size, types, source seat and called tile fit its kind |
| WinHands.AcceptedHandCounts | crates/double_riichi_core/src/results.rs:199-276 | an accepted hand is fourteen tiles plus one per kan, with at most four of any type |
| WinHands.AcceptedSequenceIff | crates/double_riichi_core/src/results.rs:257-263 | here a claimed sequence passes if and only if the table has four players and its types, in any order, are a run of one suit |
| RecordChecks.HandFitsIff | crates/double_riichi_core/src/results.rs:199-318 | in plain terms, both directions: what an accepted hand's tiles, winning tile, melds, yaku and points must be |
| RecordChecks.RecordValidIff | crates/double_riichi_core/src/results.rs:165-321 | in plain terms, both directions: when a stored record stands against its roster |
| RecordChecks.PaymentIff | crates/double_riichi_core/src/results.rs:157-163 | the amount won is the dealer's if the winner is the dealer and the others' if not |
| Results.ValidateResult | crates/double_riichi_core/src/results.rs:323-356 | accepts a final result if and only if seats and scores agree, ids are distinct and not empty, names not blank, and every rank is the count of better seats plus one |
| Results.RanksArePermutation | crates/double_riichi_core/src/results.rs:323-356 | the counting ranks are a permutation of 1 to n, ties going to the lower seat |
| Results.PlaceIsRank | crates/double_riichi_core/src/match_machine.rs:845-872 | a seat's place in any best-first order is its counting rank: sorting refines counting |
| Results.SortSeats | crates/double_riichi_core/src/match_machine.rs:845-858 | orders the seats by falling score, then seat, each exactly once |
| Results.BuildResult | crates/double_riichi_core/src/match_machine.rs:845-872 | the result built by sorting carries every seat's counting rank |
| Results.BuiltResultValidIff | crates/double_riichi_core/src/match_machine.rs:885-909 | a result built for an accepted roster validates if and only if no participant id is empty, which the roster check does not look at |
| Results.EmptyIdBreaksTheResult | crates/double_riichi_core/src/match_machine.rs:885-909 | a roster of three named players, one of them with an empty id, is accepted and its built result is not valid |
| Results.ValidateParticipants | crates/double_riichi_core/src/match_machine.rs:885-909 | accepts exactly the rosters of the mode's size with distinct ids and names that are not blank |
| RecordChecks.RosterValidIff | crates/double_riichi_core/src/match_machine.rs:885-909 | in plain terms: four or three seats as the mode says, ids pairwise different, a character that is not white space in every name |
| RecordChecks.ResultValidIff | crates/double_riichi_core/src/results.rs:323-356 | in plain terms: every seat's line stands, its rank one more than the number of seats placed ahead of it |
| Projection.ViewsAgreeIff | crates/double_riichi_core/src/projection.rs:352-426 | two tables look the same to an audience if and only if they agree on everything public, on the hands and closed melds that audience may see, and on its part of the open decision |
| Projection.WindowViewsAgreeIff | crates/double_riichi_core/src/projection.rs:485-537 | two open decisions look the same if and only if they agree on what the audience is shown: its own offers while it is silent, the bare window, or everything in a replay |
| Projection.AnswersStayHidden | crates/double_riichi_core/src/projection.rs:485-537 | another seat's submission, accepted or refused, changes nothing of what a player or spectator is shown of the decision |
| Projection.SeatsLookAlikeIff | crates/double_riichi_core/src/projection.rs:439-483 | the same for one seat: a hidden hand shows only its size, a hidden closed meld only that it is there |
| Projection.ShownClockRuns | crates/double_riichi_core/src/projection.rs:485-537 | whoever looks, the remaining time shown plus now is the deadline while that lies ahead, and zero afterwards; a player sees its own seat's clock, everyone else the common one |
| Views.TableViewShows | crates/double_riichi_core/src/projection.rs:352-483 | part by part: what each audience is shown of mode, round, sticks, indicators, seats, hands and melds |
| Views.WindowViewShows | crates/double_riichi_core/src/projection.rs:485-537 | a silent player sees its own offers in order, a spectator no offers, a replay every seat's offers and answers |
| Views.ProjectionShows | crates/double_riichi_core/src/match_machine.rs:531-558 | a projection shows the held hand's table while one is held and the engine's otherwise, with the window of a running match, and results of a held hand only |
| Engine.TopSeat | crates/double_riichi_core/src/engine.rs:516-538 | the seat with the most points, ties to the lowest seat |
| Engine.TopIsUnique | crates/double_riichi_core/src/engine.rs:516-538 | exactly one seat is the top seat |
| EngineMeaning.TopMeans | crates/double_riichi_core/src/engine.rs:516-538 | nobody has more points than the top seat, and nobody before it as many |
| EngineMeaning.TakenIff | crates/double_riichi_core/src/engine.rs:434-550 | a hand's end is taken from the engine if and only if the copy stopped at it, saw the same wins or draw in the same order, has a result for every winner, and its scores and pot become the real ones, with the pot awarded where the match is done |
| EngineMeaning.RecordWritten | crates/double_riichi_core/src/engine.rs:552-919 | what every field of a written record is: each seat's line from the state before the last action to the real one, both pots, each win as its own event announced it, and for a draw its reason and the emitted delta less the captured change |
| Engine.AwardKeepsTop | crates/double_riichi_core/src/engine.rs:516-538 | a positive award to the top seat leaves the same top seat, so it can be found again and undone |
| Engine.ScanMeaning | crates/double_riichi_core/src/engine.rs:592-600 | a batch's scan finds each win at its own journal position and the last end of hand |
| Engine.ResultRecord | crates/double_riichi_core/src/engine.rs:552-919 | the recording loop yields exactly the specified record, or fails where a checked step fails |
| EventLog.StartBeforeIff | crates/double_riichi_replay/src/frames.rs:614-620 | the n-th hand start lies before a position if and only if more than n hands started by then |
| MatchRuns.StepIsTheCall | crates/double_riichi_core/src/match_machine.rs:234-558 | a step of a run is the machine's own operation with the engine's replies as inputs, listing legal actions and projecting included |
| MatchRuns.StepKeepsInv | crates/double_riichi_core/src/match_machine.rs:234-726 | every public call, listing legal actions and projecting included, keeps the journal partition, the held hand's order and the settled end |
| MatchRuns.StartInv | crates/double_riichi_core/src/match_machine.rs:763-805 | a new machine satisfies them |
| MatchRuns.RunKeepsInv | crates/double_riichi_core/src/match_machine.rs:234-726 | in every reachable state: events plus held terminal plus held future events are the whole journal in order; the counter is its length; the initial deal, drained and pending persistence events are the same journal; while a hand is held no decision is open |
| MatchRuns.HoldingKeeps | crates/double_riichi_core/src/match_machine.rs:593-705 | holding a hand back publishes only what precedes its first terminal event and loses nothing |
| MatchRuns.FinishingKeeps | crates/double_riichi_core/src/match_machine.rs:565-726 | an engine reply is recorded, held or turned into an abort, and each keeps the partition |
| MatchRuns.PublishKeeps | crates/double_riichi_core/src/match_machine.rs:238-262 | publishing a step keeps the partition; the terminal events move to the public log on the last step only |
| MatchRuns.ReleaseKeeps | crates/double_riichi_core/src/match_machine.rs:264-278 | releasing moves the rest of the batch to the public log and settles the match if it was over |
| Publication.HeldHandIsNeverLost | crates/double_riichi_core/src/match_machine.rs:234-558 | a held hand survives every call but its own release, and nothing aborts the match meanwhile: no failing engine reply is reached while it is held |
| Publication.HeldHandShowsInTwoParts | crates/double_riichi_core/src/match_machine.rs:238-278 | the public log grows by the terminal events on the settlement step and by the rest on release, and by nothing else while a hand is held |
| Publication.StepsGoOutInOrder | crates/double_riichi_core/src/match_machine.rs:238-262 | a publish call succeeds if and only if it names the next step, so the successful steps are 0, 1, ..., number of wins |
| Publication.EveryAudienceSeesTheStage | crates/double_riichi_core/src/match_machine.rs:531-558 | while a hand is held a projection succeeds, changes nothing, and shows every audience a prefix of the wins on the scores and pot from before the hand, and all of them on the settled scores and pot from the settlement step on |
| WindowOpening.OpeningAbortsIff | crates/double_riichi_core/src/match_machine.rs:398-460 | asking for the open decision aborts a match if and only if it is running, holds nothing, has no window open, and the engine fails to list some seat's actions or lists actions without a pass or discard |
| Publication.ProjectionAbortsIff | crates/double_riichi_core/src/match_machine.rs:531-558 | looking at a match aborts it if and only if a window has to be opened and the engine strands some seat so, or no hand is held and the engine cannot show its table |
| Publication.LookingCanLoseACompletedMatch | crates/double_riichi_core/src/match_machine.rs:531-558 | a completed match is aborted by any projection the engine cannot answer |
| Publication.WaitingAnswersStayHidden | crates/double_riichi_core/src/match_machine.rs:470-558 | after a submission that leaves others to answer, every projection for anyone but that seat and the replay reader is what it was before |
| Publication.PublicationGrows | crates/double_riichi_core/src/match_machine.rs:224-262 | what has been shown of a hand stays shown |
| Publication.CompletedMatchEndsSettled | crates/double_riichi_core/src/match_machine.rs:264-278 | a completed match's final scores are its last settlement's, and its result validates |
| RecordAlignment.RunKeepsPoints | crates/double_riichi_core/src/match_machine.rs:593-618 | whatever the calls, record number i points at the i-th end of a hand in the full journal and each of its wins at a win of that hand |
| RecordAlignment.RecordsLineUpWithTheJournal | crates/double_riichi_replay/src/frames.rs:621-658 | if the engine alternates hand starts and ends, the records of any run carry 1, 2, 3, ... and pass every boundary check of the replay join |
| RecordAlignment.NewRecordPoints | crates/double_riichi_core/src/engine.rs:856-858 | a record's end and win positions are journal positions, counted from the batch's first event |
| RecordChecks.PlacedIff | crates/double_riichi_replay/src/frames.rs:621-658 | in plain terms, both directions: one record per hand, each numbered, of its hand's mode, ending at its hand's end, its wins at wins of that hand and in order |
| ReplayOfRun.RunsRecordsFitItsReplay | crates/double_riichi_replay/src/frames.rs:621-658 | end to end: if the timeline of a run's own journal can be built and every started hand has ended, the run's records pass every boundary check |
| ReplayOfRun.RunsRecordsJoinIff | crates/double_riichi_replay/src/frames.rs:607-766 | and where every hand's end is announced in the batch that ends it, the attachment of those records succeeds if and only if the joined frames are small enough and each record's points and settlement agree with the log |
| ReplayOfRun.FoldedLogAlternates | crates/double_riichi_replay/src/frames.rs:159-364 | a log that folds alternates hand starts and ends, and everything but starts and ends of games and hands happens inside a hand |
| ReplayOfRun.ToldMatches | crates/double_riichi_replay/src/frames.rs:702-741 | such a record's wins or draw and the terminal events of its hand match one to one |
| RecordTerminals.RecordOfTells | crates/double_riichi_core/src/engine.rs:594-835 | a record agrees with every win and draw of its batch, and one without wins is of a single draw |
| RecordTerminals.RunKeepsTold | crates/double_riichi_core/src/match_machine.rs:593-618 | over every run each record agrees with the terminal events of its own hand in the full journal, and validates against the roster it brings along |
| ReplayOfRun.FramesShowTheLog | crates/double_riichi_replay/src/frames.rs:504-562 | a timeline shows its log event by event, under its mode |
| Clocks.ReachableIsClocked | crates/double_riichi_core/src/match_machine.rs:308-531 | in every state reachable from a new match, under no time limit an interactive human in the open window has a deadline and the watchdog flag exactly while disconnected; temporary automatic play implies disconnected |
| Clocks.RunIsClocked | crates/double_riichi_core/src/match_machine.rs:308-531 | any run from a state that is so stays so |
| Clocks.StepIsClocked | crates/double_riichi_core/src/match_machine.rs:308-531 | every call keeps that |
| Clocks.DisconnectIsClocked | crates/double_riichi_core/src/match_machine.rs:308-323 | leaving keeps every clock right: the seat that left is put on the watchdog |
| Clocks.ReconnectIsClocked | crates/double_riichi_core/src/match_machine.rs:325-355 | coming back keeps every clock right, whether or not the seat had been taken over |
| Clocks.FreshWindowIsClocked | crates/double_riichi_core/src/match_machine.rs:728-761 | under no time limit a new window opens with the clock every seat's state calls for |
| Clocks.RepeatedDisconnectIsNothing | crates/double_riichi_core/src/match_machine.rs:308-323 | a repeated disconnect changes nothing, so it never extends a deadline |
| Clocks.PermanentAutoLasts | crates/double_riichi_core/src/match_machine.rs:325-362 | a seat left to the computer for good stays so over every run |
| Clocks.PermanentAutoIsAbsorbing | crates/double_riichi_core/src/match_machine.rs:325-362 | no single call takes it back |
| Freshness.DecisionNamesDiffer | crates/double_riichi_core/src/match_machine.rs:398-430 | no two decision counters print alike |
| Freshness.ReachableIsIssued | crates/double_riichi_core/src/match_machine.rs:398-430 | in every reachable state the open window's decision id and action ids lie below the two counters |
| Freshness.RunStaysFresh | crates/double_riichi_core/src/match_machine.rs:288-489 | after any calls an open window that was new after some counters stays so, and its ids stay below the current ones |
| Freshness.WindowStaysOrIsReplaced | crates/double_riichi_core/src/match_machine.rs:288-489 | after any calls an open window is still the same one, with its offers, or any window then open has new ids only |
| Freshness.WindowsShareNothing | crates/double_riichi_core/src/match_machine.rs:288-489 | two windows open at different points of a run are the same window or share neither decision id nor any action id |
| Freshness.StaleIdsAreNeverAccepted | crates/double_riichi_core/src/match_machine.rs:470-489 | once an open window is gone, resolved or dropped by any calls, then after any further calls every submission with its id or one of its action ids is refused |
| WindowOpening.WindowAsksEveryoneWhoCanAct | crates/double_riichi_core/src/match_machine.rs:398-460 | a new window asks exactly the seats that can act, each for all its legal actions in order, and is a response window exactly when one of them is a response |
| WindowOpening.WindowIdsAreDistinct | crates/double_riichi_core/src/match_machine.rs:429-445 | no two actions of a window share an id |
| WindowOpening.NewWindowsClocks | crates/double_riichi_core/src/match_machine.rs:728-761 | the clock of every entry of a fresh window: without a limit none for a present human and the watchdog's for an absent one or a program, 30 seconds for a turn and 10 for a response in a casual match, the policy's otherwise, and no time at all for a seat played automatically |
| WindowOpening.NewWindowsKind | crates/double_riichi_core/src/match_machine.rs:398-430 | a new window is a response if and only if a call, a win off a discard or a pass is on offer |
| Takeovers.TimeoutsTakeOver | crates/double_riichi_core/src/match_machine.rs:500-525 | a timeout on a running match with a window makes a seat's controller temporary automatic play if and only if it was interactive, its player away and its entry timed out before or silent past its deadline; every other controller stays as it was |
| Takeovers.TakenOverSeatsAreDue | crates/double_riichi_core/src/match_machine.rs:728-761 | in the next window such a seat has no time: its deadline is the moment the window opens, so it is due as soon as it is asked |
| MatchMachines.MatchMachine.constructor | crates/double_riichi_core/src/match_machine.rs:763-805 | a new machine is the specified one: the initial deal public and journalled, nothing held, nobody absent |
| MatchMachines.MatchMachine.TakePersistenceEvents | crates/double_riichi_core/src/match_machine.rs:234-236 | drains the pending persistence events and nothing else |
| MatchMachines.MatchMachine.PublishKyokuStep | crates/double_riichi_core/src/match_machine.rs:238-262 | refuses any step but the next; the settlement step publishes the terminal events and settles the frozen table |
| MatchMachines.MatchMachine.Release | crates/double_riichi_core/src/match_machine.rs:264-278 | only after the last step: publishes the rest and completes the match if it is over |
| MatchMachines.MatchMachine.LeaveSeat | crates/double_riichi_core/src/match_machine.rs:308-323 | records the absence and starts the watchdog where the time control asks for it |
| MatchMachines.MatchMachine.ReturnToSeat | crates/double_riichi_core/src/match_machine.rs:325-355 | records the return and puts the seat's clock right |
| MatchMachines.MatchMachine.LeaveToComputer | crates/double_riichi_core/src/match_machine.rs:357-362 | permanent automatic play; drops the open window |
| MatchMachines.MatchMachine.SetTimeControl | crates/double_riichi_core/src/match_machine.rs:288-291 | a new time control drops the open window |
| MatchMachines.MatchMachine.SetTiming | crates/double_riichi_core/src/match_machine.rs:293-296 | new durations drop the open window |
| MatchMachines.MatchMachine.CurrentWindow | crates/double_riichi_core/src/match_machine.rs:398-460 | none while a hand is held; the open one if any; else a new one with fresh ids, or an abort |
| MatchMachines.MatchMachine.Submit | crates/double_riichi_core/src/match_machine.rs:470-489 | a submission waits, resolves through the engine, or is refused, exactly as specified |
| MatchMachines.MatchMachine.ResolveTimeouts | crates/double_riichi_core/src/match_machine.rs:500-525 | times silent seats out, puts absent ones on automatic play, and applies a resolution |
| MatchMachines.MatchMachine.Apply | crates/double_riichi_core/src/match_machine.rs:377-396 | the direct path drops the open window before the engine sees the action |
| MatchMachines.MatchMachine.Record | crates/double_riichi_core/src/match_machine.rs:593-705 | records an engine reply: a held hand if it ended one, otherwise a plain append |
| MatchMachines.MatchMachine.Hold | crates/double_riichi_core/src/match_machine.rs:655-705 | the journal grows by the batch; only its front becomes public |
| MatchMachines.MatchMachine.RecordAllEvents | crates/double_riichi_core/src/match_machine.rs:707-726 | appends a batch to all three views and finishes the match when the engine is done |
| MatchMachines.MatchMachine.ProjectFor | crates/double_riichi_core/src/match_machine.rs:531-558 | what an audience sees: the held table or the engine's, with the open decision and the results published so far; aborts where the program does |
| MatchMachines.MatchMachine.LegalFor | crates/double_riichi_core/src/match_machine.rs:364-373 | nothing while a hand is held, else the engine's list, or an abort |
| MatchMachines.MatchMachine.ShownResults | crates/double_riichi_core/src/match_machine.rs:224-232 | the wins published so far, and the settlement after the last of them |
| MatchOutcomes.NewMatchMeans | crates/double_riichi_core/src/match_machine.rs:763-805 | a new match runs with everyone present; built-in bots are the computer's for good, everyone else plays |
| MatchOutcomes.ApplyingMeans | crates/double_riichi_core/src/match_machine.rs:377-396 | the direct path reaches the engine if and only if the match takes decisions and the engine lists the action for the seat; which error, and which abort, otherwise |
| MatchOutcomes.ListingMeans | crates/double_riichi_core/src/match_machine.rs:364-373 | what listing answers, and when it aborts |
| MatchOutcomes.LastAnswerResolves | crates/double_riichi_core/src/match_machine.rs:470-489 | the submission that completes a window is answered with every seat's choice and exactly the events the public log grew by; any other waits |
| MatchOutcomes.PlainReplyMeans | crates/double_riichi_core/src/match_machine.rs:707-726 | a reply that ends no hand is published whole; a finished match is completed on the engine's scores, ranked, or aborted if the last settlement says otherwise or an id is empty |
| MatchOutcomes.EndingReplyMeans | crates/double_riichi_core/src/match_machine.rs:593-705 | a reply that ends a hand aborts the match or is cut at its first win or draw and at its end, with a final result, on the settled scores, if and only if the engine is done |
| MatchOutcomes.HeldHandIsNumbered | crates/double_riichi_core/src/match_machine.rs:593-618 | the record's number is that of the hands started up to its end |
| MatchOutcomes.RefusalAborts | crates/double_riichi_core/src/match_machine.rs:838-843 | an engine that refuses aborts the match with its reason |
| MatchOutcomes.LeavingMeans | crates/double_riichi_core/src/match_machine.rs:308-323 | leaving changes that seat's presence, and its clock only where a human is being waited for without a limit |
| MatchOutcomes.ComingBackMeans | crates/double_riichi_core/src/match_machine.rs:325-355 | coming back ends temporary automatic play and gives a seat that is being asked the time its state calls for; nobody else's clock or controller changes |
| MatchOutcomes.LeavingForGoodMeans | crates/double_riichi_core/src/match_machine.rs:357-362 | only that seat's controller changes, and the window is gone |
| MatchOutcomes.StrangersAreRefused | crates/double_riichi_core/src/match_machine.rs:830-836 | seats the table does not have are refused, and nothing happens |
| Settlement.BoundaryIsUnique | crates/double_riichi_replay/src/frames.rs:804-820 | the pot strictly grows with every accepted riichi, so at most one position matches the record's earlier state |
| Settlement.ReplayDeposits | crates/double_riichi_replay/src/frames.rs:795-820 | the loop pays every deposit in checked arithmetic, fails exactly when one does not fit, and ends at the one matching position if any |
| SettlementCheck.BoundaryDecidesCapture | crates/double_riichi_replay/src/frames.rs:821-843 | the search's verdict means: captured at the terminal event, or just before one deposit directly preceding it |
| SettlementCheck.CheckDraw | crates/double_riichi_replay/src/frames.rs:862-919 | a draw is accepted exactly when undoing the award explains every emitted delta |
| SettlementCheck.CheckWins | crates/double_riichi_replay/src/frames.rs:944-1000 | wins are accepted exactly when the running scores, with a leftover pot awarded where one is due, and where known, end at the record's |
| Settlement.WinsLeaveNoAward | crates/double_riichi_replay/src/frames.rs:844-848 | the award that check provides for is never due, so its outcome does not depend on it |
| WinFigures.RunMeans | crates/double_riichi_replay/src/frames.rs:947-975 | the loop over the announcements succeeds if and only if each announced score is the running one and every running sum fits, and then knows exactly what they tell |
| WinFigures.WinAcceptedIff | crates/double_riichi_replay/src/frames.rs:775-1023 | in plain terms, both directions: when a won hand's record is accepted, with its sticks gone |
| SettlementCheck.CheckNextHand | crates/double_riichi_replay/src/frames.rs:1001-1021 | the next hand, if any, must start from the record's scores and pot |
| SettlementCheck.ValidateCanonicalSettlement | crates/double_riichi_replay/src/frames.rs:775-1023 | accepts a record if and only if deposits fit, the capture is placed, the pot is right, the draw or wins are explained and the next hand follows on |
| DrawSettlements.SticksAreCounted | crates/double_riichi_replay/src/frames.rs:809-820 | as many sticks are put down as riichis are accepted in the log |
| DrawSettlements.DepositsAreCounted | crates/double_riichi_replay/src/frames.rs:809-820 | and each is charged to the seat that declared it |
| DrawSettlements.DrawAcceptedIff | crates/double_riichi_replay/src/frames.rs:775-942 | in plain terms, both directions: a draw's record is accepted if and only if the deposits can be paid, it was captured in time, none follows, each seat's movement plus evidence is its emitted delta, its pot is the starting pot plus the accepted riichis (given to one seat if it is the replay's last hand, the pot is positive and the match ends after it), and the next hand starts from there |
| DrawSettlements.DrawHasOneTerminal | crates/double_riichi_replay/src/frames.rs:862-880 | an accepted draw has exactly one terminal event, a draw |
| DrawSettlements.DrawnSticks | crates/double_riichi_replay/src/frames.rs:844-856 | in an accepted replay a drawn hand's record keeps starting pot plus accepted riichis, unless it is the last, that is positive and an end of game follows: then none are left |
| DrawSettlements.SticksStay | crates/double_riichi_replay/src/frames.rs:1001-1021 | between a drawn hand and the next the sticks stay on the table, and a won hand leaves none to the next |
| DrawSettlements.WonHandLeavesNone | crates/double_riichi_replay/src/frames.rs:857-861 | a won hand's record keeps no sticks, the last hand's too |
| SettlementTheorems.AwardIsUndone | crates/double_riichi_replay/src/frames.rs:881-901 | taking the award back recovers the scores before it, without overflow |
| SettlementTheorems.CapturedIffInTime | crates/double_riichi_replay/src/frames.rs:821-843 | the capture test passes if and only if at most one deposit came after the capture, directly before the terminal event |
| SettlementTheorems.DrawsAgree | crates/double_riichi_core/src/engine.rs:516-538 | for any scores, pot and emitted delta: a draw the producer records is accepted by the validator if and only if the deposits after the capture can be replayed (their seats exist, and the last one still fits) and the log supports it (capture in time, award where the match ends, matching supplied scores and next hand); the scores before the award are recovered exactly |
| SettlementTheorems.DepositsFitIff | crates/double_riichi_replay/src/frames.rs:809-820 | a captured run of deposits can be replayed in checked arithmetic if and only if every deposit's seat exists and a late one does not take its seat below the least score |
| SettlementTheorems.LateDrawIsRefused | crates/double_riichi_replay/src/frames.rs:829-843 | a draw the producer records and the validator refuses: two deposits were accepted after the captured state |
| WinSettlements.WinsAgree | crates/double_riichi_replay/src/frames.rs:775-1023 | a winning hand the producer records is accepted by the validator if and only if the deposits can be replayed, the capture is in time, the pot was taken, the announced deltas and scores lead where known to the real scores, and the next hand starts from there |
| WinSettlements.WinsAgreeOnDeltas | crates/double_riichi_replay/src/frames.rs:944-1000 | where every win announces its delta, that is: no running sum overflows or contradicts an announced score, and each seat's real score is its captured one less late deposits plus its deltas |
| WinSettlements.RunSucceedsIff | crates/double_riichi_replay/src/frames.rs:947-975 | with all deltas present the loop over the terminal events succeeds if and only if every partial sum fits and every announced score is the partial sum |
| SettlementTheorems.DrawRecordMeans | crates/double_riichi_core/src/engine.rs:862-902 | what a recorded draw's fields are in terms of the captured states |
| Conservation.WinningHandSettles | crates/double_riichi_replay/src/frames.rs:944-1000 | with every delta present, each seat ends an accepted winning hand at its start, less 1000 per deposit, plus its deltas |
| Conservation.DrawnHandSettles | crates/double_riichi_replay/src/frames.rs:862-942 | an accepted draw changes points plus pot by exactly its net: the log's delta less the record's own evidence, plus the deposits by which the log's pot exceeds the captured one |
| Conservation.HandsLink | crates/double_riichi_replay/src/frames.rs:1001-1021 | each record's scores and pot are those the next hand starts from |
| Conservation.SettlementsTelescope | crates/double_riichi_replay/src/frames.rs:775-1023 | after any hand of an accepted replay the table holds the first hand's assets plus what the hands so far added |
| Conservation.PointsAndSticksAreConserved | crates/double_riichi_replay/src/frames.rs:775-1023 | points plus 1000 per stick never change over a replay while every hand's net delta is the pot it collects |
| ReplayJoin.PreviewIsCommit | crates/double_riichi_replay/src/frames.rs:73-106 | once the boundary checks pass, the element the preview streams at every index is the frame the later mutation leaves there |
| ReplayJoin.ScoreStateInHand | crates/double_riichi_replay/src/frames.rs:86-93 | inside a hand the running score state is that hand's settlement from its end on |
| ReplayJoin.JoinFinds | crates/double_riichi_replay/src/frames.rs:659-671 | the lookup tables hold at each position its own hand's win and settlement and nothing else |
| ReplayAttach.CheckPlaced | crates/double_riichi_replay/src/frames.rs:621-658 | passes if and only if every record sits in its own hand, in order |
| ReplayAttach.BuildJoin | crates/double_riichi_replay/src/frames.rs:659-671 | the two loops build the tables |
| ReplayAttach.PreviewSize | crates/double_riichi_replay/src/frames.rs:672 | the streamed size is the encoded size of the previewed frames |
| ReplayAttach.CheckTerminals | crates/double_riichi_replay/src/frames.rs:702-741 | the hand's terminal events and the record's wins or draw reason match one to one |
| ReplayAttach.CheckRecord | crates/double_riichi_replay/src/frames.rs:674-750 | everything one record must pass before any frame is touched |
| ReplayAttach.CommitRecord | crates/double_riichi_replay/src/frames.rs:751-764 | rewrites exactly one hand's frames in place |
| ReplayAttach.CommitAll | crates/double_riichi_replay/src/frames.rs:751-764 | the mutation as a whole leaves exactly the joined frames |
| ReplayAttach.AttachResultRecords | crates/double_riichi_replay/src/frames.rs:607-766 | a refused attachment leaves every frame as it was; an accepted one leaves exactly the frames whose size was checked, so the size check is exact, and from each record's end up to the next start shows each listed seat at its score after the hand, the pot after it, and every other part of the view as before |
| ReplayAttach.AttachingTwiceIsOnce | crates/double_riichi_replay/src/frames.rs:607-766 | attaching the same records again succeeds and changes nothing |
| ReplayAttach.JoinedShows | crates/double_riichi_replay/src/frames.rs:751-773 | what the joined frames show, hand by hand and position by position: before a hand's end nothing new but its wins, from the end on the settled scores and pot, everything else as it was |
| RecordChecks.TerminalsMatchIff | crates/double_riichi_replay/src/frames.rs:702-741 | in plain terms, both directions: one draw with the record's reason, or as many announcements as wins, each told by its own |
| ReplayMachine.ReplayState.constructor | crates/double_riichi_replay/src/frames.rs:133-157 | a new fold: 25000 points each, nothing else |
| ReplayMachine.ReplayState.Apply | crates/double_riichi_replay/src/frames.rs:159-364 | applies an event in place if and only if it fits, leaving exactly the specified state |
| ReplayMachine.ReplayState.RemoveRequiredTiles | crates/double_riichi_replay/src/frames.rs:441-450 | takes tiles one by one and fails exactly when one is missing |
| ReplayFoldProofs.ApplyKeepsFit | crates/double_riichi_replay/src/frames.rs:159-364 | every accepted event keeps one entry per seat and every riichi mark on an existing discard |
| ReplayFoldProofs.ApplyKeepsAccounts | crates/double_riichi_replay/src/frames.rs:159-364 | every accepted event keeps each seat's tiles accounted for |
| ReplayFoldProofs.EveryTileIsAccounted | crates/double_riichi_replay/src/frames.rs:159-364 | for every accepted log, until hands are laid open at a draw, each seat's hand, discards, melds and set-aside Norths are exactly the tiles it was dealt, drew and called; one North per Kita |
| ReplayFoldMeaning.FoldShowsTheHand | crates/double_riichi_replay/src/frames.rs:159-364 | anywhere in a hand the folded table shows what the log says: each seat's discards in order, its number of melds, whether it declared riichi, the indicators turned over and the scores last announced |
| ReplayHands.EventTakenIff | crates/double_riichi_replay/src/frames.rs:159-364 | the fold takes an event if and only if it fits the table: in or out of a hand, seats that exist, tiles that are held, melds that are there, a discard to call |
| ReplayHands.FoldShowsTiles | crates/double_riichi_replay/src/frames.rs:214-364 | anywhere in a hand each seat's concealed tiles, in order, and its melds, tile by tile, are those the log says |
| ReplayHands.FoldShowsTheRound | crates/double_riichi_replay/src/frames.rs:190-213 | anywhere in a hand the folded round is the wind, number, dealer and honba of the hand's own start, with the sticks put down since |
| ReplayHands.FoldShowsThePlayers | crates/double_riichi_replay/src/frames.rs:133-188 | each seat is a built-in bot under the id of its place and the name last given to it |
| ReplayHands.RemovableIff | crates/double_riichi_replay/src/frames.rs:441-450 | tiles can be taken if and only if the hand holds them, as often as they are wanted |
| FrameMeaning.FramesShowTheHand | crates/double_riichi_replay/src/frames.rs:392-434 | every frame of a hand shows exactly the wind, number, dealer and honba of the hand's start, the sticks and indicators by then, and each seat's name, score, tiles, discards, melds and riichi as the log up to that event says |
| FrameMeaning.FramesShowTheFold | crates/double_riichi_replay/src/frames.rs:539-560 | frame i is event i with its side records on the fold up to and including it |
| ReplayFoldMeaning.RiichiMarkMeans | crates/double_riichi_replay/src/frames.rs:214-308 | a riichi mark is pending exactly from a declaration to the seat's next discard, and stands, if at all, on the first discard after a declaration |
| ReplayFoldProofs.FoldedPotIsCounted | crates/double_riichi_replay/src/frames.rs:309-315 | inside a hand the pot shown in the frames is the one the validator counts |
| ReplayFoldProofs.ChiAcceptedIff | crates/double_riichi_replay/src/frames.rs:452-467 | a called sequence is accepted if and only if its types are three consecutive number-tile types |
| ReplayFoldProofs.AcceptedChiIsOneSuitIff | crates/double_riichi_replay/src/frames.rs:458-467 | an accepted sequence is of one suit if and only if its lowest tile is at most a seven |
| ReplayFoldProofs.ChiAcrossSuitsIsAccepted | crates/double_riichi_replay/src/frames.rs:458-467 | 8 and 9 of characters with 1 of circles pass the check: its suit clause compares the first type with itself |
| ReplayFoldProofs.FoldTakesChiAcrossSuits | crates/double_riichi_replay/src/frames.rs:229-262 | inside a hand the fold takes that call from any seat holding the two tiles, and shows the meld |
| FrameBytes.CountingWriter.Write | crates/double_riichi_replay/src/frames.rs:1071-1083 | takes a whole buffer if the total stays within the limit, else none of it, and remembers the overflow |
| FrameBytes.LimitedWriter.Write | crates/double_riichi_replay/src/frames.rs:1096-1108 | the same, keeping the bytes |
| FrameBytes.SerializedLen | crates/double_riichi_replay/src/frames.rs:1039-1050 | for any cut of the text into writes: its length if within the limit, else too large |
| FrameBytes.SerializeBounded | crates/double_riichi_replay/src/frames.rs:1052-1063 | for any cut of the text into writes: the text itself if within the limit, else too large |
| FrameBytes.EncodedSizeIsLength | crates/double_riichi_replay/src/frames.rs:539-560 | two brackets plus separators plus frames is the length of the array's text |
| FrameBytes.EncodeReplayFrames | crates/double_riichi_replay/src/frames.rs:1025-1030 | encodes if and only if there are few enough frames and bytes |
| FrameAuxiliary.GroupAuxiliary | crates/double_riichi_replay/src/frames.rs:521-537 | groups side records by position and orders each group, or refuses one beyond the timeline |
| FrameAuxiliary.OrderedIsInOrder | crates/double_riichi_replay/src/frames.rs:535-537 | groups come out by phase, then sequence number |
| FrameAuxiliary.OrderedIsStable | crates/double_riichi_replay/src/frames.rs:535-537 | records that compare equal keep their arrival order |
| FrameAuxiliary.BeforeStandsFirst | crates/double_riichi_replay/src/frames.rs:535-537 | at every position what came before the event stands first, and each phase is in sequence |
| FrameAuxiliary.AuxiliaryIsConserved | crates/double_riichi_replay/src/frames.rs:521-537 | no side record is lost or repeated over the timeline |
| FrameBuilder.SticksAreBounded | crates/double_riichi_replay/src/frames.rs:309-315 | a log adds at most one stick per event, so the counter never overflows |
| FrameBuilder.MeasureFrame | crates/double_riichi_replay/src/frames.rs:550-559 | a frame passes the remaining budget exactly when the whole list so far fits, separator included |
| FrameBuilder.FittingHasNoLargePrefix | crates/double_riichi_replay/src/frames.rs:541-562 | a timeline that fits has no beginning that does not |
| FrameBuilder.BuildReplayFrames | crates/double_riichi_replay/src/frames.rs:504-562 | succeeds if and only if the log is admissible, folds, and its frames can be encoded; reports too large exactly when some buildable beginning could not be encoded; the frames are the fold's |
| FrameMeaning.TimelineIff | crates/double_riichi_replay/src/frames.rs:539-560 | a log has a timeline if and only if every beginning of it folds onto a table that can be shown |
| FrameMeaning.InferredModeMeans | crates/double_riichi_replay/src/frames.rs:580-599 | the mode is that of the first deal to three or four seats; a log without one has none |
| FrameMeaning.AdmissibleMeans | crates/double_riichi_replay/src/frames.rs:504-520 | a log is admitted if and only if it is of as many seats as asked for and its events and side records pass |
| CivilDates.CivilIsTheNthDay | crates/double_riichi_replay/src/persistence.rs:558-569 | day n is the n-th calendar day after 1 January 1970, counting day by day with the Gregorian leap rule |
| CivilDates.CivilIsValidAndInvertible | crates/double_riichi_replay/src/persistence.rs:558-569 | every day, before 1970 too, gets a valid date, and the days-from-civil formula takes it back |
| CivilDates.EveryDateIsReached | crates/double_riichi_replay/src/persistence.rs:558-569 | every valid date is the date of the day the formula gives |
| CivilDates.CivilSteps | crates/double_riichi_replay/src/persistence.rs:558-569 | the date of the next day is the next date |
| CivilDates.FindsTheYear | crates/double_riichi_replay/src/persistence.rs:560-564 | the arithmetic finds the March-based year the day lies in |
| FilenameTimestamps.LaterSortsLater | crates/double_riichi_replay/src/persistence.rs:541-554 | until the end of the year 9999 a later second always sorts later as text |
| FilenameTimestamps.TimestampReadsBack | crates/double_riichi_replay/src/persistence.rs:541-554 | until the year 10000 a timestamp reads back, digit by digit, as the calendar date and the time of day it stands for |
| FilenameTimestamps.OrderHoldsIff | crates/double_riichi_replay/src/persistence.rs:541-554 | all timestamps up to a moment sort in time order if and only if it lies before the year 10000 |
| FilenameTimestamps.OrderBreaksInYear10000 | crates/double_riichi_replay/src/persistence.rs:541-554 | the first second of the year 10000 sorts before the last one of 9999 |
| OggChecksum.OggCrc | scripts/generate_starter_packs.py:74-80 | the nested loops compute the specified register |
| OggChecksum.CrcIsLinear | scripts/generate_starter_packs.py:74-80 | the checksum of the sum of two equal-length pages is the sum of their checksums |
| OggRemainder.CrcIsTheRemainder | scripts/generate_starter_packs.py:74-80 | a word is the checksum if and only if it is the remainder of the page, as a polynomial over the two-element field times x^32, modulo x^32 plus the generator |
| OggRemainder.BitsDivide | scripts/generate_starter_packs.py:74-80 | the bits leaving the register are the quotient |
| Polynomials.RemainderIsUnique | scripts/generate_starter_packs.py:74-80 | quotient and remainder below the divisor's degree are unique |
| OggPages.CanonicalizeOgg | scripts/generate_starter_packs.py:83-99 | rewrites the buffer in place and ends on every input: exactly the canonical file, or the right refusal |
| OggPages.SplitPages | scripts/generate_starter_packs.py:86-91 | the pages tile the file and each is as long as its own header says |
| OggPages.PagesSpellOut | scripts/generate_starter_packs.py:86-91 | every page starts with the capture pattern and is exactly header, segment table and the segments it lists |
| OggPages.RefusalIs | scripts/generate_starter_packs.py:86-91 | a refused file is whole pages followed by something that is none: not a page's beginning, or shorter than its own header says |
| OggPages.CanonicalStampsEveryPage | scripts/generate_starter_packs.py:86-96 | the rewritten file splits into the same pages, each stamped |
| OggPages.CanonicalPagesAreRight | scripts/generate_starter_packs.py:92-95 | every page's serial number is zero, its stored checksum is that of the page with the field cleared, and no other byte changes |
| OggPages.CanonicalIsIdempotent | scripts/generate_starter_packs.py:83-99 | a second run changes nothing |
| OggPages.SameFileIff | scripts/generate_starter_packs.py:83-99 | two files become the same if and only if their pages differ in serial numbers and checksums only |
| OggPages.ChecksumReadsBack | scripts/generate_starter_packs.py:95 | the stored bytes read back, lowest first, as the checksum |
| BenchmarkRuns.SortingFindsTheNumbering | frontend/src/benchmark-analytics.ts:38-41 | if any order of the matches numbers them 1 to n, sorting finds exactly that order |
| BenchmarkDerivation.EveryoneIsFound | frontend/src/benchmark-analytics.ts:69 | in an accepted run the per-match lookup always finds the participant's result |
| BenchmarkDerivation.NetsSumToZero | frontend/src/benchmark-analytics.ts:70-71 | in each match the participants' nets cancel |
| BenchmarkDerivation.CumulativeNetsSumToZero | frontend/src/benchmark-analytics.ts:72 | so do the cumulative nets after any number of matches |
| BenchmarkDerivation.CountsAddUp | frontend/src/benchmark-analytics.ts:73-74 | rank counts add up to the matches played, and weighted by rank to the sum the average is taken of |
| BenchmarkDerivation.RanksAreInRange | frontend/src/benchmark-analytics.ts:48-57 | every counted rank is one of 1 to the number of players |
| BenchmarkDerivation.OrderDoesNotMatter | frontend/src/benchmark-analytics.ts:38-61 | reordering the matches changes neither whether the run is accepted nor the sorted matches everything is derived from |
| BenchmarkOrder.OutcomeIgnoresOrderIff | frontend/src/benchmark-analytics.ts:38-61 | for every run: all reorderings of its matches give the same outcome, reason included, if and only if no group of equally numbered matches, reached with everything before it in order, holds one that would be refused for its results and one that would not |
| BenchmarkOrder.NumberedApartIsOrderFree | frontend/src/benchmark-analytics.ts:38-61 | if no two matches carry the same number, every reordering gives the same outcome |
| BenchmarkOrder.ReasonDependsOnOrder | frontend/src/benchmark-analytics.ts:38-61 | an input where it does not: two matches both numbered 1, one of them with a bad rank, are refused for either fault |
| BenchmarkDerivation.CheckRoster | frontend/src/benchmark-analytics.ts:23-34 | accepts exactly rosters with distinct non-empty ids and distinct seats in range |
| BenchmarkDerivation.CheckMatches | frontend/src/benchmark-analytics.ts:39-61 | reports the first match that does not fit, and why |
| BenchmarkDerivation.DeriveParticipant | frontend/src/benchmark-analytics.ts:63-84 | one pass yields each point's net, cumulative net and the mean of the last ten ranks or fewer, and the totals |
| BenchmarkDerivation.DeriveRunAnalytics | frontend/src/benchmark-analytics.ts:11-89 | refuses a run for the first failing check, otherwise derives every participant in roster order |
| BenchmarkMeaning.OutcomeMeans | frontend/src/benchmark-analytics.ts:11-89 | in plain terms: which fault a run is refused for, and if it has none what is derived for every participant, from the matches in sequence |
| BenchmarkMeaning.StatisticsAreRight | frontend/src/benchmark-analytics.ts:63-84 | average, recent average, per-rank counts and rates, gains and totals, each by the sum or count it stands for |

## Left out

- The rules library: hand evaluation, yaku, payments, walls and legal moves. Its answers about a win (the tiles complete a hand, a yaku id is known under its name, what the score table pays a dealer and anyone else) are part of the win.
- Prepared match fixtures, seeds and seat shuffling: the roster order is given.
- Parsing of engine and log events, and the log's own event check, which is an abstract predicate of the frame builder.
- Action canonicalisation on the direct path: `MatchMachines.MatchMachine.Apply` takes an action already in canonical form.
- Reading the clock: `now` and `openedAt` are inputs, durations and instants are whole milliseconds, and 64-bit counters are unbounded.
- Error texts: an error keeps its kind, and a reason only where it becomes an abort's.
- JSON formatting, of projections too: a frame's text is any list of byte chunks of at least the two braces in all; serialization itself does not fail.
- The file system side of replay persistence (line writing, renaming, cleaning up) and of the starter packs.
- Dynamic type checks of the benchmark statistics (missing fields, non-integers) and floating point: numbers are exact, so the finiteness checks never fire.
- Room handling, network, user interface, charts, audio and release scripts.
- WinHands.CheckHand: the rules library's three answers (completeness, yaku names, table points) are stored with the hand; that equal hands get equal answers is not used.
- Results.ValidateWins: the same three answers, through the hand check.
- Results.ValidateRecord: the same three answers, through the win checks.
- Engine.ResultRecord: putting together a win's hand, indicators, yaku and payment is an input of the record, because the rules library supplies them.
- ReplayMachine.ReplayState.Apply: what a refused event leaves behind is not specified, because the fold stops there and drops the state.
- FrameBytes.SerializedLen: the writer's limit and totals are 64-bit; other word widths are not modelled.
