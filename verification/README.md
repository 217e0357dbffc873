# Grinklers: the section runner, programs and schedules, in Dafny

Grinklers controls sprinklers. A *section runner* owns the valves: one goroutine receives runs, cancels, pauses and timer
events, keeps a queue in a circular buffer and waters one section at a time. A *program* submits a list of runs to it,
waits for them in order, and cancels what is left when it is cancelled. A *schedule* says when a program runs next; it can
be written as text. This project models these four parts and proves what they guarantee over whole runs.

## How the model is built

| file | what it holds |
|---|---|
| `Ring.dfy` | the circular buffer up to rotation: a window of slots and the spare slots, with the slot at tail first |
| `SRQueue.dfy` | `SRQueue` over an array with head and tail, each method proved against `Ring.dfy` |
| `RunnerSpec.dfy` | the event loop as a state machine, one step per select case, with a history of arrivals, starts, ends, drops and signals |
| `SectionRunner.dfy` | `SectionRunner` with its fields updated in place, each select case proved to be that step |
| `RunLists.dfy`, `RunnerInvariant.dfy` | lists of runs with distinct ids; what every step keeps |
| `RunnerHistory.dfy`, `RunnerSignals.dfy`, `RunnerLine.dfy`, `WaterTime.dfy`, `TimeStamps.dfy` | order and accounting, Done signals, the line that users see, watering time and valves, what the time stamps record |
| `ProgramSpec.dfy`, `ProgramBarrier.dfy`, `ProgramOrder.dfy` | a program interleaved with everything else, and what its cancellation guarantees once it is through |
| `ProgramInterval.dfy`, `ProgramHistories.dfy` | which steps switch on a run of a program that is being cancelled; histories in which a cancellation does less than one would expect |
| `Program.dfy` | `Program.run` itself, and its loops as steps of the interleaved program |
| `Calendar.dfy`, `Schedule.dfy`, `ScheduleTheorems.dfy` | Gregorian days, `NextRunAfterTime`, and when its answer is the right one |
| `Tokens.dfy`, `Patterns.dfy`, `Grammar.dfy`, `Parser.dfy` | the tokenizer, its patterns as regular expressions, the language of schedule texts, and the recursive-descent parser |
| `ScheduleTexts.dfy`, `ScheduleMeaning.dfy` | texts as people write them are read as intended, and what the parsed schedule then says in terms of clocks and calendars |

An *execution* of the runner is any sequence of enabled events: submissions, receptions in any order, cancels of any kind,
pauses, resumptions, and a timer that may fire at or after it is due, with a clock that does not go back. Statements about
executions hold for all of them, at every state. The classes refine the state machine exactly: each method ensures that the
new model state is the step of the old one, and `Valid` ties every field to the model.

## Where the code does not do what its names or comments say

The code is modelled as it is. Each of these has a concrete history or input, and the exact condition for the intended
property.

- `Pop` leaves the slot it empties as it is, and the bulk removals also look at the slot at tail. After a wrap that slot can
  hold a run that is long over, whose Done channel (room for one value) is then sent to a second time
  (`RunnerSignals.SignalledTwice`, `RunnerSignals.SignalledOnceIff`).
- `weeks(n)` is n days, so a time that has passed today is tried tomorrow and not next week
  (`ScheduleTheorems.RollOverHappens`, `ScheduleTheorems.NextRunIff`).
- A From or To that is written with its year is moved by a year all the same, when From comes after To once both have a
  year. Every run then comes after the written To, or before the written From
  (`ScheduleTheorems.WrittenToMissed`, `ScheduleTheorems.WrittenFromMissed`, `ScheduleTheorems.WrittenToIff`,
  `ScheduleTheorems.WrittenFromIff`).
- For a year-less window that wraps round the year end, a reference date after From takes the window that has just closed
  (`ScheduleTheorems.OpenWindowMissedHappens`, `ScheduleTheorems.WindowIff`).
- The error for a missing first slash of a date is overwritten, so that slash is optional
  (`Grammar.SlashMissed`, `Grammar.IntendedIff`).
- A program's cancel can be received before the run it is meant for; that run is then not cancelled
  (`ProgramHistories.CancelledRunIsWatered`, `ProgramSpec.DeliverSettles`).
- Cancelling a program does not keep its other runs off: until their own cancels are received, another user's cancel of the
  run being watered switches the next one on, with no timer event in between (`ProgramHistories.ForeignCancelStartsNext`,
  `ProgramInterval.StartedIff`, `ProgramInterval.ReceivedStartedIff`).

## Model

| member | source | states |
|---|---|---|
| RingSpec.PushAppends | logic/section_runner.go:85-98 | Push appends to the live queue from every state, wrapping and doubling included, and afterwards there is again a free slot at tail, so head == tail means an empty window |
| RingSpec.CapacityDoubles | logic/section_runner.go:89-97 | Push doubles the buffer exactly when one slot is free, and no other operation changes its size |
| RingSpec.PopOnlyTurns | logic/section_runner.go:101-111 | Pop writes to no slot: read from the slot at tail round to tail, the buffer is the same |
| RingSpec.RemovalsEmpty | logic/section_runner.go:146-187 | a bulk removal empties exactly the matching slots of the window and at tail, a removal by id exactly the first slot of the window with that id |
| RingSpec.PopTakesFirst | logic/section_runner.go:101-111 | Pop hands out and drops the first live run, past any tombstones, and nil exactly when no live run is left |
| RingSpec.ClearKeepsMissed | logic/section_runner.go:146-159 | a bulk removal leaves the live runs that do not match, in their order |
| RingSpec.IdRemoveDropsFirst | logic/section_runner.go:162-171 | a removal by id takes the first live run with that id, no other, and nothing when there is none |
| RingSpec.SpareOnlyPopped | logic/section_runner.go:101-111 | outside the window there is never anything but nil and runs that Pop has handed out, whatever the operation, doubling included |
| SRQueues.ViewAfterDoubling | logic/section_runner.go:89-97 | the two-part copy into the doubled buffer is a push: tombstones keep their places, and every new slot is nil |
| SRQueues.SRQueue.Push | logic/section_runner.go:85-98 | the array, head and tail after Push stand for the pushed ring; the buffer is new only when it doubled |
| SRQueues.SRQueue.Pop | logic/section_runner.go:101-111 | returns an object of the buffer, with the ring popped; ends because the window shrinks |
| SRQueues.SRQueue.RemoveBulk | logic/section_runner.go:146-187 | RemoveWithSection and RemoveAll: returns the matching live runs in order, followed by at most one run from the slot at tail, and empties exactly those slots |
| SRQueues.SRQueue.RemoveByID | logic/section_runner.go:162-171 | returns and empties the first matching slot of the window, and leaves all else alone |
| SRQueues.SRQueue.ForEach | logic/section_runner.go:113-124 | calls the function on the live runs from first to last and stops after the first false; true exactly when there is none |
| SRQueues.SRQueue.ToSlice | logic/section_runner.go:126-132 | copies of the live runs, every field included, in order, tombstones left out |
| SRQueues.SRQueue.Len | logic/section_runner.go:135-143 | the number of live runs, tombstones not counted |
| SRQueues.FoundIsHit | logic/section_runner.go:146-158 | after any number of slots the removal loop has collected exactly the live runs of those slots that match |
| SectionRunners.SectionRunner.Submit | logic/section_runner.go:412-430 | hands out the next sequential id; the run is on its way with that id |
| SectionRunners.SectionRunner.Receive | logic/section_runner.go:285-294 | the new state is the machine's step, and the run becomes one new object |
| SectionRunners.SectionRunner.CancelSection | logic/section_runner.go:295-310 | the new state is the machine's step, signals included |
| SectionRunners.SectionRunner.CancelID | logic/section_runner.go:311-340 | the new state is the machine's step for one id and for all |
| SectionRunners.SectionRunner.SetPaused | logic/section_runner.go:341-383 | the new state is the machine's step; no time stamp that is read can be nil |
| SectionRunners.SectionRunner.TimerFired | logic/section_runner.go:384-388 | the new state is the machine's step; there is always a current run |
| RunnerInvariant.Reachable | logic/section_runner.go:280-389 | at every state of every execution: clock, valves, ids, order, accounting and stale slots hold together |
| RunnerInvariant.CancelQueuedKeeps | logic/section_runner.go:297-302 | purging the queue keeps the invariant, and whatever came from the slot at tail is over or is the current run that is about to end |
| RunnerHistory.FirstComeFirstServed | logic/section_runner.go:280-389 | started runs followed by the live queue are the arrivals in order less those cancelled while waiting; runs end in the order they start; arrivals have distinct ids |
| RunnerHistory.DroppedMeansLost | logic/section_runner.go:295-340 | a step drops exactly the queued runs that it neither keeps waiting nor makes current: nothing is lost silently |
| RunnerHistory.ExactlyOnePlace | logic/section_runner.go:280-389 | every accepted run is in exactly one of the queue, Current, ended, and cancelled while queued, and in it once; no other run is in any |
| RunnerHistory.OverForGood | logic/section_runner.go:280-389 | a run that is over never waits or runs again |
| RunnerSignals.SignalsCounted | logic/section_runner.go:262-276 | a run with a Done channel has been signalled once if it is over, plus once for each time it was found in the slot at tail; a run without one, never |
| RunnerSignals.SignalledOnceIff | logic/section_runner.go:424-430 | no run of an execution is signalled twice if and only if no bulk removal met, in the slot at tail, a matching run with a Done channel |
| RunnerSignals.AtMostTwoSignals | logic/section_runner.go:174-187 | no execution signals a run more than twice |
| RunnerSignals.SecondSignalIsLate | logic/section_runner.go:295-326 | a run signalled twice is neither queued nor current at the end of the step |
| RunnerSignals.SignalledIsOver | logic/section_runner.go:262-268 | a run with a Done channel has been signalled if and only if it is over |
| RunnerSignals.SignalledTwice | logic/section_runner.go:105-106 | an execution in which a run is signalled twice: eleven runs back to back, then CancelSection |
| RunnerLine.StepRefinesLine | logic/section_runner.go:280-389 | to the line of waiting runs and the question whether the first is being served, every step does what a plain sequence would do |
| RunnerLine.RunRefinesLine | logic/section_runner.go:280-389 | over whole executions the line depends on the order of events alone, not on the ring, the clock or the timer |
| RunnerLine.CancelBarrier | logic/section_runner.go:295-340 | after a cancel no matching run waits or is served, all others keep their order, and the first survivor takes over |
| WaterTime.Conserved | logic/section_runner.go:247-261 | time watered, measured on the outputs, plus the remaining duration is the time asked for, at every state and after any number of pauses; while the output is on, less the time since it was switched on |
| WaterTime.LastSwitchedOn | logic/section_runner.go:347-381 | while a run is watered, its unpause time, or else its start time, is when its output was last switched on |
| WaterTime.TimerWatered | logic/section_runner.go:384-387 | a run that the timer ends was watered for the time asked for plus exactly as long as the timer was late |
| WaterTime.FinishedWasWatered | logic/section_runner.go:384-387 | every run ever reported as finished was watered at least the time asked for |
| WaterTime.DryWhenOver | logic/section_runner.go:262-276 | a run that is over is not watered again |
| WaterTime.ValveSafety | logic/section_runner.go:247-276 | an output is on exactly when the current run is on it and the runner is not paused: at most one at a time, none while paused |
| TimeStamps.ClockIs | logic/section_runner.go:347 | each step happens at the instant it is stamped with, and the clock does not go back |
| TimeStamps.StartTimeIsStart | logic/section_runner.go:252-253 | the start time of the current run is the instant of the one step that started it, and never changes after |
| TimeStamps.PausedSince | logic/section_runner.go:347-361 | while the current run is paused, its pause time is the instant since which it has been current and paused without a break |
| TimeStamps.UnpauseTimeIsLastResume | logic/section_runner.go:369-376 | the unpause time is the instant of the last resumption of the current run, and there is none before its first |
| TimeStamps.FinishedIff | logic/section_runner.go:262-276 | a run is recorded as finished if and only if the timer fired while it was current |
| TimeStamps.ToldFalseIff | logic/section_runner.go:265-267 | a Done channel is told false (not cancelled) if and only if the timer fired while its run was current, and at most once |
| WaterTime.NeverNilNeverIdle | logic/section_runner.go:341-388 | the timer is armed exactly while an unpaused run is current, current runs have a start time, pause time exactly while paused, and nothing waits while the runner is free |
| ProgramSpec.DeliverSettles | logic/section_runner.go:327-334 | a cancel ends its run if the run had been received, and only then; otherwise the run is still on its way |
| ProgramBarrier.SystemReachable | logic/program.go:84-119 | in every interleaving, each run of a finished or cancelling invocation is over, or its cancel is on its way, or its cancel came too early |
| ProgramBarrier.CancelledForGood | logic/program.go:104-118 | once an invocation has returned and its cancels are received, its runs are over for good, save those whose cancel came before them |
| ProgramBarrier.CompletedForGood | logic/program.go:104-118 | a wait loop that runs to its end leaves none of its runs queued or current, ever after |
| ProgramOrder.ReceivedThenGone | logic/program.go:104-118 | a run received while its program was still waiting is gone for good once the invocation has returned and its cancels are received |
| ProgramOrder.LineInOrder | logic/program.go:101-103 | a program's runs wait in the order in which it submitted them |
| ProgramOrder.OwnCancelStartsNoOther | logic/program.go:109-111 | because cancels go from last to first, none of them starts another run of the same invocation, unless that run's own cancel had come before it |
| ProgramInterval.StartsIff | logic/section_runner.go:280-389 | an event starts a given run if and only if it is that run's reception by an idle runner, or it ends the current run (or a pause in which nothing is current) and leaves that run first in line |
| ProgramInterval.StartedIff | logic/program.go:104-118 | from any moment of the wait on, through the cancel loop and after it, a run of the invocation is started if and only if some step so starts it; and a step that receives one of the invocation's own cancels does so only for a run whose cancel had come before it |
| ProgramInterval.ReceivedStartedIff | logic/program.go:104-118 | for a run received by then, if and only if some step other than an own cancel makes the runner go on to it: the timer, somebody else's cancel of the current run, an unpause with nothing current, or a cancel of an older invocation |
| ProgramInterval.QuietStartsNone | logic/program.go:104-118 | while no step but an own cancel makes the runner go on, no further run received by then is started |
| ProgramInterval.QuietOutputs | logic/program.go:104-118 | and an output that is on at the end is not that of such a run, save the one that was already current |
| ProgramHistories.ForeignCancelStartsNext | logic/section_runner.go:327-334 | a history in which, between the cancel request and the first cancel sent, another user's cancel switches the program's second run on |
| ProgramHistories.CancelledRunIsWatered | logic/program.go:109-114 | a history in which the invocation is over, all its cancels are received, and its run is watered |
| Programs.Program.StoreIf | util/atomic_bool.go:32-35 | compare and swap: stored exactly when the flag was as expected |
| Programs.Program.Run | logic/program.go:84-119 | a second invocation does nothing; otherwise all items are submitted in order, each at its own time, and a cancel at the i-th wait sends the ids from last to i-th; the flag is as before, and set from the compare-and-swap to the end of the waits |
| Programs.Program.Begin | logic/program.go:85-88 | the flag is set whoever set it, and the invocation goes ahead exactly if it was not set before: what the interleaved system's Launch does to flag and phase |
| Programs.Program.Wait | logic/program.go:104-118 | with the flag set throughout: every run is waited for, or the cancels are sent from the last to the one waited for |
| Programs.Program.Stop | logic/program.go:91-94 | clears the flag once the waits are over: what the interleaved system's Return does |
| Programs.Program.RequestCancel | logic/program.go:130-134 | a cancel is sent on exactly if an invocation is at work |
| Programs.SubmitRestIsSubmitLoop | logic/program.go:101-103 | the submit steps of the interleaved system do to the runner exactly what the submit loop does, and the batch has the ids that the loop keeps |
| Programs.SendRestIsCancelLoop | logic/program.go:109-111 | the cancel steps of the interleaved system put on the wire exactly what the cancel loop sends |
| Calendar.MonthLengths | sched/sched.go:46-48 | thirty days has September, and so on; February has 28 or 29 |
| Calendar.MonthFollows | sched/sched.go:46-48 | each month begins where the one before it ends, and so does each year |
| Calendar.FourCenturies | sched/sched.go:46-48 | the calendar repeats after 400 years, which have 97 leap days and are a whole number of weeks |
| Calendar.Epoch | sched/sched.go:97-109 | 1 January 1970 is day 719528 and a Thursday |
| Calendar.DaysCountOn | sched/sched.go:46-48 | days beyond the end of a month, and months beyond the end of a year, count on |
| Calendar.DateOf | sched/sched.go:42-44 | every day has a valid date, whose day number it is |
| Calendar.AfterIsLater | sched/sched.go:61-84 | on valid dates, After and Before are the order of Gregorian days, and equal days are equal dates |
| Calendar.AfterIsTotalOrder | sched/sched.go:61-84 | on all dates, valid or not, After is a strict total order and Before is its converse |
| Calendar.DateOfDay | sched/sched.go:42-48 | a valid date is the date of its day |
| ScheduleTheorems.ToTimeRoundTrip | sched/sched.go:42-48 | DateFromTime undoes ToTime on valid dates |
| ScheduleTheorems.DurationIsReading | sched/sched.go:25-30 | the duration of a time of day is what a wall clock shows, in hours, minutes, seconds and milliseconds |
| ScheduleTheorems.NextDayIsFirstDay | sched/sched.go:97-109 | nextDay is midnight of the first day, from the reference's on, that falls on the weekday |
| Schedules.NextRunAfterTime | sched/sched.go:115-159 | the nested loops return the least accepted candidate of all weekdays and times, or nil when there is none |
| Schedules.NextRun | sched/sched.go:142-158 | the answer is an accepted candidate no later than any other, and nil only when every candidate is rejected |
| Schedules.RowsHave | sched/sched.go:142-157 | the candidates compared are exactly the accepted ones of some weekday and some time |
| ScheduleTheorems.WindowIs | sched/sched.go:121-141 | for every schedule: each bound keeps its month and day; its year is the written one, or else the reference's, moved by one exactly when From comes after To and the reference date is in the gap (To) or outside it (From); the search starts at the later of the reference and the midnight of From |
| ScheduleTheorems.ToAloneIsResolved | sched/sched.go:121-124 | Sundays at 8:00 to 25 December, with no From, asked on Sunday 1 May 2016: that day |
| ScheduleTheorems.MidnightOfToIsTaken | sched/sched.go:149-152 | a run at the very midnight of To is taken |
| ScheduleTheorems.NextRunWithin | sched/sched.go:115-159 | a result lies within seven days from the effective reference, and between the midnights of the resolved From and To |
| ScheduleTheorems.NextRunIff | sched/sched.go:142-157 | the result is the least scheduled instant from the reference to To (nil if there is none at all) if and only if the search does not roll over: today scheduled and used up, tomorrow not scheduled, To not before tomorrow's earliest time |
| ScheduleTheorems.RollOverResult | sched/sched.go:146-148 | when it does roll over, the result is the earliest time of tomorrow |
| ScheduleTheorems.RollOverHappens | sched/sched.go:93-95 | a schedule for Mondays, asked on a Monday, for which it does |
| ScheduleTheorems.WrapResolves | sched/sched.go:121-141 | a wrapping year-less window resolves to From and To one calendar year apart, From first |
| ScheduleTheorems.OpeningYearIsFirst | sched/sched.go:128-136 | the intended window is the first annual one whose To is still to come |
| ScheduleTheorems.WindowIff | sched/sched.go:128-136 | the code takes the intended window if and only if the reference date is not after From in its year |
| ScheduleTheorems.WindowContainsOrNext | sched/sched.go:128-136 | then the window contains the reference date if that is before To, and is the next to open if not |
| ScheduleTheorems.OpenWindowMissed | sched/sched.go:130-132 | when the reference date is after both, the result is nil although the intended window is open; 29 February of a common year included |
| ScheduleTheorems.OpenWindowMissedHappens | sched/sched.go:130-132 | 15 December to 15 January, asked on 20 December: nil for all times and weekdays |
| ScheduleTheorems.RealDatesOrdered | sched/sched.go:46-48 | real dates in order are days in order, but for 29 February of a common year, which is taken for 1 March |
| ScheduleTheorems.WrittenToIff | sched/sched.go:121-137 | a To written with its year is kept, and no run comes after it, if and only if the reference date is not in the gap between To and a later From; else every run comes after it |
| ScheduleTheorems.WrittenFromIff | sched/sched.go:124-137 | a From written with its year is kept, and no run comes before it, if and only if the reference date is not outside that gap; else every run comes before it |
| ScheduleTheorems.WrittenToMissed | sched/sched.go:134 | 1 December to 15 January 2016, asked on 1 February 2016: the next run is on 1 December 2016 |
| ScheduleTheorems.WrittenFromMissed | sched/sched.go:132 | 1 December 2016 to 15 January, asked on 5 January 2016: the next run is on that day |
| Tokens.MatchIsLongest | sched/parser.go:91-106 | a match is the longest word of its pattern with which the text begins |
| Patterns.TriesFit | sched/parser.go:91-106 | a pattern without repetition tries exactly its words, in order of preference |
| Patterns.MatchIsPattern | sched/parser.go:75-106 | each token type matches what a leftmost-first matcher makes of its regular expression, ignoring case |
| Tokens.MatchIsOnly | sched/parser.go:84-109 | at most one pattern matches at any place, and never with empty text before the end |
| Tokens.Tokenize | sched/parser.go:130-167 | the result does not depend on the order in which the map of patterns is ranged over |
| Tokens.LexIff | sched/parser.go:130-167 | a token list is the result if and only if it reads the text: spans in order and disjoint, each token a match of its pattern, only white space between, EOF at the end and nowhere else |
| Tokens.LexFails | sched/parser.go:155-157 | tokenizing fails only at a place where no pattern matches, and reports the rest of the text |
| Grammar.ParseSound | sched/parser.go:236-283 | what is parsed is a phrase of the grammar, and what was consumed is that phrase written out |
| Grammar.ParseComplete | sched/parser.go:236-283 | a written phrase is parsed as itself, whatever follows that cannot continue it |
| Grammar.AcceptedIff | sched/parser.go:175-191 | a symbol list is accepted as a phrase if and only if it is that phrase, written out, and EOF; so each accepted list has one derivation |
| Grammar.IntendedIff | sched/parser.go:385-406 | a list is a phrase with all its slashes, written out, and EOF, if and only if it is accepted and no number in it follows another |
| Grammar.SlashMissed | sched/parser.go:391-392 | "at 12 from 5 16" is accepted as from 16 May, though it is no such phrase |
| Grammar.AndAtNeverTaken | sched/parser.go:250-254 | no AND that is followed by AT is ever consumed |
| Parser.ScheduleParser.Parse | sched/parser.go:175-191 | the schedule denoted by the only derivation; or an error with the span of the token at which the parser stopped, or from the first token left over to the end of the text; nextTok never leaves the token list |
| Parser.ScheduleParser.ParseSchedule | sched/parser.go:236-283 | agrees with the grammar's parser on what is taken and what is left |
| Parser.ScheduleParser.ParseTimeOfDay | sched/parser.go:285-314 | one to three numbers and am or pm; the hour on the 24-hour clock |
| Parser.ScheduleParser.ParseWeekdays | sched/parser.go:326-361 | the days of all ranges, in order |
| Parser.ScheduleParser.ExpandRange | sched/parser.go:343-350 | from the first day to the last, going on from Saturday to Sunday; it ends |
| Parser.CycleHasNoRepeats | sched/parser.go:343-350 | a weekday range starts and ends where it says, has at most seven days and no day twice |
| Parser.ScheduleParser.ParseDate | sched/parser.go:385-406 | month and day with or without the slash, and a year in the present century if below 100 |
| Parser.ParsedIsWellFormed | sched/parser.go:285-361 | a parsed schedule names real weekdays, and its times lie within the day if and only if no minutes or seconds were written that carry past midnight |
| Parser.ParsedIff | sched/parser.go:175-191 | a text is parsed as a phrase if and only if some token list reads the text and is that phrase, written out, and EOF |
| ScheduleTexts.WordIsToken | sched/parser.go:84-106 | every word of every pattern, in any mixture of upper and lower case, is read as one token of its type |
| ScheduleTexts.NumberOfDecimal | sched/parser.go:316-324 | a number written in decimal, with any number of leading zeros, is read as that number |
| ScheduleTexts.TextIsRead | sched/parser.go:130-167 | any text that spells a list of symbols, with white space wherever two words or two numbers would run together, is read as those symbols |
| ScheduleTexts.PhraseIsRead | sched/parser.go:175-191 | any text that spells a phrase is parsed as that phrase |
| ScheduleTexts.NoonOverTheWeekend | sched/parser.go:301-310 | "At 12 PM on fri-mon" is noon on Friday, Saturday, Sunday and Monday |
| ScheduleTexts.EightInWinter | sched/parser.go:385-406 | "at 8 from 12/1 to 1/15/17", read in 2016: every day at 8, from 1 December of any year to 15 January 2017 |
| ScheduleMeaning.HourIsShown | sched/parser.go:301-312 | the hour is the one at which a clock with am and pm shows the written hour, before noon with am and from noon with pm; with neither it is taken modulo 24 |
| ScheduleMeaning.WeekIsNumbered | sched/parser.go:363-383 | Sunday to Saturday are 0 to 6 |
| ScheduleMeaning.AllDaysCover | sched/parser.go:326-361 | the parsed weekdays are those covered by some written range, which goes on from Saturday to Sunday |
| ScheduleMeaning.ParsedRuns | sched/parser.go:236-283 | a parsed schedule wants to run exactly when the weekday is covered by a written range, if any is written, and a wall clock shows one of the written times |
| ScheduleMeaning.ParsedWindow | sched/parser.go:385-406 | From and To have the written month and day; a year of two digits is in the present century, a longer one is itself, and none is any year |

## Left out

- MQTT, HTTP, the client, configuration, logging, `OnUpdateState`, program update channels and `main`: input and output around the core.
- GPIO: the outputs are the set of interface ids that are on.
- `quit`: it ends the event loop and changes nothing.
- The clock is read once per step: the start time, the pause time and the moment from which the timer counts are the same instant within one step.
- Every send on a Done channel completes in the model. A send can block only when it is a run's second, and `RunnerSignals.SignalledOnceIff` says when there is one.
- int32 wrap-around of run ids and overflow of parsed numbers: integers are unbounded.
- SRQueues.SRQueue.RemoveBulk: RemoveWithSection and RemoveAll have the same loop and are one method with a test as parameter.
- SRQueues.SRQueue.ForEach: takes a function of the unchanging part of a run, without effects; which calls are made, and in what order, is stated. The one use with an effect, ToSlice, has its own loop.
- Programs.Program.Run: is one goroutine's view, without other goroutines in between: the times of its submissions and the wait that a cancel ends are parameters; the interleavings are those of `ProgramSpec`, one step per turn of each loop. The program's runs are assumed to be received in the order in which its goroutine sent them, as a channel does.
- `Program.start` and the JSON updates: no liveness is claimed for sends that wait for the other side.
- Time zones and daylight saving: a fixed-offset clock of 24-hour days. `NextRunTime` and the current century take the present time as a parameter.
- Unicode: patterns are matched on ASCII letters without regard to case.
- Error texts, `String` and `Format` methods.
