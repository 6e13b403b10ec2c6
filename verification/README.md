# lobsterai2api: verified model

lobsterai2api answers OpenAI-style chat requests with a pool of upstream accounts. This project models the stateful
core of that service in Dafny and proves what its parts promise, separately and together:

- the account pool (`Pool`, `PoolHistory`, `Restart`): health, cooldowns, error counts, the saved state file;
- the rotation of one request over the accounts, and what runs of failing requests cost (`Rotation`, `RotationLaws`);
- the SSE stream: aggregation into one response (`Json`, `Folds`, `ToolCalls`, `Sse`), which undoes sending it in parts
  (`Sending`), forwarding with a terminator (`Stream`), and the usage tap that watches it in arbitrary pieces (`Lines`,
  `Tap`, `UsageLines`);
- the timer settings and the loops that follow them (`Interval`, `Schedule`, `Protocol`, `Scheduler`, `TimerLoop`);
- the check-in log and its pages (`CheckinLog`), the request statistics (`Stats`, `StatsLaws`) and what a chat
  request does as a whole and adds to them (`ChatStats`), the one-shot login sessions (`OAuthSessions`) and the
  percent-encoder of the login tool (`Escape`).

`Text`, `Decimal`, `Int64`, `Arith`, `Durations`, `Sets`, `MapSums` and `Options` hold what the others share. Go's
objects and loops are Dafny classes, methods and loops, each proved equal to a function on values; the laws are lemmas
about those functions. A Go string is a Dafny string with one character per byte. Times are integer nanoseconds passed in as arguments, Go's
zero time is 0, local time has a fixed offset, and `int`, `int64` and `time.Duration` wrap at 64 bits where the
arithmetic can get there (`Int64`). Everything outside the modelled code (the upstream, the clock, other requests, the
JSON decoder, file contents, map iteration order) is an arbitrary argument or a free choice, so the results hold for
all of it.

The code departs from its own comments in these places; the model follows the code, says exactly when the promise
holds, and names an input for which it does not:

- `Stream` is described as always writing a `[DONE]` line. It does so if and only if the upstream sent one or ended its
  last line (`Stream.DoneGuaranteedWhenTerminated`, `Stream.UnterminatedStreamFails`); the same condition makes
  forwarding idempotent.
- `Aggregate` is described as stopping at `[DONE]`. It reads on to the end of the stream. The chunks read are the same
  if and only if no later line carries one (`Stream.StoppingAtDoneExactly`), and then so is the response
  (`Stream.SameWithoutLaterChunks`); a later chunk can change it (`Stream.ReadsPastDone`).
- `Reset` is described as restoring the loaded defaults. It forgets the configured model-refresh hours
  (`Schedule.ResetMatchesRestartExactly`, `Schedule.ResetForgetsModelHours`).
- `Page` computes its start in 64 bits; a page number near the top of the range can overflow into a wrong page or a
  panic (`CheckinLog.PageCorrectExactly`, `CheckinLog.PagePanics`, `CheckinLog.PageWrapsAround`).
- Hours are described as 0-23, but the model-refresh hours of the configuration and all hours of the saved file are not
  checked. An hour is served at its time if and only if it is 0-23 (`Scheduler.HourServedExactly`), and no instant is
  served twice if and only if no hour is negative (`TimerLoop.NoSlotTwiceExactly`): with hour -1 the loop serves one
  instant at every ring until midnight, check-in included (`TimerLoop.MinusOneRepeats`). The distance between credit
  refreshes does not depend on the hours (`TimerLoop.RunIsOrderly`).
- The statistics are described as counting each completed chat. A request counts a failure for every attempt that
  reached the upstream in vain, failed refreshes not at all, and a streamed answer counts a success for each usage
  line, so none without one (`ChatStats.RequestCounts`, `ChatStats.StreamWithoutUsage`).
- The usage tap is described as parsing complete lines, whatever the reads. It does so for every cut if and only if no
  complete line reports differently after losing a first part, down to 65536 bytes (`Tap.ChunkIndependenceExactly`,
  `Tap.LongLineDependsOnCut`); lines of at most 65536 bytes are never changed.

## Model

| member | source | states |
|---|---|---|
| AccountPool.Pool.constructor | internal/pool/pool.go:86-92 | A new pool holds exactly the saved accounts, with placeholder credentials and no error counts, or nothing when there is no state file. |
| AccountPool.Pool.Add | internal/pool/pool.go:95-103 | Adding known credentials keeps the account's whole state; unknown ones start a fresh account; the file is not written. |
| AccountPool.Pool.PickExcluding | internal/pool/pool.go:131-151 | Returns one of the richest healthy untried accounts, whatever the iteration order, and nothing exactly when there is none. |
| AccountPool.Pool.SaveLocked | internal/pool/pool.go:324-359 | The file then names every account with its credits, disabled flag, reason and cooldown, and nothing else. |
| AccountPool.Pool.SetCredits | internal/pool/pool.go:164-171 | Changes one account's credits, leaves every other account alone, and saves. |
| AccountPool.Pool.Cooldown | internal/pool/pool.go:174-183 | Cools one account until now + d, forgives its errors, and saves. |
| AccountPool.Pool.Disable | internal/pool/pool.go:186-194 | Disables one account without touching its cooldown or errors, and saves. |
| AccountPool.Pool.ReenableIfCredits | internal/pool/pool.go:197-209 | Takes over the balance always, but ends the cooldown and forgives errors only with credits left and the account not disabled. |
| AccountPool.Pool.NoteError | internal/pool/pool.go:212-224 | Counts an error, or starts a cooldown and a new count when the threshold is reached. |
| AccountPool.Pool.NoteSuccess | internal/pool/pool.go:227-233 | Forgives errors and writes no file. |
| AccountPool.Pool.Enable | internal/pool/pool.go:236-246 | Ends both a disablement and a cooldown and forgives errors. |
| AccountPool.Pool.ForceCooldown | internal/pool/pool.go:249-258 | Cools one account by hand. |
| AccountPool.PickIsUntried | internal/pool/pool.go:131-151 | The picked account is filed under the uid that the request marks as tried, so it was not tried before. |
| AccountPool.ApplyKeepsKeys | internal/pool/pool.go:95-103 | Every operation keeps accounts filed under their own uid, on which the exclusion of tried accounts rests. |
| PoolHistory.ErrCountIsStreak | internal/pool/pool.go:174-258 | After any run of operations, errCount is the number of errors noted since the last forgiving operation, modulo the threshold; so it stays below the threshold. |
| PoolHistory.DisabledIsLastSwitch | internal/pool/pool.go:186-246 | After any run, an account is disabled exactly if its last Disable or Enable was a Disable. |
| PoolHistory.TripsExactlyAtThreshold | internal/pool/pool.go:212-224 | An error starts a cooldown exactly when it is a multiple of the threshold in its streak, and otherwise changes nothing but the count. |
| PoolHistory.FieldsAreHistory | internal/pool/pool.go:164-258 | After any run, until lies beyond t exactly if the last cooldown, by hand, by a penalty or by a tripping error, ends after t and no enabling or effective refill came since; credits and reason are the last ones told. |
| PoolHistory.AvailableExactly | internal/pool/pool.go:58-66 | After any run, an account can be picked at t if and only if its last switch was not a Disable and no such cooldown lasts. |
| Restart.Start | cmd/server/main.go:46-49 | Starting up is loading the state file and adding the credentials found, in order. |
| Restart.AlwaysSynced | internal/pool/pool.go:95-359 | Over every run, restarts included, the file agrees with memory and the accounts it does not name are as new. |
| Restart.RestartRestores | internal/pool/pool.go:304-322 | Loading and re-adding the same credentials gives back the same accounts, error counts apart. |
| Restart.RestartKeepsPicks | internal/pool/pool.go:131-151 | After a restart the same accounts are healthy and exactly the same picks are possible, for every time and tried set. |
| Restart.DisabledUntilEnabled | internal/pool/pool.go:186-246 | A disabled account stays disabled through any operations and restarts that do not enable it. |
| Rotation.WithDefaults | internal/server/handler.go:54-72 | Each limit, threshold and duration in force is the configured one if that is positive, and otherwise its own default. |
| Rotation.Settle | internal/server/handler.go:242-294 | Each way an attempt can end applies its own penalty, and no other change, to the attempted account. |
| Rotation.TryOne | internal/server/handler.go:235-296 | One pass picks a best untried account, asks the upstream with its credentials and settles it as answered, with anybody's operations before and in between. |
| Rotation.CountFailure | internal/server/handler.go:254-269 | Transport errors and refusals are recorded as failures of the request's model, other outcomes not at all. |
| Rotation.Rotate | internal/server/handler.go:232-329 | Under any interference, clock and upstream: at most maxRotate attempts, each on a best untried account of its moment, with the outcome the upstream gave for its credentials, settled by it and recorded; served exactly when the last attempt succeeded, else refused after failures only, with no account left if attempts were. |
| RotationLaws.SettledAccount | internal/server/handler.go:242-295 | For every way an attempt can end: from when on its account can be picked again, its error count and reason; credentials and credits never change. |
| RotationLaws.AttemptsAreDistinct | internal/server/handler.go:232-239 | No request attempts an account twice, whatever happens around it. |
| RotationLaws.AttemptsAreTopAccounts | internal/pool/pool.go:131-151 | Without interference, the attempted accounts were all healthy at the start, are used in order of credits, and are at least as rich as every healthy account not attempted. |
| RotationLaws.OthersUntouched | internal/server/handler.go:232-294 | Accounts a request does not attempt are left exactly as they were. |
| RotationLaws.FailedRequestLength | internal/server/handler.go:234-238 | Without interference, a request that fails throughout makes exactly min(maxRotate, healthy accounts) attempts. |
| RotationLaws.UnservedRequest | internal/server/handler.go:325-329 | The same for what Rotate itself returns on a quiet pool, with all other accounts unchanged. |
| RotationLaws.AttemptCosts | internal/server/handler.go:242-294 | Every way of failing strictly lowers the sum, over healthy accounts, of the errors each can still take. |
| RotationLaws.StormIsBounded | internal/server/handler.go:232-329 | However many requests fail one after the other, together they make at most threshold attempts per initially healthy account. |
| RotationLaws.StormEndsInRefusal | internal/server/handler.go:232-329 | After more failing requests than threshold per initially healthy account, each run to its limit or out of accounts, no pick finds an account. |
| RotationLaws.RunKeepsBounded | internal/pool/pool.go:212-224 | Error counts stay below the threshold over every run of operations. |
| ToolCalls.MergeToolCallDelta | internal/upstream/sse.go:154-180 | Merging one more delta gives what the whole list of deltas amounts to: last non-empty id, type and name, and joined arguments. |
| ToolCalls.CallsDependOnOwnDeltas | internal/upstream/sse.go:77-95 | The tool calls are determined by the deltas of each index separately. |
| ToolCalls.DifferentIndicesCommute | internal/upstream/sse.go:77-95 | Swapping neighbouring deltas of different indices does not change the tool calls. |
| Folds.SortInts | internal/upstream/sse.go:183-191 | The exchange sort orders the array in place and keeps its elements. |
| Folds.AscendingIsUnique | internal/upstream/sse.go:125-132 | A set of indices has only one ascending listing. |
| Folds.FirstIsFirst | internal/upstream/sse.go:45-50 | Id and model are the first non-empty ones, and empty only when all are. |
| Folds.LastIsLast | internal/upstream/sse.go:63-69 | Finish reason, role and tool-call names are the last non-empty ones, and empty only when all are. |
| Sse.Accumulator.AddCall | internal/upstream/sse.go:78-94 | One more tool-call delta keeps exactly one merged call, and one place in the order, per index seen. |
| Sse.Accumulator.OrderedCalls | internal/upstream/sse.go:125-132 | The listed calls are one per index seen, strictly ascending, and absent only when there were no deltas. |
| Sse.Accumulator.AddChoice | internal/upstream/sse.go:58-103 | One more choice keeps every running value equal to its description over all choices seen. |
| Sse.Accumulator.AddChunk | internal/upstream/sse.go:43-105 | One more chunk keeps every running value equal to its description over all chunks seen. |
| Sse.Aggregate | internal/upstream/sse.go:17-150 | For every stream and decoder, the response is the one its chunks describe, read to the end of the stream; there is none exactly when reading fails. |
| Sending.SentIsReceived | internal/upstream/sse.go:17-180 | Whatever parts are sent as chunks, with non-objects anywhere in the arrays, the response has the first id, model and time, the last role, finish reason and usage, the joined texts, and per index one joined tool call. |
| Sending.WireIsReceived | internal/upstream/sse.go:17-150 | The same for parts encoded by any encoder the decoder undoes and sent as data lines, with or without a space and with either line ending, up to [DONE]; and such a stream is forwarded unchanged. |
| Stream.ResponseIsDetermined | internal/upstream/sse.go:112-150 | That description leaves no freedom: chunks, made-up id and time fix the response. |
| Stream.ContentIs | internal/upstream/sse.go:58-102 | The content is the message texts of the choices before the first one with streamed text, followed by the streamed texts from there on. |
| Stream.StreamedTextWins | internal/upstream/sse.go:70-102 | When the first choice streams text, the content is the streamed text and whole messages are ignored. |
| Stream.MessagesWithoutStreamedText | internal/upstream/sse.go:97-102 | When no choice streams text, the content is the message texts joined. |
| Stream.Forward | internal/upstream/sse.go:195-235 | The client receives the stream unchanged, plus the terminator exactly when the stream ended without a [DONE] line; if a write is refused, the writes before it and what arrives of it; a failure is reported exactly if a write that is reached or the read fails. |
| Stream.ReceivedWithin | internal/upstream/sse.go:195-235 | What is received is a beginning of the stream with its terminator, and all of it if no write is refused. |
| Stream.StoppingAtDoneExactly | internal/upstream/sse.go:36-110 | Reading on past [DONE] finds the chunks that stopping there would if and only if no later line carries a chunk, for every stream and decoder. |
| Stream.SameWithoutLaterChunks | internal/upstream/sse.go:36-150 | In that case the response is the one that stopping at [DONE] would give. |
| Stream.ReadsPastDone | internal/upstream/sse.go:36-150 | A stream whose response takes its id from a chunk after [DONE], where stopping would make one up. |
| Stream.UnterminatedStreamFails | internal/upstream/sse.go:193-235 | A stream that neither sends [DONE] nor ends its line: the client sees no [DONE] line, its chunk is lost, and forwarding again changes the stream. |
| Stream.DoneGuaranteedWhenTerminated | internal/upstream/sse.go:193-235 | The forwarded stream has a [DONE] line if and only if the upstream sent one or ended its last line. |
| Stream.ForwardingIsIdempotent | internal/upstream/sse.go:195-235 | Forwarding twice equals forwarding once in exactly the same cases. |
| Stream.ForwardingKeepsChunks | internal/upstream/sse.go:195-235 | Forwarding keeps the chunks if and only if there was a [DONE] line or the unfinished last line carries none. |
| Stream.AggregateAfterForward | internal/upstream/sse.go:31-235 | Aggregating the forwarded stream gives the response of the original one. |
| Lines.Rebuild | internal/stats/tap.go:51-57 | Cutting a stream at newlines loses nothing. |
| Lines.CompleteAppend | internal/stats/tap.go:50-57 | A stream may be cut anywhere: its unfinished tail joins what follows. |
| Tap.TapReader.Feed | internal/stats/tap.go:41-68 | Feeding a piece reports the usage of every line it completes, keeps the clipped tail, and without an observer only clips. |
| Tap.TapReader.ReadAll | internal/stats/tap.go:21-30 | The bytes pass through unchanged, pending stays within 65536, and unless a clipped line reports differently the calls are those of the whole stream's lines. |
| Tap.ChunkIndependenceExactly | internal/stats/tap.go:41-68 | Every cut into reads gives the calls of the complete lines if and only if no complete line reports differently after losing j bytes, for any j that leaves 65536. |
| Tap.ChunkIndependence | internal/stats/tap.go:41-68 | If complete lines have at most 65536 bytes, the calls do not depend on how the stream is cut into reads. |
| Tap.LongLineDependsOnCut | internal/stats/tap.go:65-67 | The usage line LongLine() fails that condition: reported once in one read, lost when its newline comes in a second one. |
| Tap.FindIntValue | internal/stats/tap.go:89-122 | The loops compute the wrapped 64-bit value of the first number after the key, or -1. |
| Tap.IntAfterInvertsPrint | internal/stats/tap.go:89-122 | A printed number below 2^63 after the first occurrence of the key is read back, whatever surrounds it. |
| Tap.IntAfterInvertsSigned | internal/stats/tap.go:89-122 | A printed number with a sign is read back with that sign. |
| Tap.NoIntIsMinusOne | internal/stats/tap.go:89-122 | Without the key, or without a number after it, the result is -1. |
| Tap.NoOverflowOnTheWay | internal/stats/tap.go:108-114 | The accumulator never overflows while reading such a number. |
| Tap.UsageInvertsPrint | internal/stats/tap.go:73-86 | Both counts of a usage line are read back, in either order. |
| UsageLines.ShownIsReported | internal/stats/tap.go:50-86 | A data line that names its usage is reported with just its two counts. |
| UsageLines.NothingShownIsNotReported | internal/stats/tap.go:58-86 | A line that is not a data line, or lacks one of the three keys, is not reported. |
| Interval.AcceptedIntervals | internal/schedule/schedule.go:133-146 | Some text is accepted as interval d if and only if d is 0 or a 64-bit duration of at least a minute. |
| Interval.RoundTripExactly | internal/schedule/schedule.go:133-166 | For every 64-bit duration, fractions of a second included, formatting and parsing give it back if and only if it is 0 or at least a minute. |
| Schedule.ValidateHours | internal/schedule/schedule.go:123-130 | Accepts exactly the lists of hours 0 to 23. |
| Schedule.Settings.Load | internal/schedule/schedule.go:39-68 | The file's settings win over the defaults unless the file or its interval is not readable; the change channel is open. |
| Schedule.Settings.Set | internal/schedule/schedule.go:85-95 | Replaces and saves the settings, closes the channel handed out before, and installs an open one. |
| Schedule.Settings.Reset | internal/schedule/schedule.go:98-113 | Either nothing changes, because the file cannot be removed, or the file is gone, the defaults hold and the old channel is closed. |
| Schedule.SetSurvivesRestartExactly | internal/schedule/schedule.go:39-190 | Saved settings come back after a restart under all defaults if and only if the interval is 0 or at least a minute. |
| Schedule.ResetMatchesRestartExactly | internal/schedule/schedule.go:97-113 | A remark on Reset: it gives what a restart without a file would give if and only if no model-refresh hours are configured. |
| Protocol.NoLostChange | internal/scheduler/scheduler.go:61-108 | In every interleaving of setting changes and any number of loops, each loop is up to date or holds a closed channel, only the current channel is open, and none is closed twice. |
| Protocol.ToldLoopCatchesUp | internal/scheduler/scheduler.go:102-108 | A told loop is up to date after its next step; a loop that is not told is up to date already. |
| Protocol.ChangeTellsEveryLoop | internal/schedule/schedule.go:85-113 | After any change, every loop finds its channel closed. |
| Scheduler.FindNextFire | internal/scheduler/scheduler.go:41-53 | The loop finds the earliest of the hours' next instants. |
| Scheduler.NextFireIsLeast | internal/scheduler/scheduler.go:41-53 | For hours 0-23 that is the least instant after now at which a listed hour strikes, at most 24 hours away. |
| Scheduler.MergedTimerIsEarliest | internal/scheduler/scheduler.go:64-71 | One timer over joined lists rings when the first of separate timers would. |
| Scheduler.JobFiresOnItsOwnTimer | internal/scheduler/scheduler.go:86-97 | When the merged timer rings, a list names the hour if and only if a timer of its own would ring then. |
| Scheduler.DispatchMatchesOwnTimers | internal/scheduler/scheduler.go:86-97 | The jobs dispatched are exactly those whose own timers ring, and there is at least one. |
| Scheduler.HourServedExactly | internal/scheduler/scheduler.go:41-53 | The instant found for an hour strikes that hour if and only if the hour is 0-23. |
| Scheduler.NextFireIsLaterExactly | internal/scheduler/scheduler.go:41-53 | The timer is armed for a future instant at every time of day if and only if no hour is negative. |
| TimerLoop.Run | internal/scheduler/scheduler.go:57-111 | The event loop does what Play describes, for all settings, changes by others, wake-ups and clocks: what is served when, which jobs run, when credits are refreshed, and which settings the loop then follows. |
| TimerLoop.Others | internal/schedule/schedule.go:85-113 | Any changes by others leave the last accepted settings, and the old channel closed exactly if there was one. |
| TimerLoop.Loop.OnTimer | internal/scheduler/scheduler.go:84-101 | A ring serves the hour exactly if it has come and refreshes credits exactly if that is due. |
| TimerLoop.Loop.OnChanged | internal/scheduler/scheduler.go:102-108 | A noticed change replaces the loop's copy and channel and plans the next refresh afresh. |
| TimerLoop.RunIsOrderly | internal/scheduler/scheduler.go:57-111 | Over every run with a clock that never goes back, whatever the hours: refreshes keep the interval in force between them, no instant is served early, each runs the jobs of its hour, and the loop is up to date unless told. |
| TimerLoop.SettingsAreHistory | internal/scheduler/scheduler.go:61-108 | The settings are those of the last effective change, and the loop goes by those it found when it last caught up. |
| TimerLoop.RefreshExactly | internal/scheduler/scheduler.go:62-118 | One more turn makes one more credit refresh if and only if the timer rings in it, refreshes are on, and the interval in force has passed since the last refresh, or the last catching-up or the start if later. |
| TimerLoop.SlotExactly | internal/scheduler/scheduler.go:57-97 | One more turn serves one more instant if and only if the timer rings in it and an hour in force has struck since it was armed: the first such instant, with the jobs whose lists name its hour. |
| TimerLoop.SlotsIncrease | internal/scheduler/scheduler.go:66-97 | Across any setting changes, an instant served while no hour in force is negative is later than every instant served before. |
| TimerLoop.NoSlotTwiceExactly | internal/scheduler/scheduler.go:41-97 | Under given settings no run serves instants out of order or twice if and only if no hour is negative. |
| TimerLoop.MinusOneRepeats | internal/scheduler/scheduler.go:41-97 | With model-refresh hour -1 the 23 o'clock check-in is run at every ring until midnight, however many there are. |
| CheckinLog.Store.Load | internal/checkin/checkin.go:44-62 | Loading keeps the last max records of the file, 500 if no positive limit is given. |
| CheckinLog.Store.Add | internal/checkin/checkin.go:65-73 | Adding keeps the last max records and saves them. |
| CheckinLog.Store.List | internal/checkin/checkin.go:76-80 | The newest records, newest first. |
| CheckinLog.Store.Filter | internal/checkin/checkin.go:118-139 | Exactly the records whose status is not excluded, in order; empty names exclude nothing. |
| CheckinLog.KeptExactly | internal/checkin/checkin.go:118-139 | The kept records are just those, in order, whose status is empty or not among the excluded names. |
| CheckinLog.Store.Page | internal/checkin/checkin.go:87-115 | The page that 64-bit arithmetic selects, or the panic it runs into. |
| CheckinLog.HoldsLastOfHistory | internal/checkin/checkin.go:44-73 | After loading and any additions, the log is the last max records of the full history. |
| CheckinLog.PageCorrectExactly | internal/checkin/checkin.go:96-114 | The wanted page is returned if and only if the start does not overflow or still lands past the oldest record. |
| CheckinLog.PagePanics | internal/checkin/checkin.go:87-115 | A page number at which a non-empty log of up to 500 records panics instead of giving an empty page. |
| CheckinLog.PageWrapsAround | internal/checkin/checkin.go:87-115 | A page number at which the newest records are given instead of an empty page. |
| CheckinLog.PagesCoverLog | internal/checkin/checkin.go:82-115 | For every page size and exclusion, enough pages joined are the kept records in reverse, and later pages are empty. |
| CheckinLog.FirstPageIsList | internal/checkin/checkin.go:76-115 | The first page of k records equals the list of the k newest. |
| Stats.Recorder.RecordTokens | internal/stats/stats.go:124-146 | A success with its tokens is counted once globally and once in its model's row, and nowhere else. |
| Stats.Recorder.AddFailure | internal/stats/stats.go:149-164 | A failure is counted once globally and once in its model's row, nameless models under "unknown". |
| StatsLaws.Report | internal/stats/stats.go:183-213 | The snapshot holds the totals, their tokens and success rate, and every row once, strictly ordered, with its own rate. |
| StatsLaws.RateIsShare | internal/stats/stats.go:189-211 | While counters have not wrapped, the reported rate is a fraction between 0 and 1 whose share of all requests is the successes. |
| StatsLaws.AlwaysConsistent | internal/stats/stats.go:124-180 | Over every run, totals are successes plus failures and every global counter is the sum of the rows, in 64-bit arithmetic. |
| StatsLaws.RecorderIsConsistent | internal/stats/stats.go:124-180 | So it is for every recorder that started empty. |
| StatsLaws.AddedIsNatural | internal/stats/stats.go:124-130 | Negative counts of the upstream never lower a counter. |
| StatsLaws.StartIsFirstEvent | internal/stats/stats.go:133-135 | The start of the statistics is the time of the first event, and stays. |
| StatsLaws.RowsCountOwnEvents | internal/stats/stats.go:124-180 | Each row's counters add up exactly the events of its own model. |
| StatsLaws.ReportRows | internal/stats/stats.go:186-199 | The report lists every row once, strictly ordered by requests and name. |
| StatsLaws.LessIsBytewise | internal/stats/stats.go:198 | Names are compared at the first byte in which they differ. |
| StatsLaws.ReportIsDetermined | internal/stats/stats.go:194-199 | There is only one such list, so the report does not depend on map iteration order. |
| ChatStats.RecordReports | internal/server/handler.go:297-304 | Every usage report of a streamed answer is recorded, in the order found, and nothing else. |
| ChatStats.AnswerWith | internal/server/handler.go:297-323 | The serving account's body is forwarded with its terminator or aggregated into its response, and its usage is recorded; a body that cannot be read is an error and records nothing unless streamed, and a stream that breaks off is followed by an error object. |
| ChatStats.StreamedAnswer | internal/server/handler.go:298-311 | A client that accepts every write gets the whole stream with its terminator, and an error object after it exactly if the body broke off. |
| ChatStats.ChatCompletions | internal/server/handler.go:232-329 | The whole request, under any interference: rotation by the upstream's answers, reply and pool as stated above, and the statistics move by exactly the failures of its attempts and the usage of its answer, beside what everybody else records. |
| ChatStats.RequestCounts | internal/server/handler.go:255-323 | From before to after ChatCompletions, the model's row counts one failure per attempt that reached the upstream in vain, and one success if aggregated readably or one per usage line streamed, and their sum in total, beside what everybody else adds. |
| ChatStats.AggregatedTokens | internal/server/handler.go:312-343 | An aggregated answer moves its model's token counters by just the two counts its last usage object names, 0 for none, beside what everybody else adds. |
| ChatStats.StreamedTokens | internal/server/handler.go:298-304 | A streamed answer moves them by the sums of the counts its lines name, with one success per such line. |
| ChatStats.StreamWithoutUsage | internal/server/handler.go:298-304 | A stream that is forwarded whole, ends with [DONE] and counts no success. |
| OAuthSessions.Sessions.Put | internal/server/admin.go:69-85 | Expired sessions are dropped; the login is added with its lifetime unless 32 sessions remain. |
| OAuthSessions.Sessions.Take | internal/server/admin.go:88-100 | The session is consumed, and its login is given unless it has expired. |
| OAuthSessions.AtMostMaxSessions | internal/server/admin.go:80-83 | No run holds more than 32 sessions. |
| OAuthSessions.TakeSucceedsExactly | internal/server/admin.go:88-100 | A take gives a login if and only if it is that of the id's latest accepted put, untaken since and not past its lifetime. |
| OAuthSessions.TakenAtMostOncePerPut | internal/server/admin.go:87-100 | No id is taken more often than it was put. |
| OAuthSessions.PutRefusedExactly | internal/server/admin.go:75-83 | A put is refused if and only if 32 unexpired sessions remain. |
| Escape.UrlQueryEscape | cmd/login/main.go:246-260 | The loop computes the encoding, byte by byte. |
| Escape.DecodeUndoesEscape | cmd/login/main.go:246-260 | Percent-decoding undoes the encoding for every byte string (section 2.1 of RFC 3986). |
| Escape.EscapeIsInjective | cmd/login/main.go:246-260 | Different byte strings have different encodings. |
| Escape.PlainExactly | cmd/login/main.go:246-260 | Just the unreserved characters, slash and colon stand for themselves; every other byte becomes a triple. |
| Escape.EscapedIsWellFormed | cmd/login/main.go:246-260 | The output holds only unreserved characters, '/', ':' and well-formed %HH triples (sections 2.1 and 2.3 of RFC 3986). |

## Left out

- Rotation.Rotate: the outcome of an attempt, token refresh included, is an arbitrary input; HTTP, the error body shared between requests, and its keyword classification are not modelled.
- Rotation.CountFailure: the statistics are always on, and recorded after the pool operation even where the code does it before; the two share no state.
- ChatStats.AnswerWith: error objects are their status and code, without the message; the reads of the body end where the code stops reading, and other requests record nothing between the usage lines of one body.
- Sse.Aggregate: the JSON decoder is an arbitrary function on payload texts, and numbers beyond 64 bits are not modelled.
- Stream.Forward: flushing is not modelled.
- Stream.ForwardingKeepsChunks: assumes of the decoder only that a text ending in `]` is not an object.
- Interval.RoundTripExactly: in other texts than those FormatInterval prints, fractions are exact rather than 64-bit floating point.
- TimerLoop.Run: the jobs of an hour are recorded, not performed, and instants missed while a job runs are skipped as in the code; times and hours are unbounded integers.
- Protocol.NoLostChange: properties are per loop; that two loops are started, so that an hour is served twice, is not ruled out.
- StatsLaws.ReportRows: sort.Slice is replaced by insertion, which gives the same list by ReportIsDetermined.
- `SyncToDir`, `List`, `CreditsOf` and `AuthByUID` of the pool: no caller or plain lookups.
- In-place refresh of the tokens inside shared credentials: the pool reads only the uid.
- ChatStats.RequestCounts: a streamed body must meet the condition of Tap.ChunkIndependenceExactly, without which the count depends on the reads.
- StatsLaws.Report: success rates are exact quotients, not rounded ones.
- Locks: each method is one atomic step, as the mutexes make it.
- File formats and write failures: a state file is a map or record of values, and writes succeed.
- The model list store, configuration parsing, OAuth exchange, return-address parsing, the admin page, shell scripts and Docker files.
