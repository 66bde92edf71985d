# gemini-web2api-go: a verified model

gemini-web2api-go answers OpenAI-style requests by talking the web protocol of Gemini. This
project models the parts of it that carry state and proves what they keep.

- **Streaming.** Upstream frames repeat the whole text so far. A tracker turns them into deltas, a
  gate holds back whatever may be inside a tool-call fence, the handler sends the tail at the end,
  and two writers turn it all into events (`FenceGate`, `StreamPipeline`, `EventStreams`).
- **Exits.** Every exit address has a count of calls in flight and two sliding windows; a proxy
  pool with a circuit breaker and a copy in memory picks among them; a request driver acquires,
  retries, switches and releases, and leaves a log of what it sent and of what it booked on exits and
  accounts; a round of a conversation has a
  driver of its own (`RateLimit`, `ProxyPool`, `Egress`, `Effects`, `World`, `RequestLog`,
  `RequestDriver`, `RoundDriver`, `RequestRuns`).
- **Accounts.** Cookie strings are split and merged, accounts are picked, disabled and refreshed,
  and start-up settings are followed from restart to restart (`CookieJar`, `CookiePool`, `Seeding`).
- **Statistics.** Requests are rolled up by hour and by day while old ones are deleted (`Totals`,
  `Rollup`, `Scheduler`).
- **Conversations.** Fingerprints recognize the next round of a known conversation, which is why
  only the newest message is sent (`Conversation`, `StreamedChat`).

## How to read it

Objects whose methods change fields are classes here; loops are loops; each method is proved
against a specification function or predicate, and the theorems are lemmas and invariants about
those. What the network answers is an input, step by step (`RequestLog.Network`, `RoundDriver.RoundNet`); what
other requests do in between, and the outcome of database reads, are arbitrary, so a contract holds
for all of them. Time is an integer that never goes back.
Each function the program runs under a mutex is one atomic step; in `World` any number of steps of
other requests, of the panel and of the background jobs may run between two steps of a request.
SQL tables are maps from id to row; row ids are never used twice.

Text is a sequence of Unicode scalar values rather than bytes. Frames come out of a JSON decoder,
so they are valid UTF-8, and every marker the code searches for is ASCII; at scalar level the white
space that Go trims (`Text.IsSpace`) can be stated exactly. Where Go compares lengths in bytes the
model counts UTF-8 bytes (`StreamPipeline.ByteLen`).

## What turned out not to hold

Each of these is stated with the exact condition under which the code does what one would expect,
and with a run or an input on which it does not.

- *The streamed tail can be lost.* With tools, the client gets the text of the non-streamed reply
  except when the gate has sent leading white space and still holds something: then the tail is
  dropped (`StreamPipeline.StreamedEqualsNonStreamed`, `TailCanBeLost`).
- *An opened message item can stay open.* In the Responses stream the message is never closed
  exactly when deltas went out, the final text is empty and there are calls; and `output` lists items
  at other places than their output index exactly when there are calls and text went out as well
  (`EventStreams.StreamResponses`, `MessageStaysOpen`).
- *A call can be made after text was emitted*, although the comment at
  `internal/app/gemini.go:380-382` says otherwise: lines of an answer are relayed whatever its
  status, and the branch for a refused XSRF token goes round again without looking. Emitted means by
  the trackers, which is what the code looks at; with tools the gate may still hold that text. A call
  is late exactly if the answer before it refused the token, text of it was emitted, and a new token
  came; it is one call at most (`RequestLog.LateLawHolds`, `RequestDriver.Request.Run`, `RequestRuns.LateCall`).
- *Attachments can be missing.* The calls of a request carry all attachments exactly if no upload
  failed after the first attachment: the next exit takes the partial list for the whole one
  (`RequestRuns.HalfUploaded`). And every exit after the first adds another copy of a conversation
  sent as a file (`RequestRuns.SecondCopy`).
- *With attempts switched off a request crashes* on a nil error exactly when it got as far as
  generating over a proxy, could still switch, and no upload had failed. The settings page does not
  allow that value, the configuration file does (`RequestDriver.Request.Run`, `RequestRuns.Crash`). A
  round of a conversation does the same (`RoundDriver.Round.Run`).
- *A pool in which no read has found a proxy yet looks empty*, so a request goes direct although
  falling back is switched off. Without permission to fall back that happens exactly in the automatic
  mode without a remote pool, while the last complete read found nothing or there was none: when the
  first read fails, or when it finds an empty table and the read after the first proxy was added fails.
  Once a read has found a proxy, reads that fail do no harm as long as nothing is deleted
  (`Egress.NeverDirect`, `FirstReadFails`, `ProxyUnseen`, `StaysLoaded`).
- *A failed hourly query can lose its hour for good.* That is so exactly if, before a catch-up whose
  query for that hour is answered, one wrote a row of a later hour: a later hour that had requests and
  whose own query was answered (`Scheduler.StatsDb.FailedHour`, `LostHour`). A daily roll-up before
  the last hour's is short of that hour's requests (`Scheduler.StatsDb.DailyTick`); a deletion loses
  what was not rolled up before it (`Scheduler.StatsDb.RetentionSweep`).
- *Records made by a restart can pile up.* A seeded cookie that was refreshed once is never replaced
  by a new cookie file (`Seeding.RefreshedCookieStays`, `TwoSeededRecords`); a restart that cannot
  read the record or the notes about it leaves it in the pool for good, as soon as it notes a value,
  which can be the same one again (`Seeding.UnseenRecordStays`, `NoteUnread`); and a configured value
  that cannot be taken over costs the one before it for good (`Seeding.RevertAfterFailure`).
- *A migration can be lost or repeated.* It is marked as done exactly when the value is in the pool, or
  when there seems to be none, as when the setting cannot be read (`Seeding.MigrationIsNotLost`); it
  brings a removed value back exactly if its mark cannot be read and the record can be made again
  (`Seeding.RepeatedMigration`).
- *The identity guard can be passed* by a cookie of another account when the row cannot be read
  (`CookiePool.AccountPool.UpdateCookie`), and when a bar moves from one identifying value to the
  other (`CookiePool.RefreshPassesGuard`). An identity tells its two values exactly when neither holds
  a bar at which it could have been cut in two (`CookieJar.IdentityTells`, `IdentityCanCollide`).
- *Within one second the least recently used account can be the same one again.* A round of picks in
  one second is fair exactly if no account but the one with the least id was used in that second
  before (`CookiePool.AccountPool.PickWithinASecond`).
- *Two clients can end up in one conversation* after the same first message and the same answer
  (`Conversation.TwoClients`). A continued conversation is in step with its client exactly if the
  client's messages are as many as the rounds say (`Conversation.WhenInStep`); stale keys stay in the
  store. Without separators in the contents the fingerprint determines the messages; with them it
  does so only for a single message that has no unit separator (`Conversation.CanonicalDetermines`).
- *A streamed conversation with tools can fall out of the store*, although the comment at
  `internal/app/conversation.go:558-559` says that the client brings the stored text back: it brings
  back what it was streamed. It is found again exactly if that is a prefix of the reply, so not when
  the text starts with white space, or ends with it before a call behind which nothing follows
  (`StreamedChat.ChainContinues`, `NextRound`, `LineBeforeCall`).
- *A conversation does not keep its exit*, although the comments at
  `internal/app/conversation.go:20-21` and `:245` say so. The exit a good answer came over is the one
  noted, except exactly after a later round that did not switch and began over another exit than the
  noted one. A round begins over the noted exit exactly under these conditions
  (`Egress.Exits.GetsAgain`, `RoundDriver.Round.Run`): a static proxy if the mode uses them and it can
  be had, or, while its URL is cooling down and it is not preferred, if it is the sticky one or the next
  in turn; a dynamic exit if no static proxy can be had and the sticky exit, or else the first good
  answer of the remote pool, names it; the direct connection if nothing else can be had, and it is
  permitted and has room (`RequestRuns.OtherExit`, `SwitchedExit`, `OtherDynamic`,
  `StaysWithCooling`).

## Model

| member | source | states |
|---|---|---|
| FenceGate.PartialPrefixLen | internal/app/messages.go:348-359 | the longest proper prefix of the marker at the end of the text: no longer one exists |
| FenceGate.ToolFenceGate.Push | internal/app/messages.go:319-342 | after any pushes the gate is in the state of one push of the whole text, and what it emitted adds up to what it sent |
| FenceGate.Continue | internal/app/messages.go:319-342 | feeding more text to the gate of a text is the gate of the longer text |
| FenceGate.ChunkingInvariance | internal/app/messages.go:319-342 | however a text is cut into pushes, sent text, held text and fence flag are the same |
| FenceGate.FindFenceIsFirst | internal/app/messages.go:365-366 | the search is the leftmost, non-greedy match of the pattern, or there is none |
| FenceGate.ParseToolCalls | internal/app/messages.go:368-393 | the fences of the text, each the first match behind the one before and none behind the last: the text outside them, trimmed, and exactly one call for each fence that decodes, in order |
| FenceGate.GateRefinesStrip | internal/app/messages.go:319-342 | sent text plus held text is the text with every complete match of the regular expression removed |
| FenceGate.SentGrows | internal/app/messages.go:303-316 | what was sent is never taken back |
| FenceGate.CompletionDrains | internal/app/messages.go:319-342 | whatever is held can still become part of a fence: one more piece of text makes all of it vanish |
| FenceGate.GateIsOptimal | internal/app/messages.go:319-342 | the gate has sent exactly what is safe: every sent prefix survives all later text, and no longer prefix does |
| StreamPipeline.DeltaTracker.Push | internal/app/gemini.go:367-375 | the delta is not empty exactly if the trimmed frame properly extends what was emitted, and then it is the rest |
| StreamPipeline.ChainIsTracked | internal/app/gemini.go:367-375 | over frames that each extend the one before, the deltas add up to the trimmed last frame |
| StreamPipeline.ExtractResponseText | internal/app/gemini.go:1100-1118 | the last text that is not blank, trimmed |
| StreamPipeline.LastOfChain | internal/app/gemini.go:1100-1118 | over such frames that is the trimmed last frame |
| StreamPipeline.ExtractReasoning | internal/app/gemini.go:1029-1037 | the first of the longest reasoning texts, by bytes |
| StreamPipeline.LongestOfChain | internal/app/gemini.go:1029-1037 | over such frames that is the last one |
| StreamPipeline.ClientGetsTextIffPrefix | internal/app/server.go:446-455 | streamed text plus tail is the final text exactly if what was streamed is a prefix of it; otherwise the tail is nothing |
| StreamPipeline.GatedAgreement | internal/app/server.go:435-455 | behind the gate the client's text is the cleaned text up to surrounding space, except exactly when space was sent first and something is held |
| StreamPipeline.TailCanBeLost | internal/app/server.go:435-455 | an input on which the client gets a line break instead of the text |
| StreamPipeline.StreamedEqualsNonStreamed | internal/app/server.go:388-396 | streamed and non-streamed requests give the client the same text: exactly without tools, and with tools up to surrounding space in all but the losing case |
| StreamPipeline.ReasoningArrivesWhole | internal/app/server.go:383-387 | streamed reasoning plus its tail is the whole reasoning chain |
| StreamPipeline.Relay.OnText | internal/app/gemini.go:471-475 | tracker and gate behind one another send what the specification sends for the text tracked so far |
| EventStreams.SseWriter.Finish | internal/app/sse.go:108-126 | a finished stream is one a strict client accepts, with role chunk, finish, optional usage and `[DONE]` in place |
| EventStreams.SseWriter.Fail | internal/app/sse.go:130-144 | a failed stream ends with an error chunk and `[DONE]` |
| EventStreams.NothingAfterDone | internal/app/sse.go:108-144 | in a stream a strict client accepts, `[DONE]` stands at the end if anywhere, and the stream is closed exactly if it does |
| EventStreams.StreamChat | internal/app/server.go:311-398 | for all upstream lines, of refused answers and of the one taken, and all failures: a plain error exactly if nothing was sent, otherwise a well-formed stream with exactly the text, reasoning and calls of the pipeline; how it ends, event by event: the error, or the tails, the calls, the finish reason and `[DONE]` |
| EventStreams.TakeReply | internal/app/conversation.go:547-557 | the reply in an answer, or none, by the last text in it and the fences of that: what counts as none in the single-turn and in the multi-turn path |
| EventStreams.ResponsesWriter.WriteCall | internal/app/server.go:753-772 | the three events of a call, at the next output index, which a strict client takes as one finished item |
| EventStreams.ResponsesWriter.Complete | internal/app/server.go:748-806 | calls first, then the message, then `response.completed` with the `output` array |
| EventStreams.AcceptedIndicesDistinct | internal/app/server.go:603-675 | in every accepted stream finished items sit at distinct output indices below the next free one |
| EventStreams.CallsMatchOutput | internal/app/server.go:715-806 | when the finished items stand in `output` at their output indices |
| EventStreams.StreamResponses | internal/app/server.go:603-806 | for the same inputs a strict client accepts the Responses stream; its items and the `output` array, entry by entry; exactly when its message item is closed, absent or left open, and when `output` matches the indices; a failed one ends with what went wrong |
| EventStreams.MessageStaysOpen | internal/app/server.go:748-806 | a run that leaves the opened message item open |
| RateLimit.PruneTimestamps | internal/app/ratelimit.go:173-183 | exactly the times not before the cutoff, in order |
| RateLimit.IpSlot.TryAcquire | internal/app/ratelimit.go:63-89 | granted exactly if the calls in flight, and the grants of the last minute and hour over the whole history, are below their limits, and otherwise the first limit that is reached is the reason; one more call in flight and one more grant exactly on success |
| RateLimit.IpSlot.Release | internal/app/ratelimit.go:92-99 | one call less in flight, never below zero |
| RateLimit.IpSlot.GetUsage | internal/app/ratelimit.go:112-128 | the windows count what the whole history holds in the last minute and hour |
| RateLimit.Moves | internal/app/ratelimit.go:63-99 | over every run of acquisitions and releases the calls in flight never exceed the limit |
| RateLimit.RateBound | internal/app/ratelimit.go:63-89 | in any run every closed interval of a minute or an hour holds no more grants than the limit in force at its last grant |
| RateLimit.FixedRateBound | internal/app/ratelimit.go:63-89 | with fixed limits no closed minute holds more than the one, no closed hour more than the other |
| RateLimit.SlotTable.TryAcquire | internal/app/ratelimit.go:40-89 | of all exits only this one's load changes |
| ProxyPool.BreakerLaw | internal/app/proxy.go:242-253 | over every history, a proxy is usable exactly if it is switched on and either the breaker is not tripped (by as many failures since its last success as the threshold, or by a forced cooldown) or the cooldown since its last attempt has passed |
| ProxyPool.RearmsOnFailure | internal/app/proxy.go:482-518 | once tripped, one more failure shuts a proxy out for another whole cooldown |
| ProxyPool.ListingUnique | internal/app/proxy.go:166-193 | a table has one listing in id order |
| ProxyPool.ListingPatched | internal/app/proxy.go:482-518 | patching one entry in place is the listing of the patched table |
| ProxyPool.ProxyTable.Load | internal/app/proxy.go:166-193 | a complete read makes the copy the table; a failed or broken-off one leaves it as it was |
| ProxyPool.ProxyTable.Record | internal/app/proxy.go:482-561 | row and copy change alike, and coherence is kept without a reload |
| ProxyPool.ProxyTable.Create | internal/app/proxy.go:768-785 | a name and a URL with one of four schemes give a new row with a new id, anything else nothing at all |
| ProxyPool.ProxyTable.Update | internal/app/proxy.go:803-837 | only the given fields of the one row change |
| ProxyPool.RunAll | internal/app/proxy.go:482-853 | after any run of operations the copy in memory is the table in id order |
| Egress.Exits.Pick | internal/app/proxy.go:414-472 | a pick succeeds exactly if some usable proxy not excluded has room; the one it returns is switched on, is neither tripped nor cooling, and takes one slot; the preference is honoured, and otherwise it is the first in turn |
| Egress.Exits.PickRound | internal/app/proxy.go:459-470 | under round robin, as many picks as there are candidates, at whatever times, visit each of them once, while the candidates stay the same and have room |
| Egress.Exits.GetDynamicSlotID | internal/app/proxy.go:40-51 | dynamic URLs and negative ids stay one to one, and old ids keep their URL |
| Egress.Exits.FetchOrSticky | internal/app/gemini.go:222-261 | exactly the sticky exit if it can be had, or else that of the first of ten answers that names a URL that is new, or known and to be had, with its slot taken and sticky next; otherwise nothing is changed |
| Egress.Exits.Acquire | internal/app/gemini.go:273-352 | exactly which exit is granted, for every state and mode: a static proxy, a dynamic exit or the direct connection as the last resort; it is admissible, had room, and takes one slot only; the preferred static proxy is taken exactly if it can be had |
| Egress.Exits.StaticChoiceIs | internal/app/proxy.go:414-472 | a static proxy is chosen exactly if one can be had, and the preferred one exactly if that can be had |
| Egress.FirstGoodIs | internal/app/gemini.go:222-261 | the answer taken is the first good one of those looked at, and none is taken only if none is good |
| Egress.Exits.GetsAgainIff | internal/app/gemini.go:273-352 | a request that prefers an exit gets it exactly under a condition on the state before, by the kind of the exit |
| Egress.StaysOff | internal/app/proxy.go:242-253 | over any reports, panel edits and failing reads: a proxy that the panel switched off is granted to nobody until it is switched on |
| Egress.Exits.RecordResult | internal/app/proxy.go:482-518 | the row or the statistics of the one exit record the result, and stickiness ends with a failure |
| Egress.Exits.ForceCooldown | internal/app/proxy.go:521-561 | the exit is shut out from now on |
| Egress.DynamicBreaker | internal/app/proxy.go:71-154 | over every history of any number of dynamic exits, one is cooling exactly while it tripped the breaker since its last success and the cooldown since its last attempt runs; dropping entries never ends that |
| Egress.NeverDirect | internal/app/gemini.go:273-352 | over any events, panel edits and failing reads included: without permission to fall back a request goes direct exactly if it does not exclude that, it has room, the mode is the automatic one without a remote pool, and the last complete read found no proxy or none was made |
| Egress.StaysLoaded | internal/app/proxy.go:166-193 | a loaded pool from which nothing is deleted stays loaded, however reads fail |
| Egress.FirstReadFails | internal/app/proxy.go:166-193 | a pool whose first read fails, and the direct connection granted, whatever is in the table |
| Egress.ProxyUnseen | internal/app/proxy.go:768-785 | a proxy added behind a read that found none, its re-read failing, and the direct connection granted |
| World.BalancedRelease | internal/app/ratelimit.go:92-99 | releasing what one holds never meets the clamp |
| World.World.Book | internal/app/proxy.go:482-518 | a report on an exit in use: its row or its statistics before and after, and nothing else |
| World.World.MarkAccount | internal/app/cookie_pool.go:448-518 | a mark on an account: only 200 clears its failures, only 401 and 403 add one, and the third switches it off |
| World.World.WriteBack | internal/app/cookie_pool.go:658-670 | the row takes the cookie exactly if that is not empty and the row could not be read or has the same identity |
| World.World.BindAccount | internal/app/cookie_pool.go:572-577 | an account is bound to the exit in use exactly if it has no usable one of its own |
| World.World.Acquire | internal/app/gemini.go:273-352 | all slots in flight are those of the others and those this request holds, now one more; where nothing is scarce one of two exits can always be had |
| World.World.Wait | internal/app/gemini.go:483-826 | whatever others do meanwhile, that account stays balanced and dynamic ids keep their URL |
| RequestDriver.Request.Rotate | internal/app/rotate.go:62-115 | a second slot is taken for an account refresh exactly if there is one, and given back; a new cookie is written back |
| RequestDriver.Request.TryAccount | internal/app/gemini.go:505-538 | one account over one exit: taken with its token, or with the one after its only refresh, and bound; otherwise marked 401, and the next one in turn not tried yet is picked |
| RequestDriver.Request.FindAccount | internal/app/gemini.go:504-539 | at most three accounts are tried over the whole request, in the order of the log of tries, until one is taken or none is left; if no token is refused the account at hand is taken |
| RequestDriver.Request.UploadAll | internal/app/gemini.go:558-572 | what is attached after a full and after a broken-off upload, as the log of uploads tells |
| RequestDriver.Request.Attempt | internal/app/gemini.go:697-802 | one call, with all that is booked of it; going on is possible only with nothing emitted, or once after a refusal with a renewed token |
| RequestDriver.Request.Settle | internal/app/gemini.go:708-763 | what follows from an answer: success, the repetition with a new token, the next attempt, or the end; a failed or good call is booked on its exit as such, a good one marked 200 on its account |
| RequestDriver.Request.Praise | internal/app/gemini.go:760-763 | a good answer clears the exit's and the account's failures, and changes no other row |
| RequestLog.OneTry | internal/app/gemini.go:504-539 | the law of tries is kept by the next try |
| RequestLog.OneTold | internal/app/gemini.go:697-763 | the law of what was done about the calls is kept by the next one |
| RequestLog.BookedAsAnswered | internal/app/gemini.go:708-763 | over every run a call over a proxy that got no new token is booked as a success exactly if its answer was good; an account is marked 200 for the last call only, exactly if its answer was good |
| RequestLog.StatusSnoc | internal/app/gemini.go:732-734 | the status kept is that of the last answer that failed and was not 200 |
| RequestLog.OneSpoke | internal/app/gemini.go:708-752 | what one more call makes of the text emitted so far: still none, one repetition due, or no call any more |
| RequestLog.LateLawHolds | internal/app/gemini.go:720-731 | a call is late exactly if the one before it emitted text and got a new token; it is the last call |
| RequestLog.OneCall | internal/app/gemini.go:720-731 | each call carries its files and its answer, and asks for a new token exactly at the first refusal over its exit while there is a cookie |
| RequestLog.BrokeOffIff | internal/app/gemini.go:558-572 | only the last upload can have failed behind the first attachment |
| RequestLog.OneUpload | internal/app/gemini.go:558-572 | the law of uploads is kept by the next upload in order |
| RequestLog.UploadsInOrder | internal/app/gemini.go:558-572 | attachments go up in order, from the first again only after a failure at the first |
| RequestDriver.Request.Generate | internal/app/gemini.go:697-802 | despite `attempt--` at most attempts plus one calls over one exit |
| RequestDriver.Request.TryExit | internal/app/gemini.go:483-819 | one pass of the outer loop ends with its slot released and its exit excluded, or with the request |
| RequestDriver.OneMoreExit | internal/app/gemini.go:807-811 | exclusion by id and by URL makes the next exit a new one |
| RequestDriver.Request.Run | internal/app/gemini.go:400-826 | however a request ends, all its slots are back; bounded calls, accounts and exits, all exits distinct, the first one the one to be had then with that of the first account preferred; each proxy given up, and no other one, unusable or cooling at that moment; every exit that got so far is called; late calls, attachments, success and crash exactly as the log of uploads and calls tells, and for every other outcome the reason in the log; accounts tried, taken, bound, marked and picked, and every call booked, merged and written back, exactly as it should be; at the end the last status marked exactly if the last error is reported |
| RequestRuns.LateCall | internal/app/gemini.go:720-731 | a run with a call after text was emitted, whatever others do meanwhile |
| RequestRuns.HalfUploaded | internal/app/gemini.go:549-572 | a run with a call that lacks an attachment |
| RequestRuns.SecondCopy | internal/app/gemini.go:592-597 | a run with a call that carries the conversation twice |
| RequestRuns.Crash | internal/app/gemini.go:807-814 | a run that crashes with attempts switched off |
| RoundDriver.Round.Generate | internal/app/conversation.go:423-475 | the attempt loop of a round: nothing follows emitted text or a good answer, and the turn counts good answers |
| RoundDriver.Round.SetUp | internal/app/conversation.go:312-362 | when the exit is noted, a session and a token asked for, and that both have to come |
| RoundDriver.Round.Settle | internal/app/conversation.go:430-464 | a call is booked on its exit as a success exactly for a good answer, which counts one turn more; no account changes |
| RoundDriver.Round.UseExit | internal/app/conversation.go:305-494 | one exit of a round: session and token, calls, and the switch, the end or the crash after them |
| RoundDriver.Round.Run | internal/app/conversation.go:247-497 | however a round ends, all its slots are back; exits distinct, calls bounded and each with the turn of the conversation; which exit is noted, and exactly when it is the one the answer came over; which exit it begins with, and exactly when that is the one noted before, be it static, dynamic or direct; which exits are given up and shut out then; how each exit is set up, the cookie handed on from step to step, and what each call is booked as; success and crash exactly as the log tells |
| RequestRuns.OtherExit | internal/app/conversation.go:310-313 | a later round over an exit that the conversation does not note |
| RequestRuns.SwitchedExit | internal/app/conversation.go:310-313 | a later round that goes on over another exit with the same turn, and notes that one |
| RequestRuns.OtherDynamic | internal/app/conversation.go:293-297 | a later round that begins over another dynamic exit than the one noted, which is known, has room and is not cooling down |
| RequestRuns.StaysWithCooling | internal/app/conversation.go:293-297 | a later round that begins over the noted proxy although its URL is cooling down |
| CookieJar.SplitCookiePairs | internal/app/cookie_pool.go:36-45 | the pieces between the semicolons, and of them exactly those that are, apart from space around them, a name that is not empty, an equals sign and a value |
| CookieJar.PairIs | internal/app/cookie_pool.go:39-41 | a piece holds a pair exactly if it reads so without the space around it |
| CookieJar.UpdateIs | internal/app/cookie_pool.go:601-611 | a header sets a name exactly if its first piece is such a pair, and it is no deletion: an empty value that expired in 1970 |
| CookieJar.UpdatesAre | internal/app/cookie_pool.go:599-612 | of several headers that set a name the last one counts |
| CookieJar.MergeSetCookie | internal/app/cookie_pool.go:595-632 | a merge: updated pairs in place, new ones behind, whatever order the map gives them |
| CookieJar.MergeReadsBack | internal/app/cookie_pool.go:595-632 | each updated name reads back its last value that is no deletion, every other name its old one |
| CookieJar.MergeKeepsOrder | internal/app/cookie_pool.go:587-632 | existing names keep their order, new ones come behind them |
| CookieJar.MergeIdempotent | internal/app/cookie_pool.go:587-632 | merging the same headers again returns exactly the same string |
| CookieJar.ReadBack | internal/app/cookie_pool.go:36-45 | what was joined splits into the same pairs |
| CookieJar.CookieIdentity | internal/app/cookie_pool.go:639-650 | the last values of the two identifying names, with a bar between them |
| CookieJar.IdentityOfMerge | internal/app/cookie_pool.go:639-650 | a merge's identity depends on the updates of those two names only |
| CookieJar.MergeKeepsSomething | internal/app/cookie_pool.go:595-632 | a merge leaves no cookie empty |
| CookieJar.JoinLaw | internal/app/cookie_pool.go:639-650 | two pairs of values have one joined form exactly if they are equal or a bar changed sides |
| CookieJar.JoinTells | internal/app/cookie_pool.go:639-650 | a pair of values differs from every other in its joined form exactly if neither holds a bar |
| CookieJar.IdentityTells | internal/app/cookie_pool.go:639-650 | the identity of a cookie determines its two values exactly if neither holds a bar behind a non-blank or at its start |
| CookieJar.IdentityCanCollide | internal/app/cookie_pool.go:639-650 | two cookies of different accounts with one identity |
| CookiePool.AccountPool.PickExcept | internal/app/cookie_pool.go:411-439 | of the enabled accounts not skipped, the one that failed the least often, of those the one used the longest ago, of those the one with the least id; nothing exactly if there is none |
| CookiePool.AccountPool.PickRound | internal/app/cookie_pool.go:411-439 | equally healthy accounts, all last used before the round, are picked once each |
| CookiePool.AccountPool.PickWithinASecond | internal/app/cookie_pool.go:411-439 | of any picks within one second, the accounts last used before it come first, once each, and then always the one with the least id; a whole round is fair exactly if no other account was used in that second before |
| CookiePool.AccountPool.MarkByStatus | internal/app/cookie_pool.go:448-518 | only 401 and 403 count against an account, only 200 clears it, the third failure switches it off, and an account still enabled after such a report has fewer than three |
| CookiePool.AccountPool.SetStatus | internal/app/cookie_pool.go:180-186 | the panel's switch: two values are taken, others refused; the fail count stays |
| CookiePool.AccountPool.Live | internal/app/cookie_pool.go:448-518 | any life of an account in the pool, by the methods that change it: no other account changes, and when it is off at the end |
| CookiePool.DisabledIff | internal/app/cookie_pool.go:448-518 | over any life an account is disabled exactly if the panel or a third auth failure without a success between switched it off and the panel has not switched it on since |
| CookiePool.AccountPool.UpdateCookie | internal/app/cookie_pool.go:658-670 | the write-back goes through exactly if the identity is the same or the row could not be read |
| CookiePool.WriteAllBack | internal/app/cookie_pool.go:658-670 | over any run of write-backs with readable rows no identity changes |
| CookiePool.RefreshPassesGuard | internal/app/cookie_pool.go:652-670 | a refresh passes the guard exactly if it leaves both identifying values alone or moves a bar from one to the other |
| Seeding.ProxySeeder.SyncSeededProxy | internal/app/proxy.go:326-383 | a restart follows the specification of seeding on the proxy table, with whatever rows the copy in memory lacks, and whichever notes cannot be read or re-reads fail |
| Seeding.CookieSeeder.SyncSeededCookieFile | internal/app/cookie_pool.go:256-329 | and on the account table, with whatever rows and notes cannot be read; an unreadable file changes nothing |
| Seeding.ProxySeeder.MigrateLegacy | internal/app/proxy.go:285-302 | the one-time migration of the old proxy setting, with whatever rows the copy lacks, and its mark read or not |
| Seeding.CookieSeeder.MigrateLegacy | internal/app/cookie_pool.go:227-248 | the one-time migration of the old cookie, likewise |
| Seeding.AtMostOneOwn | internal/app/proxy.go:326-353 | in every life the unedited records that hold what a restart made them for are one at most, plus one for each restart that could not read the pool or its notes |
| Seeding.UnseenRecordStays | internal/app/proxy.go:326-383 | the record a restart could not see or did not know of stays for good once something is noted |
| Seeding.NoteUnread | internal/app/db.go:244-250 | a run in which one unread note leaves two records, with nothing changed at that restart |
| Seeding.RestartRemovesIff | internal/app/proxy.go:358-383 | a restart removes exactly the noted record while it says what was put there and record and notes can be read, and edits none |
| Seeding.RestartAddsIff | internal/app/proxy.go:326-353 | a restart adds a record exactly if the value is a new one, no record it sees and keeps has it, and one can be made; that one is noted then |
| Seeding.NoRestartRemoves | internal/app/proxy.go:358-383 | records of the user, and records that do not say what was put there, survive every later restart unchanged |
| Seeding.UserRecordsStay | internal/app/cookie_pool.go:304-329 | the user's own records stay through any edits |
| Seeding.RestartFollows | internal/app/proxy.go:326-353 | the value before changes nothing, a new one is taken over unless its record cannot be made |
| Seeding.RevertAfterFailure | internal/app/proxy.go:346-353 | a failed value followed by the one before leaves the pool without that record, exactly if there was one |
| Seeding.RefreshedCookieStays | internal/app/cookie_pool.go:304-329 | a refreshed seeded cookie survives every later cookie file |
| Seeding.TwoSeededRecords | internal/app/cookie_pool.go:256-300 | a run that leaves two of them side by side |
| Seeding.StoredIsPlain | internal/app/cookie_pool.go:339-345 | outside JSON a record holds exactly the noted value |
| Seeding.ConfiguredIs | internal/app/cookie_pool.go:256-274 | what a cookie file configures: nothing if it cannot be read or understood, no value if it is missing or blank, otherwise its text or what its JSON is turned into |
| Seeding.MigrationIsNotLost | internal/app/cookie_pool.go:227-248 | exactly when a migration is noted as done; with a setting that was read, the value is in the pool then, and a record is added exactly if none was seen with it |
| Seeding.MigratedOnce | internal/app/proxy.go:286-288 | once migrated, a removed value is not brought back by any later start that can read the mark |
| Seeding.RepeatedMigration | internal/app/proxy.go:285-302 | it is, exactly if the mark cannot be read and the record can be made |
| Totals.TotalConsistent | internal/app/scheduler.go:147-156 | requests are successes plus failures, and a row exists exactly for keys that had requests |
| Totals.TotalSplits | internal/app/scheduler.go:161-185 | sums over adjacent spans add up |
| Totals.TotalIs | internal/app/scheduler.go:147-156 | a sum holds how many requests there are, how many of them with status 200 and how many without, and the sums of their times and of either kind of tokens |
| Totals.GroupRequests | internal/app/scheduler.go:134-157 | the grouping loop computes each key's sum and no other group |
| Totals.Upsert | internal/app/scheduler.go:221-236 | the upserts write one bucket's groups and change nothing else |
| Rollup.GroupHours | internal/app/scheduler.go:158-190 | the daily loop adds up each key's hourly rows in whatever order they come |
| Rollup.HoursSumIs | internal/app/scheduler.go:158-190 | a day's hourly rows add up to its requests in closed hours |
| Rollup.CaughtUpRight | internal/app/scheduler.go:52-70 | a catch-up makes every bucket up to now right, and changes nothing when there was nothing to catch up with |
| Rollup.SweepKeeps | internal/app/scheduler.go:254-262 | a deletion loses something exactly if it takes requests not rolled up |
| Rollup.DaysRightIff | internal/app/scheduler.go:72-89 | days rolled up early are right exactly if no request came behind the closed hours |
| Scheduler.StatsDb.HourlyCatchup | internal/app/scheduler.go:52-70 | which rows a catch-up writes, with any queries failing |
| Scheduler.StatsDb.HourlyTick | internal/app/scheduler.go:52-70 | closed hours are right up to now; again within the hour changes nothing |
| Scheduler.StatsDb.DailyTick | internal/app/scheduler.go:72-89 | closed days are right exactly if no request is missing from the closed hours |
| Scheduler.StatsDb.RetentionSweep | internal/app/scheduler.go:254-262 | what is deleted, and exactly when totals survive it |
| Scheduler.StatsDb.Boot | internal/app/scheduler.go:14-18 | the start-up order loses nothing |
| Scheduler.StatsDb.FailedHour | internal/app/scheduler.go:52-70 | over any run in which the queries of an hour fail until one is answered: its rows are the sums over what is there then, or missing exactly if a catch-up before wrote a later hour, one with requests and an answered query; and nothing that comes after changes them |
| Scheduler.LostHour | internal/app/scheduler.go:52-70 | two hours with requests, the query of the first failing: lost, unless that of the second fails as well |
| Scheduler.Run | internal/app/scheduler.go:13-48 | over every orderly run, closed hours and days hold the sums over all requests ever inserted |
| Conversation.CanonicalMessages | internal/app/conversation.go:104-113 | the loop computes the canonical text |
| Conversation.CanonicalIs | internal/app/conversation.go:104-113 | the canonical text, message by message |
| Conversation.CanonicalInjective | internal/app/conversation.go:104-113 | without separators in the contents the canonical text determines the messages |
| Conversation.CanonicalDetermines | internal/app/conversation.go:104-113 | among all messages the canonical text determines none, or one without a unit separator, and no others |
| Conversation.KeysChain | internal/app/conversation.go:120-135 | the next request's parent key is the stored child key exactly if it brings the same messages and the answer back |
| Conversation.ConvStore.ConvGet | internal/app/conversation.go:56-71 | an entry is returned exactly if it is there and within its time |
| Conversation.ConvStore.ConvPut | internal/app/conversation.go:74-100 | the store stays within its bound; beyond it all expired entries go, and at most one more, not younger than any that stay |
| Conversation.ConvState.Round | internal/app/conversation.go:449-461 | the turn counts the rounds, and the upstream is told everything first, then one message a round |
| Conversation.WhenInStep | internal/app/conversation.go:504-562 | a conversation that a request finds is in step with it exactly if the request's messages are as many as its first request's and two for each round |
| Conversation.ConvStore.CallConv | internal/app/conversation.go:504-562 | a known conversation is told the last message only and counts one turn more; an answer counts as a reply if it has text or calls, and without one a known conversation is given up; an answered round leaves the upstream with the client's messages exactly if the conversation was new or in step |
| Conversation.Run | internal/app/conversation.go:504-562 | over every run in which no history is continued twice: what is sent, and after each good round the upstream knows exactly what the client knows; and with room in the store, exactly which requests are recognized, with other clients' requests in between, and the turn of each |
| Conversation.RunChat | internal/app/conversation.go:504-562 | in a chat answered in time, with room in the store, every round after the first continues the conversation, one turn more each, and sends the newest message alone |
| Conversation.ChatIsUnbranched | internal/app/conversation.go:120-135 | a chat in which each request brings the last answer back, or repeats a failed one, is such a run |
| Conversation.TwoClients | internal/app/conversation.go:504-562 | two clients whose second messages land in one conversation, the second told its last message only |
| StreamedChat.StreamedContinues | internal/app/conversation.go:130-135 | the next request asks for the stored conversation exactly if what was streamed is a prefix of the reply |
| StreamedChat.ChainContinues | internal/app/server.go:388-396 | over frames that each extend the one before: always without tools, and with tools exactly if the gate sent no white space at the start, nor at the end with nothing still held |
| StreamedChat.NextRound | internal/app/conversation.go:504-562 | a streamed round and the request after it, through stream and store: found again exactly in time and with such a prefix |
| StreamedChat.LineBeforeCall | internal/app/server.go:388-396 | a reply with a line of text before its call, streamed with the line break and stored without |

## Left out

- HTTP and TLS, header building, JSON envelopes, page scraping, media download: their outcomes are arbitrary values here.
- Removal of code-execution artefacts from replies: it is not monotone over prefixes, so cleaning is trimming, and the frame theorems take frames that each extend the one before, one text per frame.
- Letters outside ASCII in lower-casing, other than the two that Go maps to ASCII letters; they only matter for proxy schemes.
- EventStreams.TakeReply: canvas and media models, whose replies `callGemini` makes from the document or the files fetched (`internal/app/server.go:143-170`).
- RequestDriver.Request.Run: settings stay the same during one request; an upstream answer is taken as one step of delivering lines; the final deletion of a conversation and the fetching of media are not modelled.
- RequestDriver.Request.FindAccount: the 60-second floor between two refreshes of one account, and its two refresh paths, are part of what the network answers.
- Egress.Exits.Pick: the cursor is a number that does not wrap around at 2^64.
- Egress.Exits.FetchOrSticky: the up to ten fetches of one acquisition happen at one instant.
- ProxyPool.RunAll: database writes succeed and reads complete; failing reads are in `ProxyTable.Load`, `Egress.NeverDirect` and `Seeding`.
- CookiePool.AccountPool.PickExcept: a row that cannot be scanned is passed over, which is the same as being skipped; labels, notes and error texts of accounts are not kept.
- CookiePool.DisabledIff: reads of the row for the auto-disable check succeed; a failing one is in `MarkByStatus`.
- Seeding.AtMostOneOwn: writes of the key-value table and deletions of rows succeed. A cookie file that holds JSON within JSON is unwrapped once more on the way in, so its record does not hold what it was made for; such records pile up (`Seeding.UnplainRecordsPileUp`).
- Scheduler.Run: requests are inserted at the current time; the clock is past the first day of 1970, whose buckets the code takes for "none yet". A failing query of a day's hourly rows behaves like that of an hour and is not modelled, nor is a failing query of the newest bucket or the oldest request.
- Percentiles of latencies, expired sessions, the reload and rotation timers of the scheduler.
- Conversation.ConvStore.CallConv: SHA-256 is taken to be injective; a fingerprint holds role and text only, so names of tools and calls do not count; a round that fails has not reached the upstream; how it ends is arbitrary here, and its exits and retries are in `RoundDriver.Round.Run`.
- RoundDriver.Round.Run: the identifiers by which the upstream knows the conversation; settings stay the same during one round.
- Requests that run at the same time within one conversation: each round is one step.
- Model tables, token counts, usage numbers, prompt wording, the panel, API keys and video jobs.
