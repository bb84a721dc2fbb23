# Blob transfer: a verified model

A Dafny model of the blob transfer engine of an OCI registry client: what moves the
bytes of a pull or a push, and what keeps count of them. `dafny verify dfyconfig.toml`
checks all of it.

The registry is an adversary. It picks every status, header, interval, body, break and
acknowledgement, and how each body is cut into reads; statements about content add only that what it sends agrees with one
fixed blob. The caller's source is an adversary too: it may return any count and any
error. Contexts end at arbitrary moments, and another goroutine may close a reader
between any two mutex sections.

| files | what they hold |
|---|---|
| `ParallelPull`, `ParallelLedger`, `ParallelEffects`, `ParallelDelivery`, `ParallelProgress`, `ParallelMeasure`, `ParallelErrors` | the parallel pull as a transition system, one action per channel operation or mutex section: who owns each slot and buffer, the sliding window, in-order delivery, deadlock freedom, a bound on all runs, release after Close, and a cause for every error |
| `Puller`, `Bodies`, `Dispatch` | the puller as an object: Read, Close and the drain over its fields, section by section, with every other goroutine at work in between; the response bodies Close interrupts; the dispatch loop and the number of workers |
| `Buffers`, `ChunkFetch` | one chunk: arrays that grow in place, short and broken partial responses, rollback |
| `UploadBody`, `UploadInvariant`, `UploadStream`, `UploadGuarantees`, `UploadErrors`, `UploadObject` | the request body of an upload: pump, transport reads and Close share four staging buffers; release of the caller's source, the lossless queue, validation, what the terminal error says; the body as an object, with Read, pump and Close over its fields |
| `ExactSize` | the reader that accepts exactly the sources of the declared size |
| `Replay`, `Sessions`, `Push`, `Progress` | one seekable source lent to successive bodies; the registry's upload endpoint, which logs every request, every settled body and every cancellation; upload sessions, chunks and retries accounted for in that log; progress callbacks |
| `Registry`, `Requests`, `Resume`, `Pull`, `RangePull`, `RangeRace` | the registry, the retry loops, the resumable stream, the ways a pull opens it, the ranged reader, and its race with Close |
| `Wire`, `Names`, `Query`, `Basics` | header parsing, the repository-name scanner against its grammar, the digest query rewrite, shared vocabulary |

How the pieces fit: `Dispatch.StartedPullIsValid` shows that a pull which parallelPull
starts is one the transition system is about; `ChunkFetch.FetchChunk` is what one of its
fetches does, with the blob's bytes as the result; `Replay.RunsAreAllowed` shows that the
request bodies `Push` works with include every run of the upload-body protocol. The
objects of `Puller` and `UploadObject` keep their history as a run of their transition
systems: each mutex section or channel operation changes the fields and is proved to be
one step of the system, and between two of them any number of steps of the others happen.
So every theorem about runs is one about the objects.

## Where the code and its documentation differ

The model follows the code.

- A `rangeReader` may crash when Close runs beside Read, which `pull.go:366-367` calls
  safe. Close clears the field `reader`; `readCurrent` uses it without looking
  (`pull.go:335-344`, `pull.go:374-378`). For every sequence of sections of Reads and
  Close the crash happens if and only if Close's section ran between the success of
  `advance` and the first section of `readCurrent`
  (`RangeRace.CrashesExactlyInTheGap`), every open reader with bytes left can get there
  (`RangeRace.TheGapIsReachable`), `RangePull.RangeReader.Read` crashes under the same
  condition, and `RangePull.CloseInTheGap` is a concrete call that does.
- A parallel pull whose context ends may report end of file before the blob is complete:
  a waiting Read may pick the closed result channel (`parallel.go:736-755`).
  `ParallelDelivery.EofLiesExactlyWhenCancelled`: every pull, whatever its plan and
  workers, has a run that ends early, and every such run is cancelled.
- An upload body hands its terminal error out once; a Read after that waits for Close
  (`upload_body.go:121-143`), which `UploadGuarantees.TerminalErrorIsHandedOutOnce` states.
- The unit of a Content-Range is compared under Unicode case folding, so a unit spelled
  with the letter U+017F counts as "bytes" (`wire.go:97-123`). The end of a chunk
  acknowledgement may carry a sign, as in "0-+5" or "0--0" (`chunked.go:220-231`).

## Model

| member | source | states |
|---|---|---|
| `ParallelDelivery.EveryStateOfEveryRun` | parallel.go:120-154 | every reachable state satisfies the ownership, window and delivery invariants |
| `ParallelDelivery.InOrderDelivery` | parallel.go:680-756 | for every interleaving the bytes returned are a prefix of the blob; end of file without cancellation means all of it |
| `ParallelDelivery.CancelledPullMayEndEarly` | parallel.go:736-755 | every pull has a cancelled run that reports end of file before the blob is complete |
| `ParallelDelivery.EofLiesExactlyWhenCancelled` | parallel.go:736-755 | for every pull, a run can report end of file before the blob is complete if and only if it is cancelled |
| `ParallelDelivery.ExactWindow` | parallel.go:403-430 | until an error, cancellation or Close the chunks holding a slot are exactly the interval from the oldest unconsumed to the last granted, one slot each, at most W of them |
| `ParallelProgress.TaskSendNeverBlocks` | parallel.go:403-416 | the task channel has room whenever a task is about to be sent |
| `ParallelProgress.ResultSendNeverBlocks` | parallel.go:419-430 | the result channel has room whenever a result is about to be sent |
| `ParallelProgress.HolderHasSlot` | parallel.go:855-870 | whoever holds an item finds a token in the slot channel, so no release waits |
| `ParallelProgress.BuffersAreNotAliased` | parallel.go:62-96 | no buffer is in two places of the pull, nor in the reserve or with another pull while it is in one |
| `ParallelProgress.NoDeadlock` | parallel.go:680-756 | in every reachable state with a Read, Close or drain under way some step of the pull is enabled |
| `ParallelMeasure.RunsAreBounded` | parallel.go:337-430 | all steps of the pull in any run are bounded by a number fixed at the start, plus eight for each call of Read or Close |
| `ParallelProgress.CloseLeavesNothing` | parallel.go:806-841 | after Close no slot is held, channels and pending map are empty, workers have ended, and each acquired buffer was outgrown or offered back once |
| `ParallelLedger.ChangeKeepsOwns` | parallel.go:122-154 | every way an item changes hands keeps one owner per slot and per buffer |
| `ParallelErrors.ErrorsHaveCauses` | parallel.go:702-804 | in every state of every run a cancellation error means the context ended, a closed error means Close, a fetch error means some fetch failed, and end of file means that all workers have ended |
| `ParallelErrors.UndisturbedPullsEndWhole` | parallel.go:680-756 | without cancellation, Close and failed fetches the only error is end of file, and it comes with the whole blob |
| `ParallelEffects.StepKeepsInv` | parallel.go:337-451 | every action, the probe fallback's exchange of buffers included, keeps the shapes and the ownership ledger |
| `Puller.ParallelPuller.Read` | parallel.go:680-756 | with Close, workers and dispatcher at work meanwhile, hands over the next bytes of the blob, all that the chunk has and the buffer takes; every error has its cause, so that an undisturbed pull ends with the whole blob and end of file; the recorded error stays; a cancelled or closed pull returns an error at once; it waits only when no result is there and another goroutine has a step |
| `Puller.ParallelPuller.ReadCurrentInto` | parallel.go:702-722 | the section that serves buffered bytes leaves exactly the transition's state and copies its bytes |
| `Bodies.BodySet.TrackBody` | parallel.go:657-668 | a body is tracked, or closed at once after Close |
| `Bodies.BodySet.UntrackAndClose` | parallel.go:671-676 | the body is closed before it stops being tracked |
| `Puller.ParallelPuller.Close` | parallel.go:806-834 | with Reads, workers and dispatcher at work meanwhile, Close ends without waiting, with the first error kept or its own recorded, the context cancelled, no chunk pending or current, and the drain started |
| `Puller.ParallelPuller.DrainResults` | parallel.go:837-841 | ends with the pipeline finished and no result left, and once Reads are over too no slot is held and every buffer was given back; it waits only when no result is there and another goroutine has a step |
| `Bodies.BodySet.Close` | parallel.go:806-828 | with other goroutines finishing and bringing bodies meanwhile, every body ever given to trackBody is closed when Close returns |
| `Dispatch.Tasks` | parallel.go:361-387 | the tasks handed out are the plan, or a head of it when the context ended |
| `Dispatch.PlanTiles` | parallel.go:361-387 | the tasks cover the blob end to end without gap or overlap |
| `Dispatch.WorkerCountIsMin` | parallel.go:233-246 | the number of workers is the smaller of the configured one and the number of tasks |
| `Dispatch.StartedPullIsValid` | parallel.go:201-227 | a started pull meets what the transition system assumes |
| `Buffers.GrowReadBuffer` | parallel.go:636-654 | contents survive growth; capacity at least doubles or reaches the target, never beyond it; no overflow |
| `Buffers.AppendExactly` | parallel.go:614-631 | old contents plus exactly the wanted bytes, or a preserved head of them; growth copies fewer than twice the final length in bytes |
| `ChunkFetch.FetchRangePartOnce` | parallel.go:533-578 | over any registry one request adds a contiguous part or leaves the buffer as it was; unless the context or Close came first, a 206 whose header spells a head of the interval is a part if it has all those bytes and worth another attempt if not, any other 206 is final, 429 and 500 to 599 are worth another attempt and other statuses final; the bytes are the blob's if the registry is truthful |
| `ChunkFetch.JudgeIsDeserved` | parallel.go:533-598 | the outcome of a reply, in terms of the header's grammar and the status alone |
| `ChunkFetch.FetchRangePart` | parallel.go:490-516 | over any registry a part within the attempt budget, or the bytes of earlier parts only; every earlier reply was worth another attempt; it gives up only when no other attempt is allowed or would help; a reply that brings a part is never refused |
| `ChunkFetch.FetchChunk` | parallel.go:456-484 | over any registry at most sixteen times the attempts in requests, walking contiguous parts; failure means sixteen parts were used, the last part spent its own attempts or got a final reply, or the context or Close came first, and the buffer goes back to the reserve; success means exactly the chunk's bytes, and replies that bring it in at most sixteen parts always lead to it |
| `ChunkFetch.FetchProbe` | parallel.go:433-451 | the probe body, or ranged requests with the attempts the probe left; a broken probe's buffer goes back before another is taken |
| `UploadStream.EveryStateOfEveryRun` | upload_body.go:97-337 | every reachable state keeps ownership, buffer places and the queue |
| `UploadGuarantees.DeliveredInOrder` | upload_body.go:97-145 | what Reads returned is a head of the source's bytes; until Close returned plus staged is all that was taken |
| `UploadGuarantees.EveryBufferInOnePlace` | upload_body.go:180-237 | until Close each staging buffer is available, with the pump, queued or being read, and in only one of these |
| `UploadStream.PumpWritesOutsideLine` | upload_body.go:241-253 | the buffer being filled holds no byte the transport has yet to read |
| `UploadGuarantees.SendsNeverBlock` | upload_body.go:228-232 | a buffer always fits into `available`, and until Close a chunk into `chunks` |
| `UploadGuarantees.WaitingReadIsServed` | upload_body.go:128-143 | a Read waiting before the terminal chunk faces a pump that can move |
| `UploadGuarantees.TerminalErrorIsHandedOutOnce` | upload_body.go:121-143 | after the terminal error a Read has no step until Close |
| `UploadGuarantees.ReleasedMeansIdle` | upload_body.go:320-337 | released exactly when Close was called, no Read is active, and the pump never started or is done; buffers are given back once |
| `UploadGuarantees.ReleasedStaysQuiet` | upload_body.go:304-337 | after release nothing reads the source, changes a staged byte, hands one over, or gives a buffer back again |
| `UploadGuarantees.CloseLeadsToRelease` | upload_body.go:149-176 | after Close at most twelve steps of the active Read and the pump remain, and when they have none left the source is released |
| `UploadGuarantees.ValidBodyWasExact` | upload_body.go:362-373 | over any source a validated body gave the transport exactly the declared bytes, in order, and a final one saw the source end there |
| `UploadGuarantees.ValidatesExactlyTheRightSources` | upload_body.go:362-373 | over a well-behaved source a body validates if and only if the transport consumed it all and the source has the right size |
| `UploadErrors.TerminalErrorIsTheVerdict` | upload_body.go:121-143 | a Read that ends with end of file has handed over the last declared byte of a content exact reader; one that ends with another error has one that is not |
| `UploadErrors.TerminalErrorJudgesTheSource` | upload_body.go:97-145 | over a well-behaved source the terminal error is end of file if and only if the source has the right size |
| `UploadObject.Body.Read` | upload_body.go:97-145 | with Close and the pump at work meanwhile, hands over the next bytes of the source, all that the staged batch has and the buffer takes; the terminal error comes out once, is end of file exactly with all the declared bytes and, over a well-behaved source, exactly if its size is right; a Read after Close is refused; it waits only when nothing is staged and, before the terminal error, the pump has a step; the wire tracker counts exactly these bytes until it is stopped |
| `UploadObject.Body.Pump` | upload_body.go:180-253 | with Read and Close at work meanwhile, ends with the terminal error last in line or handed out, unless Close came first; it waits only when no buffer is free and something is staged for the reader; released exactly when nobody can touch the source |
| `UploadObject.Body.Close` | upload_body.go:149-164 | with Read and the pump at work meanwhile, ends without waiting; released exactly when nobody can touch the source |
| `ExactSize.AcceptsExactlyTheRightSources` | upload_body.go:414-474 | for every cutting of reads, a decided reader accepts a well-behaved source if and only if it has the declared bytes and, for a final body, no more |
| `ExactSize.AcceptanceIsProof` | upload_body.go:414-474 | no source, however it misbehaves, is accepted unless exactly the declared bytes were taken and, for a final body, it ended right behind them |
| `ExactSize.AlwaysDecides` | upload_body.go:428-435 | over any source a hundred reads for each declared byte decide |
| `ExactSize.EmptyPushNeedsEmptySource` | upload_body.go:404-410 | an empty push accepts exactly an empty source |
| `ExactSize.ProbeFindsEnd` | upload_body.go:478-499 | the probe validates the end if and only if the source stands at it |
| `ExactSize.ExactSizeReader.Read` | upload_body.go:414-456 | asks the source once for no more than is missing and hands on all it gives, in order; a wrong count, an error or an early end fails, and nothing else does but too many empty reads and data behind a final body; the theorems above are about it |
| `ExactSize.ExactSizeReader.ProbeEof` | upload_body.go:478-499 | the probing loop equals its recursive specification |
| `Replay.RunsAreAllowed` | upload_body.go:97-373 | every run of the upload-body protocol ends in an outcome the replay model allows |
| `Replay.ReaderReplay.WaitCurrentReleased` | push.go:425-434 | waits until nobody can touch the source, and reports a proven source error |
| `Replay.ReaderReplay.Rewind` | push.go:390-398 | seeks only a quiet source, back to the start; never after a source error |
| `Replay.ReaderReplay.Position` | push.go:401-408 | asks only a quiet source; never after a source error |
| `Replay.ReaderReplay.Register` | push.go:412-420 | a body becomes the owner only of a quiet source; never after a source error |
| `Replay.ReaderReplay.GetBody` | push.go:446-464 | a redirect gets a new body over the same bytes; never after a source error |
| `Push.Pusher.CommitUpload` | push.go:221-275 | the endpoint logs exactly one PUT and the end of the body it read, or nothing and then the source is unusable; success exactly when the registry answered 201 and that body was exactly the declared source bytes; a failure is retryable exactly when the answer is and the source is not to blame |
| `Push.Pusher.SendChunk` | chunked.go:66-140 | the endpoint logs exactly one PATCH and the end of the body it read; success exactly when that body was the source's bytes of its interval, the registry answered 202 and acknowledged its very end, and any Location resolves |
| `Push.Pusher.SendChunks` | chunked.go:41-54 | the log and the progress calls grow by exactly the patches, which tile the upload in chunks of one size, each sent after the one before was acknowledged; it stops only at one that failed or over an unusable source |
| `Push.Pusher.ChunkedOnce` | chunked.go:26-61 | the log grows by exactly one attempt: a session, acknowledged patches of the larger of the configured and the registry's chunk size, an empty PUT only behind all of them, then one commit or one cancellation; progress stands at each acknowledged end |
| `Push.Pusher.PushOnce` | push.go:140-164 | the log grows by exactly one attempt: a session, one PUT unless the source is unusable, one commit or one cancellation |
| `Push.Pusher.PushWithRetry` | push.go:89-125 | everything the endpoint logged is that of at most the allowed attempts, each in order, all but the last worth another; success exactly when the last one committed; it gives up only for a final failure, a spent budget, an ended context or an unusable source; the progress calls are the acknowledged positions beyond every earlier one, ending at the size |
| `Sessions.AddPatch` | chunked.go:44-54 | one more patch behind acknowledged ones keeps the tiling, the chunk size and the carried bytes |
| `Sessions.CommittedChunksAreTheBlob` | chunked.go:26-61 | when a chunked attempt succeeds the acknowledged patches together are the whole blob, in order |
| `Push.Pusher.OpenSession` | push.go:181-216 | a session exactly for a 202 with a resolvable Location; the failure is retryable exactly when the answer is |
| `Progress.ProgressTracker.Set` | progress.go:56-67 | positions reported only when beyond every earlier one, also across restarts |
| `Progress.ProgressTracker.Add` | progress.go:43-51 | cumulative counts strictly increase |
| `Requests.DoRetry` | retry.go:144-201 | the first reply not worth a retry, or the last one the policy allows; nothing only if the context ended or the last request went unanswered |
| `Requests.GetAfterAttempts` | pull.go:167-204 | a usable reply within the attempts left, and the number spent in all; nothing only if none are left, the context ended or the last reply is not usable |
| `Requests.ParallelProbe` | parallel.go:282-309 | a reply and the exact number of requests it took, every earlier reply worth a retry |
| `Resume.Classify` | resume.go:165-186 | reconnects exactly on an error before the proven end; reports the end exactly where it is proven |
| `Resume.ResumeReader.ValidateResponse` | resume.go:356-444 | a replacement is the reply's own body, continues at the offset, within a total that never changes, and is the blob's bytes if the registry is truthful; a proper partial response, end proof or long enough full response is never refused |
| `Resume.ResumeReader.WaitForAttempt` | resume.go:266-331 | a request is made only after it was charged to the budget |
| `Resume.ResumeReader.ExecuteAttempt` | resume.go:283-312 | one request: another attempt only for a reply worth it; a proper continuation is never turned into a failure |
| `Resume.ResumeReader.ReplaceBody` | resume.go:455-477 | installs the continuation unless Close or the context won |
| `Resume.ResumeReader.Reestablish` | resume.go:239-262 | one request for each attempt charged, every one but the last worth a retry; ends with the last reply's body as continuation, or because the budget is spent, Close or the context won, or the last reply neither continues nor is worth a retry |
| `Resume.ResumeReader.Read` | resume.go:129-212 | bytes come in order; undisturbed it returns exactly what its body answers, as classified, or reconnects; a closed reader returns its error; nothing without an error only where the body answered so; the end is reported only at the total, and at the blob's end over a truthful registry; every other error has its reason |
| `Pull.OpenSingle` | parallel.go:267-277 | a stream over the last reply's body, whose budget includes the requests spent before it; none only for a reason |
| `Pull.OpenParallel` | parallel.go:161-227 | what the probe's reply decides: a 200 becomes a stream over its body, a 416 proof of emptiness an empty one, another 416 a fallback within one budget, a partial response from byte 0 a ranged pull, anything else nothing |
| `Pull.PullWhole` | pull.go:44-69 | opening and every reconnection send at most max(MaxAttempts, 1) requests; the bytes are the blob's head, and all of it at the end; if nobody interferes and some reply within the budget brings the whole blob, earlier ones being worth a retry or breaking ever later, the pull ends with the whole blob |
| `RangePull.Open` | pull.go:83-155 | a reader over exactly the window asked for, without overflow; nothing is sent for an invalid window, and a proper partial response is never refused |
| `RangePull.RangeReader.Advance` | pull.go:389-473 | adopts at most one more part, at most sixteen in all; the end only after the window's last byte; it fails only when the window cannot go on |
| `RangePull.RangeReader.ReadCurrent` | pull.go:335-364 | exactly what the body answers to a read of the smaller of the buffer and what is left of the part; fails exactly on a break or an early end; crashes if and only if the reader is gone |
| `RangePull.RangeReader.Read` | pull.go:311-331 | window bytes in order, and undisturbed exactly what the body answers; a failure means a break, a short body or a window that cannot go on; the sections that ran are a run of the race with Close, and it crashes if and only if Close's section is the one between the success of advance and readCurrent's |
| `RangeRace.CrashesExactlyInTheGap` | pull.go:311-385 | for every sequence of Reads and a Close, a crash if and only if Close ran between the success of advance and readCurrent |
| `RangeRace.TheGapIsReachable` | pull.go:366-385 | every open reader with bytes left has a run that crashes |
| `RangePull.CloseInTheGap` | pull.go:366-385 | a concrete Read that crashes |
| `RangePull.PullWindow` | pull.go:83-155 | at most length bytes, over at most sixteen parts' requests; all of them at the end, and the blob's from the offset; if nobody interferes and the registry brings the window in at most sixteen whole parts, or in one full response, it ends with all of them |
| `Wire.ParseContentRangeIsExact` | wire.go:97-123 | accepted exactly for "unit first-last/total" with 0 <= first <= last < total in int64 |
| `Wire.ParsePrintedContentRange` | wire.go:97-123 | parsing undoes printing |
| `Wire.DecimalIsExact` | wire.go:145-155 | a decimal is read exactly if it is leading zeros and the shortest text of a number within int64 |
| `Wire.UnitIsExact` | wire.go:97-101 | the unit in any mix of cases, and with a long s, and no other |
| `Wire.UnsatisfiedTotalIsExact` | wire.go:127-141 | the total of an unsatisfied range, accepted exactly in its spelling |
| `Wire.PrintedTotalIsRead` | wire.go:127-141 | a printed total is read, whatever blanks surround the header |
| `Wire.RangeAckIsExact` | chunked.go:220-231 | an acknowledgement is accepted exactly in its spellings, a signed end included |
| `Wire.PrintedAckIsAccepted` | chunked.go:220-231 | the acknowledgement of every int64 end, as registries print it, is accepted in both forms |
| `Names.ScanIsGrammar` | repo.go:163-192 | the greedy one-pass scan accepts exactly the grammar's components |
| `Names.ValidNameComponent` | repo.go:163-192 | the scanning loops decide the component grammar |
| `Names.ValidName` | repo.go:148-158 | exactly the slash-separated words of the grammar |
| `Query.RewriteInPlace` | push.go:480-490 | in place, every digest field gets the new value and no other field changes |
| `Query.SetDigest` | push.go:477-501 | the whole rewrite equals its specification |
| `Query.OnlyDigestChanges` | push.go:477-501 | other fields stay byte for byte and in place; at least one digest field, all with the new value |
| `Query.EverySpellingIsSet` | push.go:477-501 | a field named digest in any spelling, percent-escaped letters included, keeps its spelling and gets the new value; others stay byte for byte; without one a field is appended |
| `Query.LastWriteWins` | push.go:477-501 | rewriting twice is rewriting with the second value |
| `Query.UnescapeEscape` | push.go:479-487 | decoding an escaped value gives the value |
| `Query.UnescapeIsExact` | push.go:479-487 | decoding yields a text exactly for its spellings |

## Left out

- net/http, TLS, redirects between authorities, connection reuse: the transport eventually closes every request body, and a redirect is a new body for the same request.
- URL and Location resolution, host names and authorities: whether a Location resolves is part of the registry's answer.
- Hashing and the verifying reader; error texts and wrapping; client options; Exists, Mount and the argument checks at the top of Push.
- Time: delays, jitter and Retry-After are a moment at which the context may end.
- Header scrubbing and credential routing.
- A transport that breaks while the head of a full response is discarded is one whose body is that much shorter.
- A TryLock that fails although no Read holds the lock: it changes no state.
- UploadObject.Body.Read: a Read that finds nothing staged may give up after any number of looks, where the source waits on; staging buffers are values addressed by number, so aliasing between a Go slice and its backing array is not modelled there.
- UploadObject.Body.Pump: it may give up waiting for a buffer after any number of looks, where the source waits on; whether a buffer comes from the process-wide pool or is new is not modelled; it holds arbitrary bytes either way.
- Puller.ParallelPuller.Read: it may give up waiting for a result after any number of looks, where the source waits on; so may DrainResults.
- The loop of a parallel worker and the dispatcher's channel operations: steps of the transition system, which Puller interleaves, but no methods of the object; the dispatch loop's tasks are in Dispatch and a worker's fetch is in ChunkFetch.
- Replay.Upload.WaitReleased: all activity of a request body is placed at its release, which exclusive ownership of the source makes unobservable.
- Pull.PullWhole: a pull that goes on with ranged workers is not one of its runs; that is the subject of the ParallelPull modules and of ChunkFetch.
- ParallelMeasure.RunsAreBounded: the steps of one fetch are bounded by a constant of the configuration, which stands for a transport that eventually answers.
