# STHIRA backend: a verified model

This project models the stateful, protocol and parsing components of the STHIRA
evacuation backend and proves what they guarantee over every input and every run.
Most objects that the program updates in place are classes here. Each method is proved
equal to a step of a specification on values, and what the program promises is then
proved of every run of those steps. Two components with real concurrency, the
subprocess dispatcher and the worker pool, are step systems: one step is one critical
section, one channel operation or one event outside the process.

- **Subprocess IPC** (`IpcDispatcher.dfy`, `IpcProtocol.dfy`): many callers, one child
  process, replies routed by request id, with timeouts, cancellation, resets and close.
- **ASR worker pool** (`WorkerPool.dfy`): a bounded queue, a fixed pool of goroutines and
  two reply channels a job.
- **Rate limiter** (`RateLimiter.dfy`, `RateLimiterEviction.dfy`): the per-IP token bucket
  and the janitor that must not be noticed.
- **WAV intake** (`WavWalk.dfy`, `WavRoundTrip.dfy`, `Resample.dfy`): the RIFF/WAVE chunk
  walk (Multimedia Programming Interface and Data Specifications 1.0, chapters 2 and 3),
  its inverse and the linear resampler.
- **JSON** (`JsonWalk.dfy`, `BraceScan.dfy`): the depth and duplicate-key walk (section 4
  of RFC 8259) and the two brace scanners, one in Go and one in Python (section 7).
- **Scoped choices** (`ScopedChoice.dfy`): the validator of id lists in a model proposal
  and the schema that narrows generation for it.
- **Lifecycles and ledgers** (`CapLifecycle.dfy`, `Dedup.dfy`, `PackageService.dfy`,
  `PackageInterleaving.dfy`, `Allocation.dfy`, `Audit.dfy`, `SourceActivation.dfy`,
  `SourceInterleaving.dfy`): CAP revisions (section 3.2.1 of OASIS CAP v1.2), the alert
  deduplicator, package publication, the capacity ledger, and the hash-chained audit behind
  source activation.

Assumptions: request ids are unique among calls in flight and none is `__startup__`
(runtime_ipc.go:384-387 asks for the first); `rps > 0` (ratelimit.go:51-53); admissions to
the pool end with Shutdown. That `burst >= 1` is the model's own assumption: the code asks
only for a positive burst, and a smaller one overdraws the first bucket
(`NonNegativeIffBurstAtLeastOne`). Tokens, seconds, samples
and durations are reals; clocks are arbitrary unless a member asks for one that never
steps back.

## What does not hold

Each of these is shown by a run or an input, and beside it stands a lemma that says when the
code does meet the property. Where the code and its comments disagree, the model follows
the code.

- A request id that is unique in flight can still be reused, and then receives the reply
  to its timed-out predecessor (`ReusedIdReceivesLateReply`): from any reachable state in
  which the reader is about to read, if and only if the dispatcher is open
  (`ReusedIdReceivesLateReplyIff`). Without reuse every call gets the answer to its own
  request (`AnswersReachTheirRequest`). An empty id takes a reset for
  a successful reply (`EmptyIdTakesResetForReply`); no other id does (`SuccessIsOwnReply`).
  Two calls in flight under one id strand the first, if and only if the dispatcher is open
  (`DuplicateStrandsIff`). A second Close, called idempotent at runtime_ipc.go:465, returns
  before the reader is done (`RepeatedCloseDoesNotWait`).
- The comment at worker.go:120 says that the queue depth bounds waiting and running jobs
  together. The bound is the depth plus the pool size, and it is reached (`BoundIsTight`).
- The comment at worker.go:277-278 promises the shutdown error after Shutdown. It is
  returned only if a job has completed and the inventory was never scanned
  (`DispatchAfterShutdown`).
- Eviction is unobservable if and only if `rps * maxAge >= burst`.
- The WAV walk loops for ever on an open-ended `data` chunk while the format tag is 0,
  because no `fmt ` chunk has been read or one of tag 0 (`OpenEndedDataLoops`,
  `ZeroTagLoops`), and on nothing else (`NeverReturnsIff`).
- Generated audio has the length asked for if and only if its byte count fits in 32 bits.
- The Go and Python brace scans can differ on a backslash outside a string, but only where
  it stands before a brace or a quote (`ScansAgree`), and not always there
  (`OutsideBackslashesCanCancel`). They stop alike on a text whatever follows it if and only
  if both have stopped within it, and alike (`StopAlikeWhateverFollowsIff`).
- An update or cancellation that overtakes its alert finds nothing to refer to and is
  quarantined for good, so the order of delivery matters (`CancelOrderMatters`). The same
  messages end with the same latest revisions in every order if and only if no follow-up
  among them is newer than an alert it names and at least as new as all other alerts of that
  identifier (`OrderFreeIff`).
- The line at lifecycle.go:82 calls every duplicate a no-op. Redelivery of an applied
  message changes nothing if and only if it is neither an update nor a cancellation; it
  is applied a second time if and only if its references have come to name another
  identifier whose revisions are all older (`RedeliveryIff`).
- The "capacity bound" of verifier.go:123 does not bound the map: it outgrows the capacity
  if and only if more digests than that are live (`OutgrowsCapacityIff`). With a clock that
  steps back the purge can be observed (`RevivalShows`): whatever the digests it cannot, if
  and only if no entry once found run out is live again by a later reading
  (`PurgeUnobservableIff`).
- Previewing the active package again takes it out of service, and this is the only call
  that makes an active pointer wrong (`ServesIff`). Rollback works outside the lock until
  its last write: over any interleaving one package a jurisdiction stays in service if and
  only if no rollback finds another put into service since it looked (`SafeIff`), and a run
  from nothing reaches that (`RollbackRace`).
- Registering a facility again can overbook it. A call keeps what is left and what is taken
  within the total if and only if it is not a registration that offers more places than are
  free (`WithinTotalIff`). What is left and what is taken add up to the last registration
  if and only if no facility with somebody in it is registered again (`ConservedIff`).
- A source is moved before its event is recorded. An event that cannot be recorded (used
  identifier, field out of range) leaves the move without an event for good
  (`UnrecordableMovesAnyway`), and while calls come one at a time nothing else does
  (`FaithfulIff`). With several threads a move is also lost when the head of the log has
  moved between its read and the append (`OvertakenLoses`), or when it is recorded before an
  earlier move of the same source; over any interleaving, these and no others
  (`SourceInterleaving.StepIff`).

In the table, rows that begin with "spelled out" are helpers: they put one step of the
specification in declarative words for the reader.

## Model

| member | source | states |
|---|---|---|
| IpcDispatcher.Dispatcher.constructor | backend/internal/asrworker/runtime_ipc.go:238-259 | startup is registered before a reader exists |
| IpcDispatcher.Dispatcher.Register | backend/internal/asrworker/runtime_ipc.go:396-411 | refused once closed or once the reader has failed; otherwise the id names a new, empty channel |
| IpcDispatcher.Dispatcher.Deregister | backend/internal/asrworker/runtime_ipc.go:413-417 | only the id's own entry goes |
| IpcDispatcher.Dispatcher.ReleasePending | backend/internal/asrworker/runtime_ipc.go:180-186 | in any map order: nobody stays pending, every pending channel that was empty holds the reply, every other channel is untouched |
| IpcDispatcher.Dispatcher.MarkUncertain | backend/internal/asrworker/runtime_ipc.go:175-192 | the first failure is kept and every pending caller is released by a reset |
| IpcDispatcher.Dispatcher.DemuxCleanup | backend/internal/asrworker/runtime_ipc.go:303-322 | the reader's exit releases every pending caller and leaves a failure behind |
| IpcDispatcher.Dispatcher.RouteReply | backend/internal/asrworker/runtime_ipc.go:338-367 | a reply goes to the entry with its id, which is removed first; an id-less one goes to startup or resets; any other is dropped |
| IpcDispatcher.Dispatcher.Send | backend/internal/asrworker/runtime_ipc.go:345-372 | the reply is put in the channel if there is room, and nothing else changes |
| IpcDispatcher.Dispatcher.BeginClose | backend/internal/asrworker/runtime_ipc.go:466-476 | only the first call closes |
| IpcProtocol.StepKeepsInv | backend/internal/asrworker/runtime_ipc.go:138-192 | every step keeps the invariant: an entry names the empty channel of an in-flight call with that id, each call that has not given up has its message or is still owed it, a failed reader leaves nobody pending |
| IpcProtocol.ReachableInv | backend/internal/asrworker/runtime_ipc.go:301-459 | that invariant holds in every reachable state |
| IpcProtocol.AtMostOneMessage | backend/internal/asrworker/runtime_ipc.go:301-376 | under every interleaving each reply channel receives at most one message, so the bare send at line 348 never blocks and the guarded one never drops |
| IpcProtocol.SuccessIsOwnReply | backend/internal/asrworker/runtime_ipc.go:388-459 | a successful SendRequest returns a reply with its own id, read after it registered and given to no other call; the `__startup__` exemption is never used |
| IpcProtocol.ReceivedIsReturned | backend/internal/asrworker/runtime_ipc.go:440-449 | the converse: in any reachable state, a waiting call that receives a line of the child returns it as a success; a reset is an id mismatch unless the call's own id is empty; startup (lines 270-287) succeeds iff the message says "ready" |
| IpcProtocol.AnswerIsReturned | backend/internal/asrworker/runtime_ipc.go:356-449 | from any reachable state with the reader about to read, the answer to a pending call that waits is, once read, sent and received, what it returns, and no other call changes |
| IpcProtocol.AnsweredCallSucceeds | backend/internal/asrworker/runtime_ipc.go:388-449 | from any reachable open state a fresh call that is written and answered ends in success with that answer |
| IpcProtocol.EnvelopeReachesStartup | backend/internal/asrworker/runtime_ipc.go:339-355 | the first line without an id goes to the startup call while that is pending, and ends it there, as ready or refused, if it waits |
| IpcProtocol.GivesUpAs | backend/internal/asrworker/runtime_ipc.go:413-459 | a call that times out or is cancelled returns that reason, and only its own entry goes |
| IpcProtocol.FailedWriteResets | backend/internal/asrworker/runtime_ipc.go:138-192 | a write that fails or runs out of time returns that reason, resets everyone pending and refuses later calls |
| IpcProtocol.CallMoves | backend/internal/asrworker/runtime_ipc.go:138-192 | spelled out: what can happen to a call in each phase |
| IpcProtocol.CloseReleases | backend/internal/asrworker/runtime_ipc.go:463-500 | from any reachable open state a Close returns once the reader has cleaned up, by when everyone who was pending has been told |
| IpcProtocol.StrayLineReachesNobody | backend/internal/asrworker/runtime_ipc.go:339-367 | a late, duplicate or unknown line reaches no caller, then or later in the run |
| IpcProtocol.StrayLineIsDropped | backend/internal/asrworker/runtime_ipc.go:356-366 | such a line with an id leaves the dispatcher and every call exactly as they were |
| IpcProtocol.CorruptLineResets | backend/internal/asrworker/runtime_ipc.go:323-355 | a line that cannot be decoded, or has no id after startup, resets everyone pending and refuses later calls |
| IpcProtocol.LineStaysUnsent | backend/internal/asrworker/runtime_ipc.go:323-373 | a line that is neither in a channel nor in the reader's hands stays that way for the rest of the run |
| IpcProtocol.DeadReaderStaysEmpty | backend/internal/asrworker/runtime_ipc.go:398-411 | once a failure is recorded nobody is pending for the rest of the run, and later calls return at once without a message |
| IpcProtocol.NobodyLeftWaiting | backend/internal/asrworker/runtime_ipc.go:303-322 | after the reader has cleaned up, or the effective Close has returned, each call that has not given up has exactly one message and a waiting one can take it |
| IpcProtocol.AnswersReachTheirRequest | backend/internal/asrworker/runtime_ipc.go:356-373 | from a child that echoes ids, a call receives the answer to its own request, unless its id was used for another one too, and then not while both were in flight |
| IpcProtocol.ReusedIdReceivesLateReplyIff | backend/internal/asrworker/runtime_ipc.go:356-411 | in any reachable state with an earlier call under the id, over by now, and the reader about to read, the next call under it can be sent the very next line before it has written anything, iff the dispatcher is open |
| IpcProtocol.ReusedIdReceivesLateReply | backend/internal/asrworker/runtime_ipc.go:361-367 | a witness from the start, for every id: the reused id receives the late reply to its predecessor |
| IpcProtocol.EmptyIdTakesResetForReply | backend/internal/asrworker/runtime_ipc.go:445-449 | a reachable run in which a call with an empty id succeeds although the child wrote nothing |
| IpcProtocol.DuplicateStrandsIff | backend/internal/asrworker/runtime_ipc.go:396-411 | in any reachable state, a second call under a pending id takes its entry over and leaves the first with nobody to answer it, iff the dispatcher is open |
| IpcProtocol.DuplicateIdStrandsCaller | backend/internal/asrworker/runtime_ipc.go:384-459 | over every run from there the first call never gets a message; it ends only in failure, by giving up, which it can do once it waits |
| IpcProtocol.RepeatedCloseDoesNotWait | backend/internal/asrworker/runtime_ipc.go:466-471 | a reachable run in which a second Close has returned while a caller still waits without a message |
| WorkerPool.Configure | backend/internal/asrworker/worker.go:107-122 | a runtime is required; positive sizes are kept, others become the defaults, and a pool wider than its queue is refused |
| WorkerPool.Worker.constructor | backend/internal/asrworker/worker.go:127-143 | an idle pool on an empty queue, not ready |
| WorkerPool.Worker.Submit | backend/internal/asrworker/worker.go:194-227 | each refusal under its exact condition (not ready, language, context, saturation), and otherwise admission; a refusal admits nothing and only saturation is counted |
| WorkerPool.Worker.HandleJob | backend/internal/asrworker/worker.go:258-275 | a cancelled job gets the cancellation, else one whose context has ended that error, else the runtime's result or error, each on the one channel for it |
| WorkerPool.Worker.RunOne | backend/internal/asrworker/worker.go:247-255 | a turn of the loop is a run of the step system and sends the oldest queued job exactly that |
| WorkerPool.Worker.Shutdown | backend/internal/asrworker/worker.go:281-292 | the first call ends admissions and lowers both flags, any later one is a no-op |
| WorkerPool.Worker.DispatchAfterShutdown | backend/internal/asrworker/worker.go:195-200 | after Shutdown a dispatch is refused as not ready, and as shut down only if a job has completed and the inventory was never scanned |
| WorkerPool.StepKeepsInv | backend/internal/asrworker/worker.go:220-275 | every step keeps the pool's invariant, counters included |
| WorkerPool.JobsConserved | backend/internal/asrworker/worker.go:220-255 | in every run admitted = queued + held + finished, and outstanding jobs never exceed queueDepth + maxInflight |
| WorkerPool.BoundIsTight | backend/internal/asrworker/worker.go:119-122 | that bound is reached for every configuration, so queueDepth alone is none |
| WorkerPool.Fifo | backend/internal/asrworker/worker.go:247-251 | jobs leave the queue in admission order |
| WorkerPool.OneMessageAJob | backend/internal/asrworker/worker.go:228-240 | a job gets at most one message over both channels, a finished one is waiting for a caller who still selects, and Dispatch returns that message or its own context's error |
| WorkerPool.SendNeverBlocks | backend/internal/asrworker/worker.go:258-275 | a goroutine's send always has room, and reaches only the job it holds |
| WorkerPool.NoGoroutineStuck | backend/internal/asrworker/worker.go:247-255 | every goroutine can move unless it waits on an open empty queue |
| WorkerPool.DrainedAfterShutdown | backend/internal/asrworker/worker.go:283-302 | when the pool has stopped every admitted job has been answered |
| WorkerPool.TurnIsARun | backend/internal/asrworker/worker.go:249-254 | one turn of the loop body, undisturbed, is a run of the step system |
| RateLimiter.LiveBucket.RefillTo | backend/internal/httpserver/ratelimit.go:104-111 | the refill in place: elapsed time, capped, and only when the clock moved on |
| RateLimiter.LiveBucket.Draw | backend/internal/httpserver/ratelimit.go:103-118 | a token is taken exactly when a whole one is there after the refill |
| RateLimiter.RateLimiter.Open | backend/internal/httpserver/ratelimit.go:96-101 | a first call gets a bucket of its own, at burst - 1, and touches no other |
| RateLimiter.RateLimiter.Serve | backend/internal/httpserver/ratelimit.go:103-118 | a later call changes its own bucket in place, and no other |
| RateLimiter.RateLimiter.Allow | backend/internal/httpserver/ratelimit.go:83-119 | the decision, the one bucket it touches, and exactly one of the two counters |
| RateLimiter.RateLimiter.EvictStale | backend/internal/httpserver/ratelimit.go:153-162 | exactly the buckets older than the cutoff go |
| RateLimiter.RateLimiter.GetStats | backend/internal/httpserver/ratelimit.go:123-136 | the snapshot counts the live buckets |
| RateLimiter.TokensInRange | backend/internal/httpserver/ratelimit.go:95-116 | any run keeps 0 <= tokens <= burst for every IP |
| RateLimiter.BucketPays | backend/internal/httpserver/ratelimit.go:103-117 | a run pays for its admissions with the tokens it had and the refill since |
| RateLimiter.AdmittedIff | backend/internal/httpserver/ratelimit.go:96-118 | a request is admitted iff a whole token is there: a full bucket at first, later what was left plus rps times the time since, up to the burst; it takes one, and a refused one none |
| RateLimiter.BurstAdmitsExactly | backend/internal/httpserver/ratelimit.go:96-118 | of any number of calls an address makes at one instant exactly as many are admitted as it has whole tokens, whatever others do in between |
| RateLimiter.NoAddressAdmitted | backend/internal/httpserver/ratelimit.go:83-93 | spelled out: a request without an address is admitted at no cost |
| RateLimiter.EvictedIff | backend/internal/httpserver/ratelimit.go:153-162 | spelled out: a sweep takes exactly the buckets last filled before the cutoff |
| RateLimiter.FillFollowsClock | backend/internal/httpserver/ratelimit.go:104-111 | a bucket's time is the highest clock reading among its IP's calls |
| RateLimiter.WindowBound | backend/internal/httpserver/ratelimit.go:83-119 | between any two points of any run of Allow an IP is admitted at most burst + rps * dt times, dt on the running maximum of the clock |
| RateLimiter.FillIsClockMax | backend/internal/httpserver/ratelimit.go:95-111 | from an IP's first call on, its bucket's time is that maximum |
| RateLimiter.NonNegativeIffBurstAtLeastOne | backend/internal/httpserver/ratelimit.go:96-101 | a first request leaves tokens in range if and only if burst >= 1 |
| RateLimiterEviction.SameAnswers | backend/internal/httpserver/ratelimit.go:94-162 | with a clock that never steps back and rps * maxAge >= burst, sweeping at arbitrary moments changes no answer |
| RateLimiterEviction.EvictionUnobservableIff | backend/internal/httpserver/ratelimit.go:140-162 | every such run is answered alike with and without sweeping if and only if rps * maxAge >= burst |
| RateLimiterEviction.SweptWindowBound | backend/internal/httpserver/ratelimit.go:83-162 | the same bound on admissions between any two points of a run with sweeps anywhere in it |
| WavWalk.TakeChunk | backend/internal/asrworker/audio.go:240-287 | one chunk read into the walk's variables, with every rejection |
| WavWalk.ScanChunks | backend/internal/asrworker/audio.go:231-308 | the chunk loop, telling where it would not end |
| WavWalk.TurnAdvances | backend/internal/asrworker/audio.go:239-308 | a continuing iteration moves on by at least 8 and stays inside the buffer, except on an open-ended data chunk while the format tag is 0, which then repeats unchanged |
| WavWalk.WalkEndsUnlessOpenEnded | backend/internal/asrworker/audio.go:288-307 | the walk runs for ever if and only if it comes to such a chunk |
| WavWalk.NeverReturnsIff | backend/internal/asrworker/audio.go:223-308 | the decoder never returns on exactly the RIFF/WAVE files whose walk does |
| WavWalk.WalkStaysInside | backend/internal/asrworker/audio.go:273-286 | the data the walk finds starts inside the buffer |
| WavWalk.AcceptsOnlyPcm16 | backend/internal/asrworker/audio.go:223-369 | whatever is accepted has, in its chain of chunks, a 16-bit PCM format and data filled exactly by frames whose first channel and declared rate are the answer |
| WavWalk.RejectedIff | backend/internal/asrworker/audio.go:239-306 | the walk refuses a file for exactly the bad chunk it comes to, if it comes to one before it has read format and data |
| WavWalk.JudgedBy | backend/internal/asrworker/audio.go:307-361 | of the nine faults that the variables of a finished walk can have, the first is reported; without one the file is accepted |
| WavWalk.RefusedAs | backend/internal/asrworker/audio.go:223-361 | why a file is refused: too short, no signature, a bad chunk, or a fault after the walk |
| WavWalk.ReadFrames | backend/internal/asrworker/audio.go:350-367 | the first channel of each frame, scaled |
| WavWalk.DecodeRiffWav | backend/internal/asrworker/audio.go:223-369 | the decoder's outcome on every byte string, each error in its order |
| WavRoundTrip.ForeignSkipped | backend/internal/asrworker/audio.go:291-302 | any number of foreign chunks, padded when odd, is stepped over |
| WavRoundTrip.DecodesWhatWasWritten | backend/internal/asrworker/audio.go:223-369 | a file of foreign chunks, a PCM16 mono format, more foreign chunks, samples and any trailing bytes decodes to exactly those samples and that rate |
| WavRoundTrip.DecodesDataBeforeFormat | backend/internal/asrworker/audio.go:283-302 | so does one whose samples come before the format |
| WavRoundTrip.DecodesStreamed | backend/internal/asrworker/audio.go:274-286 | so does one written to a stream, whose data chunk declares no size and runs to the end |
| WavRoundTrip.OpenEndedDataLoops | backend/internal/asrworker/audio.go:291-307 | a witness: any foreign chunks and then an open-ended data chunk, and the decoder never returns |
| WavRoundTrip.ZeroTagLoops | backend/internal/asrworker/audio.go:288-307 | a witness of 44 bytes or more with a format chunk of tag 0 in front |
| WavRoundTrip.PutSize | backend/cmd/mock-workers/main.go:26-29 | the four byte writes are the little-endian size, other bytes untouched |
| WavRoundTrip.PutFormat | backend/cmd/mock-workers/main.go:31-40 | the constants written are a format chunk, other bytes untouched |
| WavRoundTrip.GenerateWavBytes | backend/cmd/mock-workers/main.go:21-47 | the whole buffer, byte for byte |
| WavRoundTrip.GeneratedIsWavFile | backend/cmd/mock-workers/main.go:21-47 | the output is such a file for every count, with sizes taken modulo 2^32 |
| WavRoundTrip.GeneratedDecodes | backend/cmd/mock-workers/main.go:21-47 | it decodes to that much silence at 16 kHz, and to as much as was asked for if and only if 2n < 2^32 |
| Resample.InsideInput | backend/internal/asrworker/audio.go:399-411 | every output reads inside the input, so the past-the-end branch is dead |
| Resample.CeilIsCeilDiv | backend/internal/asrworker/audio.go:394-394 | the real ceiling is the integer ceiling of n*dst/src |
| Resample.Locate | backend/internal/asrworker/audio.go:398-406 | index and weight are quotient and remainder of i*src by dst |
| Resample.OneOutput | backend/internal/asrworker/audio.go:399-412 | one output sample, read inside the input |
| Resample.ResampleLinear | backend/internal/asrworker/audio.go:387-415 | the whole output, including the unchanged cases |
| Resample.OutputBetweenNeighbours | backend/internal/asrworker/audio.go:400-412 | each output lies between the two inputs around its position, and is the input there when it falls on one |
| Resample.OutputInRange | backend/internal/asrworker/audio.go:387-415 | samples in [-1,1) stay there |
| Resample.DecodeWav | backend/internal/asrworker/audio.go:114-165 | the answer for every buffer and every limits; samples stay in [-1, 1), and at the default limits there are at most 320000 |
| Resample.TakenIff | backend/internal/asrworker/audio.go:121-165 | a buffer that decodes is taken in iff it is within the byte, rate, channel and length limits, and then as its resampled audio |
| Resample.TurnedAwayBy | backend/internal/asrworker/audio.go:121-153 | each limit error iff that is the first limit broken, in the order bytes, rate, channels, length |
| Resample.GeneratedIsTakenIff | backend/internal/asrworker/audio.go:114-165 | generated silence is taken in whole at the default limits iff it is at most 262122 samples long |
| JsonWalk.Decoder.Next | backend/internal/httpjson/decode.go:75-81 | the decoder gives up one token at a time |
| JsonWalk.WalkValue | backend/internal/httpjson/decode.go:71-92 | result and tokens consumed, against the walk on values |
| JsonWalk.WalkObject | backend/internal/httpjson/decode.go:94-118 | the same for objects, with the keys seen so far |
| JsonWalk.WalkArray | backend/internal/httpjson/decode.go:120-131 | the same for arrays |
| JsonWalk.WalksTree | backend/internal/httpjson/decode.go:71-131 | on any tree's tokens followed by anything: accepted iff not too deep and no object repeats a key, consuming exactly the tree, and otherwise naming what is wrong, with a key that some object does repeat |
| JsonWalk.AcceptsOnlyTrees | backend/internal/httpjson/decode.go:71-131 | whatever is accepted and consumed is the tokens of a tree |
| JsonWalk.AcceptsExactly | backend/internal/httpjson/decode.go:65-68 | a token stream passes iff it begins with such a tree |
| JsonWalk.DepthIsExceeded | backend/internal/httpjson/decode.go:72-74 | on any tokens at all, too much depth is reported only where more containers are open than allowed |
| JsonWalk.KeyStandsTwice | backend/internal/httpjson/decode.go:101-107 | and a repeated key only where it stands twice |
| BraceScan.DecodeFraming | backend/internal/middleworker/decode.go:29-82 | the framing outcome of every text |
| BraceScan.SkipLiteral | backend/internal/middleworker/decode.go:58-70 | from inside a string to its closing quote |
| BraceScan.CloseObject | scripts/gen_spdx.py:82-103 | where the Python scan ends an object |
| BraceScan.Gather | scripts/gen_spdx.py:70-104 | the texts the splitter hands on |
| BraceScan.ObjectScanned | scripts/gen_spdx.py:82-103 | both scans of an object text end at its closing brace, whatever braces and escaped quotes its strings hold and whatever follows |
| BraceScan.ScansAgree | backend/internal/middleworker/decode.go:44-75 | it is enough, for the two scans to stop alike, that no backslash outside strings stands before a brace or a quote |
| BraceScan.StopAlikeWhateverFollowsIff | backend/internal/middleworker/decode.go:44-75 | the scans stop alike on every continuation of a text iff they have stopped within it, and alike |
| BraceScan.OutsideBackslashesCanCancel | backend/internal/middleworker/decode.go:48-75 | a witness that the sufficient condition is not necessary: two backslashes outside strings that cancel out |
| BraceScan.ScansDisagreeOutsideJson | backend/internal/middleworker/decode.go:48-75 | a witness that they can differ where one does |
| BraceScan.FramingExact | backend/internal/middleworker/decode.go:34-82 | an object text passes alone behind at most four spaces; with any suffix it is extra text |
| BraceScan.TruncatedIsMalformed | backend/internal/middleworker/decode.go:44-78 | an object text cut off anywhere is malformed |
| BraceScan.FramingCases | backend/internal/middleworker/decode.go:29-82 | of any text behind its leading space: empty, extra text, malformed or passed, each under its condition |
| BraceScan.SplitsStream | scripts/gen_spdx.py:72-104 | splitting any concatenation of object texts with space between returns exactly those texts |
| ScopedChoice.GreedyIsSubsequence | backend/internal/contracts/scoped.go:313-325 | the greedy match succeeds iff the targets are a subsequence |
| ScopedChoice.EnforceChoiceOrder | backend/internal/contracts/scoped.go:306-326 | accepts iff eligible is non-empty and the targets are a subsequence of it; which error otherwise |
| ScopedChoice.CheckChoiceKinds | backend/internal/contracts/scoped.go:130-141 | every choice is a known facility, no route, and agrees with its place entry; otherwise why the first one that does not fails |
| ScopedChoice.CheckFitFeatures | backend/internal/contracts/scoped.go:169-188 | one to three distinct, non-empty, known targets; otherwise the length, or why the first target that is not fails |
| ScopedChoice.EnforceLists | backend/internal/contracts/scoped.go:101-188 | passes iff the evidence and every action pass; evidence comes first, and its first unknown id is named |
| ScopedChoice.KnownAndGood | backend/internal/contracts/scoped.go:130-284 | spelled out: known ids and good choices, as sets |
| ScopedChoice.ShowChoicesRule | backend/internal/middleworker/schema.go:96-107 | the lists allowed are the whole of a short list or a prefix of one to three of a long one |
| ScopedChoice.ScopedSchema | backend/internal/middleworker/schema.go:31-121 | exactly which lists the narrowed schema allows |
| ScopedChoice.GeneratedListsPass | backend/internal/middleworker/schema.go:18-19 | every list the schema allows passes the validator; for SHOW_CHOICES and FIT_FEATURES the exact condition on the context |
| ScopedChoice.ValidatorAllowsSkipping | backend/internal/contracts/scoped.go:302-326 | the validator is wider than the schema: it lets choices be skipped |
| CapLifecycle.CandidateIsIdentifier | backend/internal/capfeed/lifecycle.go:208-217 | a triple and a bare reference both name their identifier, whatever space is around it |
| CapLifecycle.SpacesAre | backend/internal/capfeed/lifecycle.go:212-217 | spelled out: the characters that count as space |
| CapLifecycle.ResolveTakesFirstKnown | backend/internal/capfeed/lifecycle.go:211-223 | the first reference that names something known is taken |
| CapLifecycle.ResolveFindsNone | backend/internal/capfeed/lifecycle.go:211-223 | without one the target is empty |
| CapLifecycle.Lifecycle.ResolveReference | backend/internal/capfeed/lifecycle.go:211-223 | the loop over references |
| CapLifecycle.Lifecycle.IsDuplicateRevision | backend/internal/capfeed/lifecycle.go:225-232 | some revision was sent at that instant |
| CapLifecycle.StableSortSorts | backend/internal/capfeed/lifecycle.go:246-248 | the sort keeps the revisions and orders them |
| CapLifecycle.StableSortIsStable | backend/internal/capfeed/lifecycle.go:246-248 | revisions of one instant stay as they stood |
| CapLifecycle.SortIsNoOp | backend/internal/capfeed/lifecycle.go:244-249 | on revisions that increase it does nothing |
| CapLifecycle.AppendKeepsOrder | backend/internal/capfeed/lifecycle.go:244-249 | so an append that is not stale adds the last revision and keeps the book ordered |
| CapLifecycle.Lifecycle.Ingest | backend/internal/capfeed/lifecycle.go:89-129 | the whole new state and the answer; the book stays ordered |
| CapLifecycle.RefusedAnswer | backend/internal/capfeed/lifecycle.go:96-125 | a message not applied is answered for its own identifier, with the state of the alert it refers to if that is known, and else of itself |
| CapLifecycle.Lifecycle.Expire | backend/internal/capfeed/lifecycle.go:148-165 | exactly the active identifiers whose latest revision has run out expire, in any map order |
| CapLifecycle.ExpiredIff | backend/internal/capfeed/lifecycle.go:144-160 | after a sweep an identifier is expired iff it was, or was active with its newest revision running out by then; nothing else changes |
| CapLifecycle.ParseFailuresAreInert | backend/internal/capfeed/lifecycle.go:131-143 | parse failures anywhere in a run leave its revisions and states as without them, and what is quarantined stays in order of arrival |
| CapLifecycle.RevisionsOnlyGrow | backend/internal/capfeed/lifecycle.go:89-165 | over any run revisions strictly increase, states and revisions have the same keys, and revisions are only added at the end |
| CapLifecycle.LatestOnlyMovesForward | backend/internal/capfeed/lifecycle.go:191-199 | Latest is never lost, and whatever replaces it was sent later |
| CapLifecycle.StatesChangeLegally | backend/internal/capfeed/lifecycle.go:109-159 | EXPIRED is entered from ACTIVE alone; any other change is by a message newer than all before |
| CapLifecycle.RedeliveryIff | backend/internal/capfeed/lifecycle.go:82-128 | an applied message delivered again after any run: changes nothing iff it is no update or cancellation; is applied again iff its references name another identifier, all of whose revisions are older; otherwise what is quarantined |
| CapLifecycle.RedeliveredUpdateAppliesAgain | backend/internal/capfeed/lifecycle.go:211-223 | a witness of the second application |
| CapLifecycle.LatestIsNewest | backend/internal/capfeed/lifecycle.go:117-128 | after any run of alerts Latest is the newest delivered for each identifier |
| CapLifecycle.OrderFreeIff | backend/internal/capfeed/lifecycle.go:89-129 | for any set of messages whose alerts have distinct sent times per identifier: all deliveries of it, in any order and with repeats, expiries and parse failures, end with the same Latest iff no follow-up in it is newer than an alert it names and at least as new as every alert of that identifier |
| CapLifecycle.DeliveryOrderIrrelevant | backend/internal/capfeed/lifecycle.go:117-128 | its corollary for alerts alone: the order never matters |
| CapLifecycle.CancelOrderMatters | backend/internal/capfeed/lifecycle.go:99-115 | a witness: any alert and a cancellation of it end in a different state in each order |
| Dedup.AlertDeduplicator.constructor | backend/internal/capfeed/verifier.go:124-137 | positive ttl and capacity, defaulted |
| Dedup.AlertDeduplicator.CheckAndRecord | backend/internal/capfeed/verifier.go:140-161 | the answer and the new map, whatever order the purge takes |
| Dedup.AcceptedIff | backend/internal/capfeed/verifier.go:139-161 | with a clock that never steps back a call is refused iff its digest was accepted at most ttl before, so acceptances are more than ttl apart |
| Dedup.PurgeUnobservableIff | backend/internal/capfeed/verifier.go:145-158 | on given instants, whatever the digests and the capacity, every call is answered as by a deduplicator that never purges, iff no entry found run out at one instant is live again by a later one |
| Dedup.PurgeUnobservable | backend/internal/capfeed/verifier.go:145-152 | its corollary for a clock that never steps back |
| Dedup.RevivalShows | backend/internal/capfeed/verifier.go:145-158 | wherever such an entry revives there are digests that show it: a duplicate is let through that would have been refused |
| Dedup.OutgrowsCapacityIff | backend/internal/capfeed/verifier.go:145-152 | the map outgrows the capacity iff more digests than that were accepted at most ttl before the last call, and then holds exactly those |
| Dedup.CapacityIsNoBound | backend/internal/capfeed/verifier.go:123-161 | a witness: bursts of distinct digests, of any size, within one instant |
| PackageService.OperationalPackageService.PreviewPackage | src/sthira_v2/package_service.py:33-42 | refusals, and the record replaced |
| PackageService.OperationalPackageService.Publish | src/sthira_v2/package_service.py:44-62 | refusals in order, and the whole new state |
| PackageService.OperationalPackageService.Active | src/sthira_v2/package_service.py:64-67 | the active record; any published record of the jurisdiction is that one |
| PackageService.OperationalPackageService.Cancel | src/sthira_v2/package_service.py:69-77 | refusals, and the whole new state |
| PackageService.OperationalPackageService.Rollback | src/sthira_v2/package_service.py:79-95 | refusals in order, and the whole new state |
| PackageService.StepKeepsInv | src/sthira_v2/package_service.py:33-95 | every call keeps: published records are the active ones of their own jurisdiction, and active ids are known |
| PackageService.AtMostOnePublished | src/sthira_v2/package_service.py:33-95 | after any calls at most one package is published in a jurisdiction |
| PackageService.VersionIsFixed | src/sthira_v2/package_service.py:38-41 | an identifier's version never changes, over any calls |
| PackageService.PublishIff | src/sthira_v2/package_service.py:44-62 | spelled out: when publication goes through, and exactly what it changes |
| PackageService.PreviewIff | src/sthira_v2/package_service.py:33-42 | spelled out: when a preview goes through, and what it files |
| PackageService.SpacesAre | src/sthira_v2/operational_package.py:69-73 | spelled out: the characters that count as space in the identifier and jurisdiction of a package |
| PackageService.AnswersAre | src/sthira_v2/package_service.py:33-95 | a refusal is for authority iff the operator is not authenticated or the package is another jurisdiction's, and changes nothing; what is returned is the record filed |
| PackageService.RollbackIff | src/sthira_v2/package_service.py:79-95 | spelled out: when a rollback goes through, and exactly what it changes |
| PackageService.CancelTakesOut | src/sthira_v2/package_service.py:69-77 | spelled out: what a cancellation takes out, and that it cannot be rolled back to |
| PackageService.ActiveVersionNeverDrops | src/sthira_v2/package_service.py:53-61 | without cancel and rollback a jurisdiction's active version never drops |
| PackageService.DisplacedByHigher | src/sthira_v2/package_service.py:53-61 | a package that previews and publications have superseded, over any run, was superseded by one call, whose jurisdiction its active pointer then named, and that jurisdiction now has a strictly higher version active |
| PackageService.ServesIff | src/sthira_v2/package_service.py:33-95 | active pointers keep naming published packages of their jurisdiction iff the call is no second preview of an active one |
| PackageService.ServesThroughoutIff | src/sthira_v2/package_service.py:33-95 | the same for whole runs |
| PackageService.RepreviewUnpublishes | src/sthira_v2/package_service.py:36-41 | spelled out: a second preview leaves the jurisdiction with nothing published and nothing to roll back to |
| PackageInterleaving.RollbackInOneGo | src/sthira_v2/package_service.py:79-95 | undisturbed, the parts of a rollback are the whole call |
| PackageInterleaving.CancelInOneGo | src/sthira_v2/package_service.py:69-77 | the same for a cancellation; a refused call is over at once and changes nothing |
| PackageInterleaving.RestoreIff | src/sthira_v2/package_service.py:92-95 | the locked part of a rollback keeps every published record active, and one in service in its jurisdiction, iff no other is in service there when it takes the lock |
| PackageInterleaving.TakeOutKeepsInv | src/sthira_v2/package_service.py:69-77 | a cancellation keeps it whatever came between its read and the lock |
| PackageInterleaving.TakeOutIsCancelIff | src/sthira_v2/package_service.py:70-77 | it is the cancellation of what is filed by then iff package and publication time are still those it read |
| PackageInterleaving.StepIff | src/sthira_v2/package_service.py:33-95 | of all steps of all calls in flight, only the overtaken rollback's last one breaks the invariant |
| PackageInterleaving.SafeIff | src/sthira_v2/package_service.py:33-95 | any interleaving keeps one package a jurisdiction in service at every moment iff no rollback in it is overtaken |
| PackageInterleaving.RollbackRace | src/sthira_v2/package_service.py:82-95 | a run from nothing, with the supersede write outside the lock, that ends with two in service |
| AllocationLedger.FirstFitIff | src/sthira_v2/allocation.py:70-73 | the first facility in policy order that fits, and none iff none fits |
| AllocationLedger.InMemoryAllocationService.RegisterFacility | src/sthira_v2/allocation.py:46-50 | refused outside its bounds, otherwise filed under its name |
| AllocationLedger.RegisteredIff | src/sthira_v2/allocation.py:46-50 | spelled out: registration goes through iff what is offered is between nothing and the total |
| AllocationLedger.InMemoryAllocationService.TakePlaces | src/sthira_v2/allocation.py:74-81 | the facility object is decremented in place, and allocation and fingerprint are filed |
| AllocationLedger.InMemoryAllocationService.AssignParty | src/sthira_v2/allocation.py:52-82 | the whole new ledger and the answer |
| AllocationLedger.InMemoryAllocationService.ConfirmArrival | src/sthira_v2/allocation.py:84-104 | the whole new ledger and the answer |
| AllocationLedger.AssignTakesFirstFit | src/sthira_v2/allocation.py:70-82 | a new assignment takes its party size from the first fit and from nowhere else; unavailable iff none fits |
| AllocationLedger.NewAnswers | src/sthira_v2/allocation.py:66-103 | what a new assignment and a first arrival return, under the given key or else the assignment's identifier |
| AllocationLedger.StepKeepsInv | src/sthira_v2/allocation.py:46-104 | every call keeps 0 <= remaining <= total and the agreement of allocations, fingerprints and arrivals |
| AllocationLedger.NothingIsUndone | src/sthira_v2/allocation.py:63-104 | over any run no reservation or arrival is lost or changed |
| AllocationLedger.ReplaysChangeNothing | src/sthira_v2/allocation.py:64-69 | after any run the same payload gets the same allocation, another is a conflict, and neither changes the ledger |
| AllocationLedger.ArrivalIsFinal | src/sthira_v2/allocation.py:84-104 | the first arrival is reported for ever and touches no capacity |
| AllocationLedger.ConservedIff | src/sthira_v2/allocation.py:46-82 | remaining plus assigned stays what was registered, for every call but exactly the re-registration of an occupied facility |
| AllocationLedger.CapacityConserved | src/sthira_v2/allocation.py:46-82 | over every run without one capacity is conserved and no facility is overbooked |
| AllocationLedger.RegisteredOnce | src/sthira_v2/allocation.py:46-50 | registering each facility once is enough |
| AllocationLedger.WithinTotalIff | src/sthira_v2/allocation.py:46-82 | a call keeps what is left plus what is taken within every total iff it is not a registration that offers more places than are free |
| AllocationLedger.WithinTotalThroughoutIff | src/sthira_v2/allocation.py:46-82 | the same for whole runs, in which then no facility holds more people than it has places |
| AllocationLedger.ReregistrationOverbooks | src/sthira_v2/allocation.py:49-50 | a witness: any facility, registered again as it was at first, holds twice its capacity |
| Audit.ChainExtends | src/sthira_v2/audit.py:91-112 | an event extends a valid chain iff its identifier is new, it links to the head and carries its own digest |
| Audit.VerifyChain | src/sthira_v2/audit.py:91-112 | accepts exactly the valid chains, and otherwise names the first event that breaks one |
| Audit.HeadDeterminesChain | src/sthira_v2/audit.py:49-112 | with a collision-free digest that never yields genesis two valid chains with the same head are equal |
| Audit.DeterministicAuditRepository.Append | src/sthira_v2/audit.py:124-130 | takes exactly the events that keep the chain valid |
| Audit.AuditService.Record | src/sthira_v2/audit.py:140-178 | records every well-formed event with a new identifier, and reports any other |
| Audit.RecordedIff | src/sthira_v2/audit.py:34-178 | an event is recorded, last and behind the head, iff its texts are within bounds, its instant is in UTC and its identifier is new; otherwise which of the two is wrong |
| Audit.RecordKeepsChain | src/sthira_v2/audit.py:140-178 | the chain stays valid |
| SourceActivation.DeterministicSourceRepository.Add | src/sthira_v2/source_activation.py:95-98 | a known source is refused |
| SourceActivation.DeterministicSourceRepository.Replace | src/sthira_v2/source_activation.py:100-106 | goes through exactly for the version it was based on |
| SourceActivation.SourceActivationService.DiscoverSource | src/sthira_v2/source_activation.py:117-121 | new sources begin in DISCOVERED, and no event is recorded |
| SourceActivation.SourceActivationService.MoveSource | src/sthira_v2/source_activation.py:123-152 | the source is moved, then the event recorded; the whole new state and the answer |
| SourceActivation.IllegalIff | src/sthira_v2/source_activation.py:34-48 | a known source moves between exactly these nine pairs of states; any other move is refused as illegal, one of an unknown source as unknown, and neither changes anything |
| SourceActivation.MovedAsAsked | src/sthira_v2/source_activation.py:132-152 | a legal move with a recordable event: the record filed and returned, the one event added, no other source touched |
| SourceActivation.SourceLives | src/sthira_v2/source_activation.py:34-152 | any source can run its whole life: OPERATIONAL after five moves, SUSPENDED, OPERATIONAL again, RETIRED after eight |
| SourceActivation.GuidanceIsAuthorized | src/sthira_v2/source_activation.py:154-160 | what the operational check stands on: after any recordable run an OPERATIONAL source has the five steps of the route in its trail, in order, and has moved at least that often |
| SourceActivation.FaithfulIff | src/sthira_v2/source_activation.py:123-152 | each call, taken whole, leaves the log accounting for every source, except exactly a legal transition whose event cannot be recorded |
| SourceActivation.FaithfulThroughoutIff | src/sthira_v2/source_activation.py:117-152 | the same for whole runs |
| SourceActivation.TrailAccountsForState | src/sthira_v2/source_activation.py:34-152 | each source's events are a legal path from DISCOVERED to its state, and its version is the initial one plus their count |
| SourceActivation.ChainAlwaysValid | src/sthira_v2/source_activation.py:141-151 | the chain verifies after every run, and events are only added |
| SourceActivation.TrailShowsRoute | src/sthira_v2/source_activation.py:34-48 | no source is OPERATIONAL before its trail shows access, sample, validation and authorization in that order |
| SourceActivation.UnrecordableMovesAnyway | src/sthira_v2/source_activation.py:138-152 | such a transition fails, has moved the source, and can never be made good |
| SourceInterleaving.InOneGo | src/sthira_v2/source_activation.py:123-152 | undisturbed, the repository calls of a transition or a recording are the whole call |
| SourceInterleaving.StepIff | src/sthira_v2/source_activation.py:132-151 | of all repository calls of all transitions and recordings in flight, each leaves the log plus the moves still to be recorded accounting for every source, except exactly the append of a move that is refused or comes before an earlier move's; the chain stays valid regardless |
| SourceInterleaving.AccountedThroughoutIff | src/sthira_v2/source_activation.py:117-152 | the same at every moment of any interleaving, from the empty system (`StartIsSound`) or any other that keeps the account |
| SourceInterleaving.QuietIsFaithful | src/sthira_v2/source_activation.py:123-152 | with nothing in flight, that account is the one of the sequential calls |
| SourceInterleaving.InOrderIff | src/sthira_v2/source_activation.py:34-48 | moves of one source recorded out of order are no legal path: the trail goes on to the state iff the earliest unrecorded move is recorded first |
| SourceInterleaving.OvertakenLoses | src/sthira_v2/audit.py:153-177 | any well-formed event of another part, appended between a move's read of the head and its append, loses the move |

## Left out

- IpcProtocol.NobodyLeftWaiting: speaks of the Close that found the dispatcher open; a repeated Close returns early, as its own lemma shows.
- IpcProtocol.SuccessIsOwnReply: for an empty request id it does not say that the reply came from the child, because a reset then passes for one.
- Liveness: that a line, a write or a kill eventually happens. Pipes, timers, process spawning and reaping are nondeterministic steps; a step that is enabled need not be taken.
- WorkerPool.Worker.Submit: takes as given that nobody is admitted once the queue is closed, because the code does not order a send against the close in Shutdown; so a send on the closed queue, and LoadAndVerify after Shutdown, are outside the model.
- WorkerPool.Worker.RunOne: one turn without interruption; interleavings are the step system's.
- WorkerPool.Worker.Shutdown: the runtime's Close and the wait bounded by the caller's context.
- RateLimiter.RateLimiter.Allow: real tokens and seconds in place of IEEE floating point and saturating durations; the nil limiter, and counters that wrap at 2^64.
- Resample.DecodeWav: exact rationals in place of float32 and float64; the MIME check, and the content type echoed in the result, are not part of this model.
- WavWalk.DecodeRiffWav: the infinite loop is reported as an outcome, NeverReturns, which the code never delivers; signed 32-bit platforms, where `int(size)` can be negative, are left out.
- JsonWalk.WalkValue: the tokenizer of encoding/json is a sequence of tokens that ends at EOF; that it rejects text which is no JSON, and the typed decoding after the walk, are left out.
- BraceScan.Gather: keeps the texts; `json.loads` on each is left out. Bytes and characters are both `char`.
- ScopedChoice.EnforceLists: the language, speech key, panel, route and layer rules, and the checks of jurisdiction and data version that come first, are one-branch checks.
- ScopedChoice.ScopedSchema: the schema is the set of lists it allows; the JSON around it, and the order of the sorted ids, which its enum ignores, are left out.
- CapLifecycle.Lifecycle.Expire: returns a set; the code sorts it. The detail strings of quarantined artifacts are left out, as are the read-only accessors.
- Dedup.AlertDeduplicator.CheckAndRecord: instants and durations are unbounded integers. The canonical digest of an alert is not part of this model.
- PackageService.OperationalPackageService.PreviewPackage: the package validator beyond identifier, version and jurisdiction is one boolean of the package.
- PackageService.OperationalPackageService.Rollback: a whole call; PackageInterleaving breaks it up, at every read and write of a dictionary entry, each of which is one step.
- AllocationLedger.InMemoryAllocationService.RegisterFacility: a caller who keeps the facility object and changes it behind the ledger's back is not modelled.
- Audit.VerifyChain: SHA-256 and the canonical JSON are one function of an event and the digest before it; that digests are 64 hexadecimal digits is not checked.
- SourceActivation.SourceActivationService.MoveSource: a whole call; SourceInterleaving breaks it up at every call of a repository, each of which is one step, as audit.py:81-82 demands of appends; two replacements that overlap inside the repository are left out.
- The HTTP handlers, middleware, CLI, catalogue, orchestration, store and front end: plumbing and one-branch checks, or guarantees that rest on database transactions.
