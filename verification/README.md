# Verified model of the XUS miner's stateful core

This Dafny project models the parts of the miner that keep state or do exact arithmetic, and proves
what they are for. `dafny verify dfyconfig.toml` checks all of it.

| module | what it models |
|---|---|
| `RandomXManager` | the mutex-guarded manager of the one shared RandomX dataset, and any number of workers around it |
| `MempoolPacking` | validation of the fee histogram, the bucket-wise packer, the backlog depth, and the chart's merged tail |
| `TipTracking` | the network block feed's tip and reorganization detector |
| `RecentBlocks` | the bounded cache of recent blocks and its rate-limited backfill |
| `JobProtocol` | the job slot and the generation counter, as an interleaving of threads |
| `ShareAccounting` | share counters and back-pressure, as an interleaving of workers, connections and replies |
| `JobTemplate`, `HeaderWire`, `AccountId`, `CompactTarget` | acceptance of a block template, its header layout, the account grammar, the difficulty decoder |
| `HttpFraming` | the bounded HTTP response reader |
| `EngineSupervisor` | supervision of the mining engine process, its recovery budget, and the telemetry health machine |
| `EngineState`, `EngineSteps` | the supervisor's state, what telemetry does to it, and what each input does to it, with the invariant all of it keeps |
| `EngineTrace`, `EngineRuns` | what the supervisor may do over time, and whole runs over the operator's and the system's inputs |
| `ChildLines` | the bounded line reader for the engine's output |
| `CivilDate` | the days-to-date conversion of the diagnostic log |
| `ByteNumbers`, `Utf8`, `Basics` | numbers in bytes, strict UTF-8, shared vocabulary |

Conventions. Code that updates fields or runs a loop is a class or a method, proved against a function on
values; results about whole runs are lemmas about those functions. Concurrent code is a transition system
whose steps are the source's atomic sections, and a theorem quantifies over every run of any number of
threads. The interleaving is sequentially consistent: weaker effects of the Acquire and Release orderings of
the counters are not modelled. Native allocation, process spawning, reaping, sockets and clocks are
arguments of the steps, so each of their answers is covered. Hashes are uninterpreted functions. Time is a
natural number. `U64` and `U32` are bounded integers, so each addition that could overflow is either written
out (`SaturatingAdd`, `CheckedSum`, `% 2^64` for nonces) or shown not to.

Where the code does less than the simplest statement would say, the exact condition is proved instead:

* A generation check can pass on a job that is no longer in the slot, between an installer's slot write and
  its bump (`JobProtocol.CheckCanPassBeforeTheBump`). `PassingCheckIsStaleExactly` says when, and
  `PassingCheckHasTheInstalledJob` is the guarantee outside that window.
* A pool reply that answers no outstanding share still frees a slot of the connection, after which more
  shares than workers can be in flight (`ShareAccounting.StrayReplyOverfills`). The counter equals the
  shares in flight throughout a run exactly when no such reply ever meets a counter above zero
  (`CounterIsExactUnlessOverdrawn`).
* The retry time of a seed change moves exactly when a request comes at or after it while a worker still
  holds the old dataset (`RandomXManager.RetryTimeMovesExactly`, and `RetryTimeCanMove` for the move
  itself); from the moment nobody does it is final (`DrainedRetryTimeIsFinal`).
* Stable hashing is checked for staleness at the end of each frame only, so a silence between two samples
  is found out exactly when a frame ends in it with stale metrics, and counts as stable otherwise
  (`EngineTrace.SilenceCountsUnlessAFrameSeesIt`; `EngineRuns.SilenceCanRenew` is a run in which a slept-through
  silence renews the recovery budget). `EngineRuns.RenewalIsEarned` says what a renewed recovery budget
  does guarantee.
* With a cap of zero the packer returns nothing, so `PendingCountsAreExact` is an exact count for every
  positive cap and zero for that one.

## Model

| member | source | states |
|---|---|---|
| RandomXManager.DatasetManager.SharedFastDataset | src/pow.rs:156-291 | one lock section: an answer is the dataset published for exactly the requested key, no answer leaves the slot managing that key without a ready dataset; the whole new slot is that of `Decide` and `AfterBuild` |
| RandomXManager.DatasetManager.ReleaseFastDatasetIfUnused | src/pow.rs:293-316 | the new slot is that of `ReleaseUnused`, of which `ReleaseFreesTheUnusedDataset` says when it frees the dataset |
| RandomXManager.ReleaseFreesTheUnusedDataset | src/pow.rs:293-316 | in every reachable state, a worker whose fast VMs failed frees the dataset of its key exactly when it is published and no worker is on it, and the key then backs off for 15 seconds; otherwise nothing changes |
| RandomXManager.AnotherKeyStartsARelease | src/pow.rs:156-268 | a request for a key that is neither that of the dataset in memory nor being made way for keeps the dataset and starts the full delay anew |
| RandomXManager.BuildsPublishOrBackOff | src/pow.rs:268-291 | a finished build is published as the only dataset, or leaves nothing allocated and its key backing off from when the lock was taken |
| RandomXManager.VmAfter | src/pow.rs:364-421 | which VM a worker gets: fast on the dataset it attaches to, otherwise light on the cached or newly built cache, for good where light mode is forced and as a fallback elsewhere, or none |
| RandomXManager.VmIsKeptWhileItServes | src/pow.rs:424-479 | over any run a worker hashes on the VM it last got exactly while that is for the asked key and not a fallback 15 seconds old; otherwise it lets go of it and asks anew |
| RandomXManager.ForcedLightNeverAllocates | src/pow.rs:381-384 | under forced light mode no run ever locks the manager or allocates a dataset |
| RandomXManager.StepInv | src/pow.rs:156-316 | every atomic step of every worker keeps the invariant that live datasets are exactly the referenced ones and each handle is the manager's or being initialized under the lock |
| RandomXManager.AtMostOneDataset | src/pow.rs:156-316 | in every run of any number of workers at most one full dataset is allocated, every handle is the one that exists, and an allocation starts only when none does |
| RandomXManager.EveryHashUsesItsJobsKey | src/pow.rs:424-479 | in every run every hash is computed on memory initialized from the hashed job's own key |
| RandomXManager.LockServesExactlyTheDatasetInMemory | src/pow.rs:138-154 | a request is served at once exactly when the dataset in memory, published or being released, was built from its key, and then nothing is allocated or freed |
| RandomXManager.UnavailableBacksOff | src/pow.rs:196-208 | over any run after a failure, while all requests are for the same key, nothing is allocated before the retry time and the first request at or after it builds |
| RandomXManager.ReleasingStep | src/pow.rs:209-268 | while all requests are for the new key the set of workers on the old dataset only shrinks and the manager stays on course |
| RandomXManager.RetryTimeMovesExactly | src/pow.rs:209-268 | while the old dataset is being released, the manager changes short of dropping it exactly when a request comes at or after the retry time and a worker still holds that dataset, and the retry time is then a full delay from now |
| RandomXManager.RetryTimeCanMove | src/pow.rs:209-268 | a run from the start in which a second worker's request moves the retry time from 15 to 30 seconds |
| RandomXManager.EveryWorkerTurningDrains | src/pow.rs:209-268 | once every worker has turned to the new key the old dataset is unreferenced by workers or gone |
| RandomXManager.DrainedRetryTimeIsFinal | src/pow.rs:209-268 | from then on the retry time never moves, and the first request at or after it drops the old dataset and starts the new build |
| MempoolPacking.ParseAcceptsExactlyTheValid | src/blockflow.rs:207-243 | a histogram is accepted exactly when capacity is positive, buckets are at most 512 in non-increasing fee order, and the counts add up exactly |
| MempoolPacking.PlaceBucket | src/blockflow.rs:271-300 | placing a bucket in a few large pieces does exactly what placing its transactions one at a time does |
| MempoolPacking.PackedPendingBlocks | src/blockflow.rs:265-305 | the packer's result is the one-at-a-time packing of the expanded fee list without its first block, for every histogram and cap |
| MempoolPacking.PackingIsChunked | src/blockflow.rs:265-305 | one-at-a-time packing cuts the fee list into consecutive chunks of the capacity, each block carrying exact count, lowest and highest fee, the block at the cap taking the rest |
| MempoolPacking.PendingBlocksAreChunks | src/blockflow.rs:265-332 | for every valid histogram and cap there are min(cap, depth) blocks and block k summarizes chunk k + 1 |
| MempoolPacking.FeeRangesFollowAdmissionOrder | src/blockflow.rs:265-305 | a block's fee range is its first and last transaction's fee, and no later block pays more |
| MempoolPacking.PendingCountsAreExact | src/blockflow.rs:265-332 | the counts add up to the transactions beyond the forming block: saturation never fires on a valid histogram |
| MempoolPacking.MergedTailSignalsAgree | src/gui.rs:5113-5140 | the chart's two merged-tail signals agree, and the block number it labels the tail with is its count divided by the capacity, rounded up |
| MempoolPacking.BacklogBlocks | src/blockflow.rs:315-332 | the backlog has min(24, depth) blocks holding every pending transaction |
| MempoolPacking.ProjectedBlocks | src/blockflow.rs:309-311 | the strip has min(6, depth) blocks holding every pending transaction |
| MempoolPacking.CapsAgreeBeforeTheTail | src/blockflow.rs:265-318 | strip and backlog of one histogram agree on every block but the strip's last |
| TipTracking.TipWatch.Observe | src/blockflow.rs:511-541 | a tip report's answer and new state |
| TipTracking.TipWatch.Record | src/blockflow.rs:557-598 | a height report's classification and new state, including the pruning |
| TipTracking.NormalizedExactly | src/blockflow.rs:557-563 | the hash that counts is the disclosed text without its surrounding white space, if not empty and at most 128 bytes long |
| TipTracking.AnswersFollowTheLog | src/blockflow.rs:511-541 | over every sequence of operations: the first tip of a session is answered with a baseline, one no higher than the last with nothing, a higher one with blocks |
| TipTracking.MemoryIsTheGreatestHeights | src/blockflow.rs:503-598 | after any sequence of operations the memory holds exactly the 64 greatest heights ever registered, each with the last valid hash disclosed for it, and the last tip observed |
| TipTracking.NewExactlyWhenUnknownOrOutgrown | src/blockflow.rs:546-598 | a height is announced as new exactly when it was never registered or 64 greater heights were |
| TipTracking.ReorgExactlyWhenTheHashChanged | src/blockflow.rs:557-590 | a reorganization is reported exactly when a remembered height discloses another valid hash than the last one, and it names that one |
| TipTracking.AdvanceAccountsForTheGap | src/blockflow.rs:520-540 | an advance accounts for exactly the heights between the tips, the last four of them, or as many as there are, individually |
| TipTracking.SessionPartitionsTheChain | src/blockflow.rs:511-541 | with non-decreasing tips, omitted ranges and reported heights in order list every height after the baseline exactly once |
| RecentBlocks.RecentBlocks.RefreshTargets | src/blockflow.rs:638-656 | the targets are the first four missing heights of the window, newest first |
| RecentBlocks.MissingExactly | src/blockflow.rs:631-656 | the missing heights are those among the tip and the 32 below it that are not cached, newest first |
| RecentBlocks.RecentBlocks.InsertBlock | src/blockflow.rs:660-673 | the new cache, with descendants of a replaced block gone and the window applied |
| RecentBlocks.CacheHoldsExactlyTheSurvivors | src/blockflow.rs:660-673 | after any insertions a block is cached exactly when its last insertion has stayed in every window and no replacement was detected below it since |
| RecentBlocks.DetectedExactly | src/blockflow.rs:660-668 | a reorganization is detected exactly when a surviving insertion disclosed another hash for the height |
| RecentBlocks.CacheStaysInTheLatestWindow | src/blockflow.rs:631-673 | cached heights lie in the latest tip's window, at most 33 of them |
| RecentBlocks.BackfillFillsWhatItAsksFor | src/main.rs:1578-1598 | fetching the first missing blocks in order leaves exactly the others missing, whatever the blocks turn out to be |
| RecentBlocks.NinePassesFillTheWindow | src/main.rs:1578-1598 | each full pass at a fixed tip takes min(4, missing) off, so nine passes fill any window |
| JobProtocol.StepInv | src/main.rs:851-911 | every atomic step of every thread keeps the slot, counter and thread invariant |
| JobProtocol.PassingCheckHasTheInstalledJob | src/main.rs:1812-1833 | in every run, a passing generation check with no writer between its slot write and its bump means the worker's job is the installed one |
| JobProtocol.PassingCheckIsStaleExactly | src/main.rs:1830-1833 | otherwise a passing check is stale exactly when some thread is between the latest slot write and its bump, and the worker read the slot before that write |
| JobProtocol.NoCheckPassesAfterTheReplacementsBump | src/main.rs:1907-1908 | once a write after a job's installation is published no check ever passes again for that job, on any thread |
| JobProtocol.AcceptedClearSparesOtherJobs | src/main.rs:893-911 | an accepted-block clear for a superseded job changes nothing, at any later time |
| JobProtocol.EveryClearErasedItsOwnJob | src/main.rs:893-911 | in the whole history every accepted-block clear erased the job it was for |
| JobProtocol.LockBelongsToTheClear | src/main.rs:893-911 | in every run the slot is locked across steps exactly by the thread in the middle of an accepted-block clear |
| JobProtocol.ReloadCatchesUp | src/main.rs:1812-1833 | a worker whose check fails re-reads, and then passes the check with the installed job |
| JobProtocol.EveryBumpIsNoticed | src/main.rs:858-911 | right after any publication no check passes, on any thread |
| JobProtocol.WritesAreWhatTheySay | src/main.rs:851-890 | an installer leaves a job that never was in the slot before, a teardown none |
| JobProtocol.CheckCanPassBeforeTheBump | src/main.rs:851-858 | a run in which a check passes on a replaced job before the installer's bump |
| ShareAccounting.Connection.ReserveShare | src/main.rs:921-927 | reserves exactly when the count is below the limit, and otherwise changes nothing |
| ShareAccounting.CountersCountTheirSteps | src/main.rs:1011-1022 | over every run the three counters are the numbers of submissions, of accepting verdicts and replies, and of rejecting ones |
| ShareAccounting.NumbersAreDrawnInOrder | src/main.rs:1945-1962 | request numbers are drawn one by one from 1000 on, whether or not a slot is free |
| ShareAccounting.DirectAccounting | src/main.rs:1910-1943 | without a pool, submitted is accepted plus rejected plus one for each worker in mid-submission |
| ShareAccounting.SubmissionsAreConserved | src/main.rs:1910-1973 | with pools, in every interleaving, no submission is lost or counted twice but for stray replies |
| ShareAccounting.PendingIsInFlight | src/main.rs:914-936 | a connection's counter never exceeds the worker count nor its shares in flight, and stays within the stray replies of them |
| ShareAccounting.DeficitStep | src/main.rs:921-935 | in every step, what the counter lacks of its shares in flight grows by one for a stray reply that takes a slot, shrinks by one for a finish that saturates, and otherwise stays |
| ShareAccounting.CounterIsExactUnlessOverdrawn | src/main.rs:914-1013 | throughout a run the counter equals the shares in flight exactly when no stray reply ever met a counter above zero |
| ShareAccounting.FinishNeverSaturates | src/main.rs:929-935 | on such a connection a finished share always frees a slot |
| ShareAccounting.StrayReplyOverfills | src/main.rs:1013-1022 | a run with one worker in which a stray reply lets two shares be in flight |
| JobTemplate.FromRpc | src/main.rs:555-660 | a template is accepted exactly when it commits to its header in every checked field, the job copies it, and a refusal reports the first violated condition in the order of the checks |
| JobTemplate.AlgoExactly | src/main.rs:588-592 | the two algorithms by their names, and no other name |
| JobTemplate.HonestTemplatesAreAccepted | src/main.rs:555-660 | every template rendered from a header with a well-formed reward account and a representable difficulty is accepted |
| JobTemplate.EveryHashedBlobKeepsTheCommitment | src/main.rs:1834-1835 | for every accepted template and every sequence of nonces written into the reused work buffer, the buffer decodes to the accepted header with only the nonce changed, to the last one, so all checks hold for every blob hashed or submitted |
| JobTemplate.SealMeetsHeaderDifficulty | src/main.rs:1907 | a digest passes the seal test exactly when its number is at most the value the hashed header commits to |
| JobTemplate.WorkersNeverRepeatABlob | src/main.rs:1807 | no two of at most 64 workers, nor one twice, hash the same blob within 2^56 attempts each |
| JobTemplate.NoncesCountUp | src/main.rs:1807-1975 | a worker begins at its own multiple of 2^56 and counts up by one, wrapping at 64 bits |
| HeaderWire.DecodeUndoesEncode | src/wire.rs:5-17 | decoding undoes encoding for every header |
| HeaderWire.EncodeUndoesDecode | src/wire.rs:5-17 | encoding undoes decoding for every accepted blob |
| HeaderWire.EncodedFields | src/wire.rs:5-17 | where each field of a header stands in its encoding |
| HeaderWire.SpliceNonce | src/main.rs:1834-1835 | the in-place write puts the nonce's eight little-endian bytes at the offset and leaves every other byte |
| HeaderWire.SpliceChangesOnlyTheNonce | src/main.rs:1834-1835 | at the trailing offset it changes the decoded nonce and nothing else |
| HeaderWire.BufferKeepsOnlyTheLastNonce | src/main.rs:1834-1835 | a work buffer written with any nonces in turn holds the original with the last one |
| AccountId.ValidateAccountId | src/wire.rs:23-46 | accepts exactly the names of two to 64 bytes made of alphanumeric segments joined by single separators, and says what is wrong with others |
| AccountId.Alphabet | src/wire.rs:31-38 | the characters of a segment and the separators |
| CompactTarget.TargetFromCompact | src/main.rs:681-716 | the target's big-endian value is the mantissa times 256^(size-3), rounded down; there is none exactly when the sign bit is set or the value needs more than 256 bits |
| CompactTarget.CompactFields | src/main.rs:681-690 | a commitment is a byte of size, a sign bit and 23 bits of mantissa, and stands for the scaled mantissa |
| CompactTarget.TooWideExactly | src/main.rs:690-692 | the decoder's limit test refuses exactly the values of more than 256 bits |
| CompactTarget.SealTestIsNumeric | src/main.rs:1907 | comparing digest and target byte by byte is comparing their numbers |
| HttpFraming.Reader.ReadHeaderLine | src/rpc.rs:83-99 | one line under the remaining header budget: its text, what is left unread, and the bytes counted, without underflow |
| HttpFraming.LineExactly | src/rpc.rs:83-99 | a header line is read exactly when the stream begins with its UTF-8 text and CR LF within the budget |
| HttpFraming.TooLongExactly | src/rpc.rs:83-92 | and is too long exactly when no line feed comes within the budget and the stream goes on |
| HttpFraming.NotUtf8Exactly | src/rpc.rs:93-99 | and is reported as not UTF-8 exactly when it is complete and no text is encoded by it |
| HttpFraming.Reader.ReadResponse | src/rpc.rs:101-176 | the outcome and what is left unread on every input, having consumed at most header limit, body limit and one byte |
| HttpFraming.StatusExactly | src/rpc.rs:103-115 | a status line is a success exactly when it is an HTTP/1.0 or 1.1 answer with a three-digit 2xx code, reported by its code exactly when it is such an answer of another class, and malformed otherwise |
| HttpFraming.RefusedStatusIsReported | src/rpc.rs:113-115 | a response of another class is refused with its code and nothing after the status line is read |
| HttpFraming.DeclaredExactly | src/rpc.rs:117-162 | a field section is read without error and declares a length exactly when each field is acceptable by itself and one field, or none, declares it |
| HttpFraming.FieldErrorsExactly | src/rpc.rs:124-160 | which field is refused as malformed, as a bad or too long Content-Length, or for its encoding |
| HttpFraming.FirstBadFieldIsReported | src/rpc.rs:117-162 | the first field that cannot be read is what is reported, and nothing after it is read |
| HttpFraming.LowerIgnoresCase | src/rpc.rs:136-155 | names are compared without regard to the case of ASCII letters, and of nothing else |
| HttpFraming.TokenCharsAreVisible | src/rpc.rs:128-132 | token characters are the visible ASCII characters that are not delimiters (section 5.6.2 of RFC 9110) |
| HttpFraming.GoodHeadsAreAccepted | src/rpc.rs:101-176 | every conforming head is taken to its end and followed by the body its length says |
| HttpFraming.OnlyGoodHeadsAreAccepted | src/rpc.rs:101-176 | a success read a conforming head, with a 2xx status line by its own grammar, then exactly the announced body, and nothing else |
| HttpFraming.RenderedResponsesRoundTrip | src/rpc.rs:101-176 | any 2xx status line, unrelated fields, spelling of Content-Length, body and following bytes: reading the rendered message gives exactly the body and leaves exactly the following bytes |
| HttpFraming.CloseDelimitedResponses | src/rpc.rs:164-176 | without Content-Length the body is the rest of the stream, refused exactly when it is longer than the limit |
| HttpFraming.ShortBodiesAreReported | src/rpc.rs:163-168 | a body that ends before its declared length is refused as such |
| ChildLines.Reader.ReadBoundedChildLine | src/gui.rs:558-598 | for every division into chunks: the first line, its first 8192 bytes, the truncation mark exactly when it is longer, and exactly the line and its newline consumed |
| ChildLines.Reader.ReadAll | src/gui.rs:2021-2036 | the lines read are a function of the undivided stream alone |
| ChildLines.RecordsOfLines | src/gui.rs:558-598 | newline-separated lines, the last perhaps unterminated, are read back in order |
| ChildLines.KeepExactly | src/gui.rs:575-598 | a line that fits is kept whole less the CR of its CR LF, a longer one by its first 8192 bytes and a mark |
| ChildLines.LineEndingsDoNotMatter | src/gui.rs:558-598 | lines that fit are read back unchanged whether written with LF or CR LF |
| ChildLines.EveryStreamIsLines | src/gui.rs:558-598 | every stream is of that form |
| EngineSupervisor.Supervise | src/gui.rs:1869-2473 | for every sequence of inputs the states of the supervisor form a run: each is exactly what `EngineSteps.After` makes of the one before, the operator's requests and the system's answers, and every one of them is sound |
| EngineRuns.EveryStateIsSound | src/gui.rs:1487-1496 | in every run, in every state: the trace is safe, at most one engine exists, it is in hand in one place and is the only one not proven gone, `Mining` is shown only without failed worker or fatal failure, the ready count is exact, the attempts are at most five |
| EngineSteps.AfterOk | src/gui.rs:1805-2473 | whatever the operator asks and the system answers, the invariant that ties processes, recovery budget and health to the trace is kept |
| EngineRuns.StepCauses | src/gui.rs:2362-2473 | every act is one that its input can cause: start and stop marks come from the operator, a retry from a restart that is due, a spawn from the launch of that very process, a reap from an answer that proves that very process gone, samples from metrics events of that frame, failures and silences from its messages or observations |
| EngineRuns.EveryReapWasObserved | src/gui.rs:2362-2421 | in every run a process counts as gone only if an answer of the system to some input (an exit, or a cleanup that succeeded) proves that process gone |
| EngineRuns.NoEngineIsLost | src/gui.rs:2230-2262 | in every run a spawned process that no answer of the system has proven gone since is still in hand, as the child or in quarantine |
| EngineRuns.ProvenGoneIsLetGo | src/gui.rs:2362-2421 | conversely, in every reachable state a process that the answers to an input prove gone is not in hand afterwards |
| EngineRuns.SpawnsWaitForTheSystem | src/gui.rs:1880-1883 | in every run, between two spawns an answer of the system proves the first process gone |
| EngineRuns.NothingStartsUntilTheOperatorStarts | src/gui.rs:2087-2160 | in every run, after an operator's stop nothing is started or spawned before an operator's start among the inputs |
| EngineRuns.AtMostFiveAutomaticStarts | src/gui.rs:1805-1858 | in every run, inputs without an operator's start and without five stable minutes spawn at most as many engines as there are counted retries, and these are at most five |
| EngineRuns.RecoverableExitsAreScheduled | src/gui.rs:2285-2360 | in every reachable state, a frame that ends the output of an exited engine announces the next start, a doubling delay away, if recovery is wanted and not spent and the exit not beyond repair |
| EngineRuns.RecoverableLossesAreScheduled | src/gui.rs:2264-2283 | so does a frame in which a lost engine's output ends or its grace is over |
| EngineRuns.UnrecoverableExitsEndInError | src/gui.rs:2320-2358 | an exit that was not asked for announces nothing where recovery is off, spent or terminal, and sets the one-worker and light-memory tiers on Windows, and only there |
| EngineRuns.ExitsWaitForTheOutput | src/gui.rs:2366-2373 | an engine seen to have exited is let go, its link is down, and its exit waits for the end of its output |
| EngineRuns.LossesDrainTwoSeconds | src/gui.rs:2230-2262 | an engine that can no longer be observed counts as failed, is held unless reaped, and has two seconds for the rest of its output |
| EngineRuns.OperatorStarts | src/gui.rs:1869-1880 | the operator's start fills the budget, lifts every restriction of an earlier recovery, and leaves in hand what the launch left; a failed one is final |
| EngineRuns.OperatorStops | src/gui.rs:2087-2160 | the operator's stop turns recovery off whatever the system answers, and lets go exactly of what is proven gone |
| EngineRuns.RecoveryOnlyTightens | src/gui.rs:1805-1858 | in every run, until the operator starts again, stopped recovery stays off and the restrictions only grow |
| EngineRuns.DueRestartsHappen | src/gui.rs:2467-2473 | in every reachable state, a restart that is due with nothing outstanding happens in that frame, and what is in hand afterwards is what the launch left |
| EngineRuns.FailedRestartsAreRescheduled | src/gui.rs:1860-1867 | an automatic start that fails announces the next one, a doubling delay away, until five are spent |
| EngineRuns.StopsEndInIdle | src/gui.rs:2087-2160 | in every run, after a stop of a running engine that then does as asked, the engine is on its way out, and from the frame that sees its exit and the end of its output on the miner is idle with nothing in hand or announced |
| EngineRuns.UnreadEnginesFail | src/gui.rs:2437-2465 | in every reachable state, an engine that runs on stays in hand, and counts as failed exactly if it did, says so, or its output ended half a second ago without its being asked to stop |
| EngineRuns.MetricsAreSampled | src/gui.rs:2793-2890 | every metrics event of a frame that listens goes on record as a sample |
| EngineRuns.RenewalIsEarned | src/gui.rs:2872-2890 | in every run the budget is renewed only after metrics events of two frames five minutes apart reported hashing, and no listening frame between brought other metrics, a cleared job, a worker starting over or failing, or the end of the session |
| EngineRuns.MiningIsWhatTheEngineSaid | src/gui.rs:2480-2586 | after a frame that reads output and leaves `Mining` on the screen, its messages hold no fatal failure, and no worker's last report was a failure |
| EngineTrace.AtMostOneEngine | src/gui.rs:1487-1496 | in a safe trace at most one engine process is unreaped |
| EngineTrace.SpawnsWaitForTheReap | src/gui.rs:1880-1887 | an engine is spawned only once every earlier one was observed to be gone |
| EngineTrace.NothingStartsAfterAStop | src/gui.rs:2087-2160 | after a stop nothing starts before the operator's next start |
| EngineTrace.StableSinceIsFirstOfStretch | src/gui.rs:2872-2889 | the stability clock starts at the first sample of the present stretch of healthy samples, with no worker, session or job interruption and fresh metrics at the end of every frame |
| EngineRuns.StaleMetricsEndTheStretch | src/gui.rs:2980-2986 | a frame ends stable hashing exactly when its metrics are as old as three report intervals and eight seconds |
| EngineTrace.RenewedOnlyWhenStable | src/gui.rs:2876-2886 | the recovery budget is renewed only at a healthy sample at least five minutes into such a stretch |
| EngineTrace.SilenceCountsUnlessAFrameSeesIt | src/gui.rs:4550-4557 | after any trace, between the sample with which hashing became stable and a healthy one five minutes later, a silence is found out exactly when some frame ends in it with stale metrics |
| EngineRuns.SilenceCanRenew | src/gui.rs:2872-2890 | a run from the initial state in which the recovery budget is renewed although the engine said nothing for five minutes, because no frame ended in between |
| EngineTrace.AtMostFiveRetries | src/gui.rs:1805-1858 | at most five automatic starts in any stretch of a run without an operator start and without five stable minutes |
| EngineTrace.FatalIsAbsorbing | src/gui.rs:1628-1667 | in a safe trace, an engine that failed fatally counts as failed until an operator or automatic start has passed its checks and reset the telemetry |
| EngineSupervisor.MinerApp.ScheduleAutomaticRestart | src/gui.rs:1805-1858 | the new state is that of `Scheduled`: one unit of the budget for a delayed restart, or giving up when it is spent; nothing when recovery is off |
| EngineSupervisor.MinerApp.StartEngine | src/gui.rs:1880-2084 | the new state is that of `Attempted`, or the old one while anything is outstanding: only a complete launch puts a process in `child`; one that had to be given up is reaped or quarantined |
| EngineSupervisor.MinerApp.Stop | src/gui.rs:2087-2160 | the new state is that of `AfterStop`, of which `AfterOk`, `StepCauses` and `StopsEndInIdle` speak |
| EngineSupervisor.MinerApp.FinishExitedChild | src/gui.rs:2285-2360 | the new state is that of `ExitFinished`, of which `RecoverableExitsAreScheduled` and `StopsEndInIdle` speak |
| EngineSupervisor.MinerApp.PollProcess | src/gui.rs:2362-2473 | the new state is that of `Polled`: messages, process, finished losses and exits, quarantine, readers, due restart, in this order |
| EngineSupervisor.MinerApp.Logic | src/gui.rs:4550-4557 | the new state is that of `AfterFrame`: such a poll, then the freshness check, both on record |
| EngineSupervisor.MinerApp.ApplyTelemetry | src/gui.rs:2480-2930 | health, recovery and trace after each event; a fatally failed engine is heard no more and a stopped one only if it fails |
| EngineSupervisor.MinerApp.DrainProcessMessages | src/gui.rs:2186-2207 | the messages of a frame act in order, each once, and nothing else does |
| EngineState.EventsAdd | src/gui.rs:2480-2930 | the messages of a frame add samples of their own metrics events only, and all of them if the engine is heard throughout; a fatal failure is among them exactly when the engine counts as failed |
| EngineState.FailedAreLastReports | src/gui.rs:1683-1712 | the failed workers after a frame are those whose last report was a failure |
| EngineState.ReadyAreLastReports | src/gui.rs:1683-1712 | the ready workers after a frame are those whose last word was that they are, not that they start over or failed |
| EngineState.LinkIsTheLastWord | src/gui.rs:2489-2570 | the link is live exactly when the last word on it was a connection to the node or a job |
| EngineState.PhaseIsTheLastWord | src/gui.rs:1714-1738 | the phase after a frame follows from the last word on the connection and from the failures before and since |
| EngineState.SamplesTellWhatWasSaid | src/gui.rs:2868-2876 | a sample records what the engine had said up to it of hashing, link, failed and ready workers |
| EngineState.InterruptionsAreRecorded | src/gui.rs:2480-2760 | every cleared job, worker starting over or failing and session end of a heard engine goes on record as ending stable hashing |
| EngineState.StoppingIsHeardOnlyToFail | src/gui.rs:2480-2488 | an engine that is being stopped is heard for one thing only, that it failed |
| EngineState.NothingIsShownOfAFailedEngine | src/gui.rs:2555-2573 | after a fatal failure no worker, link or metrics are shown, whatever else the frame brings |
| EngineState.WorkersDecideThePhase | src/gui.rs:1683-1738 | whatever the workers of a mining engine report, in any order, it shows `Mining` exactly when no worker's last report was a failure |
| EngineState.DelaysDouble | src/gui.rs:670-677 | the delay doubles per attempt until it reaches a minute |
| CivilDate.EachDayFollowsTheLast | src/diag.rs:143-154 | over all integer days the closed form walks the Gregorian calendar one day at a time |
| CivilDate.EpochIsDayZero | src/diag.rs:143-154 | day 0 is 1 January 1970 |
| CivilDate.DatesFollowDays | src/diag.rs:143-154 | later days have later dates |
| CivilDate.EveryDateIsReached | src/diag.rs:143-154 | every date of the calendar is the date of its day |
| CivilDate.TimestampsAreOrdered | src/diag.rs:156-168 | later timestamps print later fields, so no two print alike |
| CivilDate.EpochIsMidnight | src/diag.rs:156-168 | timestamp 0 prints midnight of 1 January 1970 |
| CivilDate.EachMillisFollowsTheLast | src/diag.rs:156-168 | each timestamp prints the millisecond after the one before it, which with `EpochIsMidnight` fixes every field |

## Left out

- Native RandomX calls, SHA-256, BLAKE3 and hex: hashes and header identifiers are uninterpreted, allocation is a choice of the step.
- `src/randomx_native.rs` and the light-cache contents beyond their key are not part of this model.
- Sockets, deadlines, thread creation and process spawning; a frame of the supervisor reads the clock once.
- JSON: replies, templates and telemetry arrive with their fields already typed; a telemetry event is reduced to what the health machine reads of it.
- Poisoned locks and worker panics outside the dataset manager; `ShareAccounting` has no step for a worker that dies in mid-submission.
- Wrap-around of the 64-bit generation and request counters, and memory orderings weaker than sequential consistency.
- Texts: log lines, error messages (a failed worker is in a set, its message is not kept) and the padding of printed timestamps.
- Floating-point telemetry: hash rate smoothing, round probability, estimates.
- The choice between the Windows recovery tiers, which is an arbitrary answer attached to each exit; the worker and report-interval preferences are fixed for a run of the supervisor.
- A telemetry link that flaps between two samples: the code does not restart the stability clock for it, and neither does the model.
- Lossy UTF-8 decoding, the truncation suffix and input errors in the engine's line reader: `ChildLines` stays at bytes.
- `validate_rpc_submission`, `SealedBlocks`, `MineMark`, `block_interval_bars`, tiles and the fee and size readers: single-body selections that would add only easy members.
- The direct-node session's polling order and the GUI's drawing, settings files and crash reports.
- JobTemplate.FromRpc: malformed hex and missing or mistyped fields are refused before the model begins.
