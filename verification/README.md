# Batter in Dafny

A Dafny model of the parts of Batter that carry state, protocols or arithmetic, with proofs of
what they promise. Six pieces, one or more modules each:

- **Output capture and process ownership** (`Capture.dfy`, `Readiness.dfy`, `Processes.dfy`,
  `ProcessOwner.dfy`, `BatchOwner.dfy`): the bounded two-stream capture of `scripts/scheduling_process.py`, and the
  single and batch owners that signal, kill and reap children.
- **At-rest encryption** (`Format.dfy`, `Decoder.dfy`, `Context.dfy`, `Crypto.dfy`, `Sealing.dfy`):
  the envelope codec, the framed contexts and associated data, and the seal, open and rewrap
  protocol of `crates/batter-at-rest`.
- **Cleanup** (`Cleanup.dfy`, `Validation.dfy`): the LIFO teardown driver of `crates/batter-core/src/cleanup.rs`.
- **Process evidence** (`Lines.dfy`, `Utf8.dfy`, `Evidence.dfy`): the incremental parser of `test-support/process`.
- **Operations and HTTP** (`Operation.dfy`, `RunBoundary.dfy`, `HttpLayers.dfy`,
  `HttpStacks.dfy`): the tree of
  operation contexts and the run boundary of `crates/batter-core/src/operation.rs`, and arbitrary
  nestings of the `crates/batter-axum` wrappers.
- **Scheduling and packaging scripts** (`Suites.dfy`, `Ordering.dfy`, `Makespan.dfy`, `Partition.dfy`,
  `Delimiters.dfy`, `DelimiterScan.dfy`, `Brackets.dfy`, `DelimiterCheck.dfy`): the shard
  scheduler of `scripts/scheduling_controls.py` with Graham's bound, and the delimiter checker of
  `scripts/check_package.py` against a grammar.

`dafny verify dfyconfig.toml` checks the whole project.

## How the outside world appears

- Time, signals, child processes and system calls answer through a finite tape of arbitrary
  numbers (`Processes.World`), or through an arbitrary function from turns to answers
  (`Cleanup.CleanupStack.CloseInner`). Each contract therefore speaks about every such environment. Every wait
  draws from the tape, and an exhausted tape means the deadline at hand has been reached, so the
  tapes are exactly the runs that end.
- An asynchronous signal is seen at the next place the code looks at its flag. The tape decides
  whether one arrived before any look.
- What is done to one child is a log of acts. `Processes.Safe` says of a log which act may follow
  what; the preconditions of `Processes.Owned.Poll` and `Processes.Owned.Note` make every caller
  prove that it keeps the log safe.
- Encryption and key derivation are symbolic: a ciphertext remembers its key, nonce, associated
  data and plaintext. Associated data and key-derivation strings are the source's real bytes.
- Randomness is a function from draw number and length to a result that may fail.
- Weights of tests are exact tenths of a second instead of floats.
- The cleanup driver's telemetry, guard and stack are objects; each way out of the driver drops them
  in the order Rust does. Destroying a hook may panic.
- Rust `Arc<Mutex<..>>` records shared between request extensions are heap objects, so that the
  sharing between a handler and the observer is the source's own.

## Model

| member | source | states |
|---|---|---|
| `Capture.Capture.constructor` | scripts/scheduling_process.py:72-79 | an empty capture splits its limit into the shared head (half in tail mode, all of it otherwise) and the tail |
| `Capture.Capture.Retain` | scripts/scheduling_process.py:101-126 | after any chunk the head, both tail deques with their recorded sizes, the gap flags, the room left and `overflow` are the closed form over every byte ever received; `overflow` holds exactly when more arrived than the limit |
| `Capture.RetainInto` | scripts/scheduling_process.py:101-126 | the step of `retain` on both streams keeps the closed form, for head-only and tail mode |
| `Capture.Evict` | scripts/scheduling_process.py:119-126 | dropping the oldest bytes chunk by chunk, splitting the last one, leaves exactly the last `keep` bytes of the deque |
| `Capture.TrimTails` | scripts/scheduling_process.py:113-126 | both deques become the suffixes given by their fair shares, and a gap is flagged exactly where bytes went |
| `Capture.ShareStep` | scripts/scheduling_process.py:115-118 | the shares computed from already trimmed tails are the shares of the whole history, whatever was trimmed before |
| `Capture.TailsIgnoreInterleaving` | scripts/scheduling_process.py:113-126 | the two tails depend only on the two post-head streams; their sizes sum to min(n0 + n1, L) and each stream keeps at least its half, rounded as the source rounds |
| `Capture.InterleavingIsInvisible` | scripts/scheduling_process.py:101-126 | two captures whose streams continue alike after the head end with the same tails, sizes and gap flags, however the bytes were chunked and interleaved |
| `Capture.Conservation` | scripts/scheduling_process.py:101-126 | each stream is its head, then what was dropped, then its tail |
| `Capture.RetainedIsCappedTotal` | scripts/scheduling_process.py:101-126 | the bytes kept number exactly min(received, limit), and exactly the excess is dropped |
| `Capture.Capture.RetainedBuffers` | scripts/scheduling_process.py:128-138 | each buffer is head, a marker exactly where bytes are missing, then tail |
| `Capture.UnmarkedIsComplete` | scripts/scheduling_process.py:128-138 | in tail mode a buffer without a marker is the complete stream |
| `Capture.GapIsMarked` | scripts/scheduling_process.py:128-138 | in tail mode a gap shows as a start of the stream, one marker and an end of the stream, with exactly the dropped bytes missing |
| `Capture.NothingMissing` | scripts/scheduling_process.py:128-138 | without overflow each buffer is its complete stream, in either mode |
| `Capture.RenderedBound` | scripts/scheduling_process.py:128-138 | both buffers together exceed the limit by at most two markers |
| `Suites.CasesConcat` | scripts/scheduling_controls.py:26-31 | the traversal of two suites after each other is the two traversals after each other |
| `Suites.RankFits` | scripts/scheduling_controls.py:26-31 | the test at any path of indices through nested suites is met, at the rank of the path |
| `Suites.RankInjective` | scripts/scheduling_controls.py:26-31 | different paths have different ranks, so a test is met as often as there are paths to it |
| `Suites.PathAt` | scripts/scheduling_controls.py:26-31 | everything the traversal meets has a path of that rank |
| `Suites.HasTestIff` | scripts/scheduling_controls.py:26-31 | a test is met exactly when some path leads to it |
| `Suites.NoClashIff` | scripts/scheduling_controls.py:35-38 | the traversal repeats no id exactly when no two paths share one |
| `Processes.SafeLogs` | scripts/scheduling_process.py:95-99 | in a safe log no signal follows the reap, at most one readiness signal and one interrupt are sent, and the reap comes after the end of output or a group kill |
| `Processes.Owned.Poll` | scripts/scheduling_process.py:95-99 | a leader is reaped at most once, and may only be polled after the end of output or a group kill |
| `Processes.Owned.Complete` | scripts/scheduling_process.py:95-99 | true exactly when output ended and the leader was reaped; polls only at the end of output, and once true stays true |
| `Processes.Owned.ReadPipe` | scripts/scheduling_process.py:152-160 | what the pipe delivered is kept under its own index, its end closes it and no other, a failure is passed on |
| `Processes.Owned.ReadAvailable` | scripts/scheduling_process.py:151-160 | every open pipe is read once unless a read fails; nothing is lost or invented, and the heads only grow; both pipes ending is the end of output; nothing is signalled or reaped |
| `Processes.Owned.ObserveUntil` | scripts/scheduling_process.py:140-149 | ends; without a fault only on completion, a requested stop or the deadline; every time there was time left both pipes were tried; at the end ended output was looked at for an exit; a stop that is already requested ends it before anything is read; sends no signal |
| `Processes.Owned.SignalWhenReady` | scripts/scheduling_process.py:162-181 | sends exactly one readiness signal, to a leader not yet reaped and only once a complete line of either head ends with the marker, or names why not; every other time there was time left both pipes were tried; a readiness timeout is reported only at the deadline, and an interrupt that is already requested before anything is read |
| `Readiness.MarkedGrows` | scripts/scheduling_process.py:173-174 | more output never takes a marker away |
| `Readiness.PlainLineCounts` | scripts/scheduling_process.py:173-174 | a line without colour sequences or a trailing return is judged as it stands |
| `Readiness.ColourDisappears` | scripts/scheduling_process.py:173-174 | a colour sequence is removed and the line read on after it |
| `Readiness.WithoutReturnsIs` | scripts/scheduling_process.py:173-174 | all trailing carriage returns go and nothing else |
| `Processes.WholeOutput` | scripts/scheduling_process.py:346-356 | an outcome without overflow carries exactly what the child's stdout and stderr pipes delivered, for prefix and tail captures |
| `Processes.Owned.KillGroup` | scripts/scheduling_process.py:184-194 | kills the group exactly when the leader has not been reaped, and records a failure to do so |
| `Processes.Owned.Settle` | scripts/scheduling_process.py:197-209 | afterwards the group was killed or the leader is reaped and was looked at again; without faults, output that did not end and a leader that was not reaped were given the whole allowance; every fault is recorded or raised |
| `Processes.CloseResources` | scripts/scheduling_process.py:276-289 | the selector and all three streams are closed, and an error is added exactly if some close failed |
| `ProcessOwner.Prepare` | scripts/scheduling_process.py:309-316 | the capture and the launch record either go through or leave a fault, and the record is written unless an interrupt came first; nothing is signalled |
| `ProcessOwner.Supervise` | scripts/scheduling_process.py:309-329 | no kill while observing; without error and watchdog the child completed or an interrupt was requested; the watchdog acts only after the time limit, and after a readiness signal only after the whole shutdown time |
| `ProcessOwner.Release` | scripts/scheduling_process.py:336-344 | a completed child is never killed, no child is left neither reaped nor killed, and its resources are closed |
| `ProcessOwner.RunOwned` | scripts/scheduling_process.py:292-356 | on every exit, raising included, the child's log is safe, the child reaped or killed and its resources closed; the outcome says truly whether it was reaped, whether its output ended and what was kept of it; a readiness signal has its marker in the output; any fault shows in the errors or is raised; without faults and interrupts the only reasons for failure are the watchdog, overflow, the status and the readiness policy |
| `ProcessOwner.RunProcess` | scripts/scheduling_process.py:246-273 | rejected bounds and unsupported handlers launch nothing; an interrupt always shows in the errors; a successful outcome carries exactly what the stdout and the stderr pipe delivered and means the group was never killed and the readiness signal sent exactly if asked for |
| `BatchOwner.Job.Stop` | scripts/parallel_process.py:26-40 | only the first stop may interrupt, only an unreaped leader, and the first stop time is kept |
| `BatchOwner.Job.Finish` | scripts/parallel_process.py:42-68 | settles a child that is not complete, closes it in any case, and reports the errors including those of settling and closing |
| `BatchOwner.LaunchJob` | scripts/parallel_process.py:106-121 | after an interrupt nothing is launched; a launch failure is recorded and finished at once and does not end the batch; otherwise the job can be observed |
| `BatchOwner.Visit` | scripts/parallel_process.py:123-141 | one turn of a job keeps its invariant and brings the batch closer to its end; an interrupt reaches the job; the watchdog fires only after the time limit, and without faults a group is killed only after the whole grace |
| `BatchOwner.Drive` | scripts/parallel_process.py:122-141 | the batch loop ends, with an outcome for every job unless a fault ended it |
| `BatchOwner.Abandon` | scripts/parallel_process.py:142-153 | no child stays neither reaped nor killed, nor its resources open, even if finishing another one raises; existing outcomes are untouched |
| `BatchOwner.RunParallel` | scripts/parallel_process.py:84-161 | one outcome per command in command order, each true of its own child and its output; every child's log is safe with at most one interrupt; success means no signal at all and both streams exactly as their pipes delivered them; a batch that saw an interrupt has no successful outcome; without faults and interrupts every child completed by itself or ran out of time |
| `Partition.Plan` | scripts/scheduling_controls.py:34-45 | a plan exists exactly when some path through the nested suites leads to a test, no two paths lead to the same id, and 1 to 4 shards are asked for; then every test at a path is in the shards exactly once and nothing else is, and the shards are the greedy assignment of the sorted tests |
| `Partition.Fill` | scripts/scheduling_controls.py:39-45 | the loop's shards and loads are those of giving each test in turn to the first least loaded shard |
| `Partition.WeightOf` | scripts/scheduling_controls.py:40-44 | a test's weight is the hint for what follows the last dot of its id, or a tenth |
| `Partition.OrderIs` | scripts/scheduling_controls.py:40-41 | heavier tests come first, tests of equal weight in the code-point order of their ids |
| `Ordering.LexMeans` | scripts/scheduling_controls.py:40-41 | strings are ordered by their first difference, a prefix first |
| `Partition.ShardsCover` | scripts/scheduling_controls.py:34-45 | the shards together hold every test exactly as often as it was discovered |
| `Partition.InOneShard` | scripts/scheduling_controls.py:39-45 | what the shards hold once together is in one of them only |
| `Partition.ShardsIgnoreDiscoveryOrder` | scripts/scheduling_controls.py:40-45 | the same ids give the same shards in every discovery order |
| `Partition.ShardsNearOptimal` | scripts/scheduling_controls.py:40-45 | no shard is heavier than 4/3 - 1/(3 count) of the heaviest shard of any other placement |
| `Partition.ChildrenAgree` | scripts/scheduling_controls.py:80-87 | children that each discover the suite in an order of their own execute exactly the shards the parent expects |
| `Partition.CompletedMeans` | scripts/scheduling_controls.py:67-77 | evidence is complete exactly when the process succeeded and printed one well-formed record that is successful and lists the expected tests, sorted |
| `Makespan.GreedyBound` | scripts/scheduling_controls.py:40-44 | Graham's bound for any greedy assignment in descending weight, against any schedule |
| `Partition.ValidRunIsComplete` | scripts/scheduling_controls.py:67-96 | a sharded run is accepted exactly when each child's evidence is complete for what that child executed, and then every discovered test is reported exactly once, with one discovery order per child |
| `Controls.PartitionSuite` | scripts/scheduling_controls.py:12-45 | the same with the script's own hints, and the plan depends on the discovered ids only |
| `DelimiterScan.BlockCommentIsEnd` | scripts/check_package.py:48-62 | the depth counter finds exactly the end of the nested comment the grammar derives |
| `DelimiterScan.RawStringIsEnd` | scripts/check_package.py:63-70 | the marker search finds exactly the raw strings of the grammar |
| `DelimiterScan.StringIsEnd` | scripts/check_package.py:71-85 | the escape-skipping loop finds exactly the string literals of the grammar |
| `DelimiterScan.CharacterIsMatch` | scripts/check_package.py:86-90 | the match finds exactly the character literals, so a lifetime is none |
| `Delimiters.ClassesAre` | scripts/check_package.py:41-92 | the hex digits and the brackets, written out |
| `Delimiters.MarkerIs` | scripts/check_package.py:65-69 | the closing marker of a raw string, written out |
| `DelimiterScan.LexemeIsNext` | scripts/check_package.py:44-98 | at every position the scanner's next step is the one lexeme of the grammar there |
| `Brackets.BalancedIsRun` | scripts/check_package.py:92-99 | a bracket word is derivable in the inductive grammar exactly when the stack ends empty without a mismatch |
| `DelimiterCheck.LexesIsLex` | scripts/check_package.py:43-98 | the brackets outside comments and literals that the grammar yields are those the scan collects |
| `DelimiterCheck.LineOfCounts` | scripts/check_package.py:93-96 | a reported line is one more than the newlines before the position |
| `DelimiterCheck.RustDelimiters` | scripts/check_package.py:38-99 | ends on every text; reports nothing exactly when the text is lexemes whose brackets are balanced; every other report names a true problem and its line, and an unclosed bracket is followed by a balanced word only |
| `Format.EncodeEnvelope` | crates/batter-at-rest/src/format.rs:220-229 | every encoded envelope fits the 256-byte cap |
| `Format.KeyIdIs` | crates/batter-at-rest/src/key.rs:51-62 | the valid key ids, written out |
| `FormatProofs.DescriptorRoundTrip` | crates/batter-at-rest/src/format.rs:34-59 | decoding an encoded descriptor gives it back |
| `FormatProofs.DescriptorCanonical` | crates/batter-at-rest/src/format.rs:34-59 | whatever decodes to a descriptor is its encoding |
| `FormatProofs.WrappedRoundTrip` | crates/batter-at-rest/src/format.rs:112-149 | decoding an encoded wrapper gives it back |
| `FormatProofs.WrappedCanonical` | crates/batter-at-rest/src/format.rs:112-149 | whatever decodes to a wrapper is its encoding |
| `FormatProofs.EnvelopeRoundTrip` | crates/batter-at-rest/src/format.rs:201-229 | decoding an encoded envelope gives it back |
| `FormatProofs.EnvelopeCanonical` | crates/batter-at-rest/src/format.rs:201-229 | whatever decodes to an envelope is its encoding |
| `FormatProofs.SealedRoundTrip` | crates/batter-at-rest/src/format.rs:287-307 | decoding an encoded payload gives it back |
| `FormatProofs.SealedCanonical` | crates/batter-at-rest/src/format.rs:287-307 | whatever decodes to a payload is its encoding |
| `FormatProofs.EnvelopeExtension` | crates/batter-at-rest/src/format.rs:201-218 | an envelope followed by anything is rejected, as trailing data or as too large |
| `FormatProofs.SealedExtension` | crates/batter-at-rest/src/format.rs:287-295 | a payload followed by anything is rejected as trailing data |
| `FormatProofs.TruncationDetected` | crates/batter-at-rest/src/format.rs:287-295 | every proper prefix of an encoded payload is malformed |
| `Decoding.Decoder.Take` | crates/batter-at-rest/src/format.rs:550-557 | takes exactly the next bytes, or fails without moving |
| `Decoding.Decoder.LengthPrefixed` | crates/batter-at-rest/src/format.rs:566-569 | takes exactly one frame |
| `Decoding.DecodeDescriptor` | crates/batter-at-rest/src/format.rs:34-51 | the cursor decoder agrees with the declarative verdict, error by error |
| `Decoding.DecodeWrapped` | crates/batter-at-rest/src/format.rs:112-136 | the same for wrappers |
| `Decoding.DecodeEnvelope` | crates/batter-at-rest/src/format.rs:201-218 | the same for envelopes |
| `Decoding.DecodeSealed` | crates/batter-at-rest/src/format.rs:417-429 | the same for payloads |
| `Contexts.ForRow` | crates/batter-at-rest/src/context.rs:28-60 | fails exactly on an invalid component; otherwise encodes the binding, with ranges that return the given namespace and purpose |
| `Contexts.ForTenantToken` | crates/batter-at-rest/src/context.rs:62-86 | the same for tenant tokens |
| `Contexts.PushComponent` | crates/batter-at-rest/src/context.rs:126-132 | appends one frame and returns the range of its bytes |
| `Contexts.FramesInjective` | crates/batter-at-rest/src/context.rs:126-132 | equal framings hold equal components, in equal number |
| `Contexts.BindingInjective` | crates/batter-at-rest/src/context.rs:28-86 | equal encodings stand for the same kind and components, across both kinds |
| `Contexts.BindingFits` | crates/batter-at-rest/src/context.rs:134-139 | the total-length check never fails once the components are valid |
| `Contexts.BindingLayout` | crates/batter-at-rest/src/context.rs:28-86 | the bytes of both kinds of context, written out |
| `Contexts.LabelIs` | crates/batter-at-rest/src/context.rs:107-117 | the valid labels, written out |
| `AssociatedData.PayloadAadInjective` | crates/batter-at-rest/src/crypto.rs:267-273 | payload data determines context and version |
| `AssociatedData.WrappingAadInjective` | crates/batter-at-rest/src/crypto.rs:275-289 | wrapping data determines context, descriptor and key id |
| `AssociatedData.HkdfInfoInjective` | crates/batter-at-rest/src/crypto.rs:250-265 | key-derivation data determines namespace and purpose |
| `AssociatedData.RolesDisjoint` | crates/batter-at-rest/src/crypto.rs:250-289 | the three kinds of string never coincide |
| `AssociatedData.PayloadAadLayout` | crates/batter-at-rest/src/crypto.rs:267-273 | the bytes of payload data, written out |
| `AssociatedData.WrappingAadLayout` | crates/batter-at-rest/src/crypto.rs:275-295 | the bytes of wrapping data, written out |
| `AssociatedData.HkdfInfoLayout` | crates/batter-at-rest/src/crypto.rs:250-265 | the bytes of key-derivation data, written out |
| `Keyrings.NewKeyring` | crates/batter-at-rest/src/key.rs:103-121 | duplicates are reported first, then a missing current key; an accepted ring maps exactly the given ids to their keys |
| `Sealing.SealWithRandom` | crates/batter-at-rest/src/crypto.rs:133-163 | succeeds exactly for a plaintext within the limit, three good draws and a present current key; the draws are the data key, the payload nonce and the wrapping nonce, in that order; an oversized plaintext draws nothing |
| `Sealing.RewrapWithRandom` | crates/batter-at-rest/src/crypto.rs:123-131 | succeeds exactly on a wrapper genuinely made for this header and context under a key of the ring, if it is current or a nonce was drawn; a forged or misplaced wrapper fails authentication even under the current key; the new wrapper holds the same data key under the drawn nonce, and under the current key the identical envelope comes back without a draw |
| `Sealing.UnwrapMeans` | crates/batter-at-rest/src/crypto.rs:206-221 | unwrapping succeeds exactly on a genuine wrapper and returns the one data key it was made with |
| `Sealing.RewrapMeans` | crates/batter-at-rest/src/crypto.rs:165-185 | rewrapping authenticates before it compares ids |
| `Sealing.OpenIff` | crates/batter-at-rest/src/crypto.rs:30-44 | opening succeeds exactly on a wrapper and a body made together for this context and descriptor |
| `Sealing.OpenBinds` | crates/batter-at-rest/src/crypto.rs:206-221 | parts of different records never open: context, descriptor, master key, data key and nonce all agree |
| `Sealing.RewrapPreservesOpen` | crates/batter-at-rest/src/crypto.rs:165-185 | rewrapping keeps the descriptor and what every body opens to |
| `Sealing.RotationsKeepKey` | crates/batter-at-rest/src/crypto.rs:165-204 | in any chain of rotations every rewrap succeeds, descriptor and wrapped data key stay, and the wrapper ends under the last ring's current key |
| `Sealing.SealRotateOpen` | crates/batter-at-rest/src/crypto.rs:123-204 | after sealing, every rewrap of any chain of rotations succeeds, and every ring holding the last wrapper's key opens the original plaintext |
| `EvidenceRecords.FirstsToIsBatch` | test-support/process/evidence.rs:45-71 | parsing line by line gives the first occurrence of each name on the complete lines |
| `EvidenceRecords.NameOnIff` | test-support/process/evidence.rs:50-54 | a line names an event exactly when it is the prefix, a nonempty valid name and at most one carriage return after it |
| `Utf8.Utf8Iff` | test-support/process/evidence.rs:54 | bytes are well-formed UTF-8 exactly when they encode some sequence of scalar values |
| `Evidence.MentionsIff` | test-support/process/evidence.rs:91-97 | the panic text is found exactly when it is somewhere in the bytes |
| `Evidence.UnfinishedIff` | test-support/process/evidence.rs:145-150 | a last line is unfinished exactly when it is there and could still start with the prefix |
| `Evidence.Output.Record` | test-support/process/evidence.rs:39-72 | after any chunk the kept bytes, parse position, stored events with their arrival times and the limit flag are those of everything received |
| `Evidence.ChunkingIsInvisible` | test-support/process/evidence.rs:39-72 | the same bytes in any chunks give the same bytes, position, names in order and verdict |
| `Evidence.RecordsAreParse` | test-support/process/evidence.rs:45-71 | the incremental records are the batch parse of the kept bytes |
| `Evidence.Output.Observed` | test-support/process/evidence.rs:111-116 | found exactly if stored, with the arrival time of its first line |
| `Evidence.Output.RequireFinalEvent` | test-support/process/evidence.rs:99-109 | accepted exactly when nothing was cut off and the event was seen, even after a panic |
| `Evidence.Output.EventBy` | test-support/process/evidence.rs:118-141 | the arrival of the event's line decides against the deadline, not the time of asking |
| `Evidence.Output.Validate` | test-support/process/evidence.rs:143-162 | in terms of everything received: accepted exactly when it is within both limits, mentions no panic, ends in no unfinished record, and its complete lines name every required event and no forbidden one |
| `Evidence.StoredKnowsAll` | test-support/process/evidence.rs:111-116 | the stored first occurrences know exactly the names on all complete lines |
| `Evidence.FinishedTailNamesNothing` | test-support/process/evidence.rs:145-150 | an accepted last line names no event however it would have continued |
| `Evidence.Deadline` | test-support/process/timing.rs:15-42 | which answer is given when: the allowance for an event that arrived in time is its arrival after the start, never negative, plus the observation time, and no allowance exceeds the policy's maximum wait |
| `Cleanup.CleanupStack.Push` | crates/batter-core/src/cleanup.rs:260-280 | registers exactly a valid unused name; otherwise nothing changes |
| `Cleanup.NameIs` | crates/batter-core/src/validation.rs:38-48 | the valid names, written out |
| `Cleanup.NewBudgetIff` | crates/batter-core/src/cleanup.rs:26-46 | a budget is accepted exactly when its parts are positive and at most a year, the total with the abort interval included, and each part fits the clock when it is looked at |
| `Cleanup.BudgetLeavesTime` | crates/batter-core/src/cleanup.rs:344-371 | without an enclosing end the whole total is work time with a whole abort interval after it, and a hook that starts in time has time |
| `Cleanup.WorkDeadlineIs` | crates/batter-core/src/cleanup.rs:346-353 | work ends at start plus total, or a whole abort interval before an earlier enclosing end |
| `Cleanup.OutcomeReflects` | crates/batter-core/src/cleanup.rs:379-387 | a hook succeeded, failed, panicked or was cancelled exactly if the first await joined it so; timed out exactly if that await elapsed and the reap joined it; is unjoined exactly if both elapsed |
| `Cleanup.PendingObservation.Drop` | crates/batter-core/src/cleanup.rs:455-467 | the guard counts its hook as abandoned exactly when it was never marked observed |
| `Cleanup.CleanupStack.Drop` | crates/batter-core/src/cleanup.rs:469-479 | whatever is still on the stack is counted as dropped, and nothing else |
| `Cleanup.CleanupStack.SkipRemaining` | crates/batter-core/src/cleanup.rs:301-322 | takes every hook, reports and counts each once, last registered first, and only then destroys them; a destructor's panic unwinds with nothing left on the stack |
| `Cleanup.CleanupStack.RunHook` | crates/batter-core/src/cleanup.rs:361-396 | one hook is observed, or abandoned if the future is dropped at either await; after an unjoined hook the rest is skipped; the guard is dropped on every way out |
| `Cleanup.CleanupStack.CloseInner` | crates/batter-core/src/cleanup.rs:344-398 | however the driver ends, each hook is counted once among observed, skipped, abandoned and dropped; a report lists all hooks last registered first with the outcome each hook's awaits had, and is a success exactly when every hook ran and returned well; hooks are skipped only for lack of work time or after an unjoined one, none starts at or after the work deadline, and with prompt timers the driver is done by the later of its start and the final deadline |
| `Cleanup.CleanupStack.Skip` | crates/batter-core/src/cleanup.rs:295-299 | a skipped stack reports and counts every hook as skipped once |
| `Cleanup.EndStack` | crates/batter-core/src/cleanup.rs:295-479 | for every fate of a stack - never polled, skipped, closed to a return, a drop at either await or a panic - the four counters grow together by the number of its hooks and every hook is in exactly one of them, once |
| `Cleanup.SuccessIff` | crates/batter-core/src/cleanup.rs:148-154 | a report is a success exactly when every hook ran and succeeded |
| `Cleanup.SuccessMeans` | crates/batter-core/src/cleanup.rs:148-154 | a report is a success exactly when every hook ran and its first await joined a good return |
| `Cleanup.WholeReapInterval` | crates/batter-core/src/cleanup.rs:428-440 | every timed-out hook gets the whole abort interval |
| `Cleanup.ClosesInTime` | crates/batter-core/src/cleanup.rs:344-398 | with prompt timers the driver is done by the later of its start and the final deadline |
| `Cleanup.NoTimeNoHook` | crates/batter-core/src/cleanup.rs:346-360 | if the enclosing end leaves no work time, no hook starts |
| `Operation.RunKeeps` | crates/batter-core/src/operation.rs:126-154 | in every run contexts only accumulate, tokens stay cancelled and deadlines stay nested |
| `Operation.DeadlinesNest` | crates/batter-core/src/operation.rs:182-209 | in every run a descendant's deadline is at most its ancestor's |
| `Operation.ChildrenEnd` | crates/batter-core/src/operation.rs:130-154 | a child ends at the lesser of its parent's deadline and the requested one; a child budget is refused exactly when zero, over a year or beyond the clock |
| `Operation.InterruptionSpreads` | crates/batter-core/src/operation.rs:286-304 | an interrupted context keeps every present and future descendant interrupted forever |
| `Operation.CancelIsLocal` | crates/batter-core/src/operation.rs:286-304 | cancelling changes no check outside its own subtree |
| `Operation.CancelledIff` | crates/batter-core/src/operation.rs:147-154 | a context is cancelled exactly when it or one of its ancestors was |
| `Operation.PhasesAreSiblings` | crates/batter-core/src/operation.rs:263-274 | work ends at the total less the reserve and finalization at the total; cancelling one leaves the other alone, cancelling the parent interrupts both |
| `Operation.PhasesIff` | crates/batter-core/src/operation.rs:263-273 | phases are made exactly when the work deadline is representable and still ahead |
| `RunBoundary.EveryRun` | crates/batter-core/src/operation.rs:465-516 | over all polls, drops, panics and outside events the factory runs at most once, NotStarted is reported exactly when it never ran, and every exit leaves the child scope cancelled |
| `RunBoundary.CompletionComesLast` | crates/batter-core/src/operation.rs:465-516 | cancellation wins over the timer and the timer over the work, each with its own reason; completion is selected only when neither was ready |
| `RunBoundary.BoundaryIsLocal` | crates/batter-core/src/operation.rs:465-516 | polling or dropping the boundary changes no context outside its own scope |
| `HttpLayers.QuotaObservation.Take` | crates/batter-axum/src/quota_observation.rs:191-204 | a record's writer is claimed at most once |
| `HttpLayers.ClaimAndCheck` | crates/batter-axum/src/quota_observation.rs:191-231 | a claim removes the record from the request and writes through it only if it is the first |
| `HttpLayers.Observe` | crates/batter-axum/src/observation.rs:67-88 | only an unobserved request gets an observer, which emits one event however the inside ends |
| `HttpLayers.Operate` | crates/batter-axum/src/correlation.rs:148-211 | the outermost operational wrapper owns the id; nested ones only renew the quota record |
| `HttpLayers.AdmitRequest` | crates/batter-axum/src/low_level.rs:257-289 | a refusal reaches nothing inside; an admitted request carries the owner's id and a late response is rendered |
| `HttpLayers.Serve` | crates/batter-axum/src/low_level.rs:184-289 | any stack of layers, on any consistent request: response, ids, events and the shared record are as the layers alone determine |
| `HttpStacks.ObserverEnteredIff` | crates/batter-axum/src/low_level.rs:184-255 | an event is owed exactly when every wrapper outside some observing wrapper lets the request through |
| `HttpStacks.OperationalEnteredIff` | crates/batter-axum/src/correlation.rs:120-121 | an id is made exactly when the request enters some operational wrapper |
| `HttpStacks.AdmittedInsideIff` | crates/batter-axum/src/admitted.rs:30-43 | an admission counts exactly when it is inside an operational wrapper |
| `HttpStacks.RecordIff` | crates/batter-axum/src/correlation.rs:155-162 | there is a quota record exactly when the request enters a quota wrapper |
| `HttpStacks.FactsOfInnermost` | crates/batter-axum/src/quota_observation.rs:172-231 | the facts are those of the first check inside the innermost quota wrapper: not checked, unresolved or the matching terminal fact |
| `HttpStacks.StatusAt` | crates/batter-axum/src/low_level.rs:257-289 | behind wrappers that neither reject nor rewrite, the next one decides: refused, late, rewritten or passed on |
| `HttpStacks.StatusOfHandler` | crates/batter-axum/src/low_level.rs:184-255 | without rejecting or rewriting wrappers the handler's status comes out |
| `HttpLayers.InnermostQuotaDecides` | crates/batter-axum/src/correlation.rs:155-162 | the innermost entered quota wrapper starts the record the event reports |
| `HttpLayers.NoQuotaNoFacts` | crates/batter-axum/src/correlation.rs:169-176 | without a quota wrapper the event carries no quota facts |
| `HttpLayers.OneOwner` | crates/batter-axum/src/correlation.rs:163-168 | inside the owner of the id no nested wrapper stamps another one |
| `HttpStacks.ServeArriving` | crates/batter-axum/src/correlation.rs:148-211 | over the wrappers of any stack, for a request without Batter extensions: exactly one event if it enters an observing wrapper and none otherwise; an id exactly if it enters an operational wrapper, equal to the response header's if that wrapper is outside everything that rejects or rewrites; quota facts exactly if it enters a quota wrapper, namely those of the first check inside the innermost one, case by case; the event reads the record the handler can claim, and the handler is admitted exactly if some admission is inside some operational wrapper |
| `HttpLayers.ServeFromRenderer` | crates/batter-axum/src/correlation.rs:32-45 | a renderer running its own layers on the stripped metadata touches neither the original observation nor its quota record, and is not admitted by it |

## Left out

- AES-GCM, HKDF and HMAC internals, zeroization and `crates/batter-at-rest/src/mac.rs`: encryption is symbolic.
- Floating-point rounding of shard loads and of process deadlines: loads are exact tenths and times are natural numbers.
- Capture.Capture.Retain: the two streams' fields are updated as values and written back at the end of the call, so the model does not show intermediate states of the deques.
- Evidence.ChunkingIsInvisible: does not say which of the two limits is reported nor the arrival times, because both depend on the chunking.
- Processes.Owned.ReadPipe: which bytes a pipe delivers is arbitrary; what the child does to produce them is not modelled.
- BatchOwner.RunParallel: installing and restoring the signal handlers is not shown; a signal is seen at the next look at the flag.
- ProcessOwner.RunProcess: installing and restoring the SIGINT handler is not shown; whether it was supported is an input.
- Sealing.SealWithRandom: takes the binding that a context encodes instead of the context value, which `Contexts.ForRow` and `Contexts.ForTenantToken` tie together.
- HttpLayers.Serve: application middleware passes on, checks a quota, replaces the response, answers or stalls; middleware that clones requests is not modelled.
- Cleanup.CleanupStack.RunHook: the errors retained in records and the log messages are not modelled.
- Rendering, event levels, latency and tracing spans of HTTP observations.
- The evidence panic search works on the kept bytes; the source searches their lossy UTF-8 decoding, which agrees for this ASCII text.
- Periodic schedules, retries, the supervisor, health publication and boundary assembly.
- Runledger and Runlimit.
