# Verified model of the Cap'n Web RPC core

This project models the state machines and algorithms of a Go RPC library and proves, for all inputs and all runs, what
they guarantee. Where a guarantee has a gap, the gap is shown by a concrete run and the exact condition is proved.

| file | what it models |
|---|---|
| `ReferenceProtocol.dfy`, `References.dfy` | two sessions that export and import objects over FIFO queues; the tables and stubs of one session |
| `MemoryTransports.dfy` | the in-memory transport that provides those queues |
| `Graphs.dfy`, `Pipelining.dfy` | dependency graphs, topological sort with cycle detection, ordered execution, the pipeline's status |
| `TextCodecs.dfy`, `Serialization.dfy`, `WireForm.dfy`, `StubIds.dfy`, `Codec.dfy` | decimal and base64 text, the tagged-array wire format and its literal words, the ids its references carry, the serialiser and message codec at work on a session |
| `TokenBuckets.dfy`, `Quotas.dfy` | the rate limiter and fixed-window quotas |
| `HttpBatching.dfy` | the batching HTTP transport with its timers and its Close |
| `Promises.dfy`, `Resources.dfy` | settlement and waiting; tracking and disposal |
| `Framing.dfy`, `InProcess.dfy`, `Balancing.dfy`, `Health.dfy` | frames, the in-process pair, provider ranking and load balancing, health hysteresis |
| `Arithmetic.dfy`, `Sequences.dfy`, `Ints.dfy`, `Wrappers.dfy` | what the others share |

Each file has the same shape. A datatype holds the state; one function per critical section gives the next state; runs
are sequences of steps, so a statement about runs is about every interleaving. Lemmas about these functions carry the
guarantees. A class with the source's own fields has one method per operation or critical section, and each method's
contract says that its state changes as the function says. Clocks, the transport's answers, context cancellation and
the runtime's free choices (map order, `select`, the scheduler) are parameters, steps or nondeterministic choices.

What the model shows about the code, beyond the guarantees it was written for:

- A clone shares its id's single export count, so disposing of a clone leaves the original dangling; a stub dangles
  exactly when a sibling's release was sent. The placeholder of every call stays in the export table for ever.
- A plain array that starts with a reserved tag is decoded as that tag; nothing else fails to come back.
- `Quota.use` adds in 64 bits: amounts above `MaxInt64 - Limit` can wrap around and be accepted.
- A `Send` of the HTTP transport that passed its check before `Close` panics on the closed channel. `Close` itself does
  not wait for queued messages; the processor's exit does.
- A waiter that registers after the notifier has swapped the list is never woken.
- `TrackResource` racing `Stop` leaves a resource in the table of a stopped manager.
- Four-byte frames carry the length modulo 2^32.
- A running pipeline overwrites Cancelled, and starting an operation resets the reference count of its target.
- The memory transport counts after its channel operation, so a receiver's counters can be ahead of the sender's.

The wire message `["release", importId, count]` has room for a count; the code always sends 1 for an export entry whose
count is always 1, and the model follows the code.

`dafny verify dfyconfig.toml` checks the whole project.

## Model

| member | source | states |
|---|---|---|
| `Ints.Int32` | session.go:543 | conversion to int32: the result is in range and equal to the argument whenever that is in range |
| `Ints.Int32WrapsAround` | session.go:543 | and whole multiples of 2^32 are dropped, which together fixes the conversion |
| `Ints.Int64` | rate_limiting.go:498 | 64-bit arithmetic in the same way |
| `Ints.Int64WrapsAround` | rate_limiting.go:498 | and whole multiples of 2^64 are dropped |
| `TextCodecs.ParseIntFormat` | serialize.go:418-425 | reading a big integer's decimal text back gives the integer, for every integer |
| `TextCodecs.DecimalPlaces` | serialize.go:91 | the k-th character from the right is the digit of 10^k; no more places than needed, no leading zero |
| `TextCodecs.SignInFront` | serialize.go:91 | a minus sign for the negative numbers, in front of the digits of the absolute value |
| `TextCodecs.DecodeBase64Encode` | serialize.go:433-441 | decoding the base64 text of any byte string (section 4 of RFC 4648, padding included) gives the bytes back |
| `TextCodecs.DecodeSymbolsEncode` | serialize.go:433-441 | the same on six-bit groups: quads, two-symbol and three-symbol endings |
| `TextCodecs.AlphabetIsStandard` | serialize.go:102-108 | the standard alphabet: capital letters, small letters, digits, plus and slash, each range in order; equals signs pad |
| `TextCodecs.GroupsKeepTheirBits` | serialize.go:102-108 | three bytes and their four symbols are the same 24-bit number, most significant part first |
| `TextCodecs.RestIsEncodedAlone` | serialize.go:102-108 | after any number of whole groups the rest is encoded on its own |
| `TextCodecs.LeftoverKeepsItsBits` | serialize.go:102-108 | one or two bytes left over are filled up with zero bits and padded to four symbols |
| `Graphs.DepthFirstSorter.Visit` | pipelining.go:311-331 | from any white/grey/black state: success blackens the node and everything it reaches, listed before its successors; failure means there is a directed cycle; it terminates |
| `Graphs.TopologicalSort` | pipelining.go:305-343 | for every graph and every order of the roots: an error if and only if there is a directed cycle, otherwise every node exactly once with every edge forward |
| `Graphs.OrderRefutesCycle` | pipelining.go:305-343 | a graph that has such an order has no directed cycle |
| `Graphs.ClosesCycle` | pipelining.go:312-314 | meeting a node of the current walk again exhibits a cycle |
| `Graphs.PrefixIsClosed` | pipelining.go:354-371 | every prefix of a topological order contains, earlier, everything that points at one of its elements |
| `Graphs.PrependKeepsOrder` | pipelining.go:327-330 | putting a finished node in front keeps every node before its successors |
| `Pipelining.BuildDependencyGraph` | pipelining.go:280-302 | the graph has exactly the operations as nodes and exactly the dependencies between them as edges, whatever ids repeat |
| `Pipelining.ProducerIsUnique` | pipelining.go:285-289 | with distinct nonzero result ids the producer of an id is the operation that carries it |
| `Pipelining.ProducerIsLast` | pipelining.go:285-289 | whatever ids repeat, the producer is the last operation that declares the id; id 0 has none |
| `Pipelining.CyclesAgree` | pipelining.go:280-343 | the graph has a cycle if and only if operations wait for each other in a circle |
| `Pipelining.PrefixRespectsDependencies` | pipelining.go:354-371 | whatever prefix of a topological order has run, it is closed under dependencies, in dependency order |
| `Pipelining.SchedulePrefix` | pipelining.go:354-371 | what has run of a schedule is listed once, belongs to the pipeline and is dependency-closed |
| `Pipelining.ScheduledRun` | pipelining.go:224-256 | what any run promises about the operations it started: owned, once, dependency-closed and in order; all of them if every event is a success |
| `Pipelining.FullRun` | pipelining.go:355-370 | all operations are started and none ends the run if and only if every event is a success; all but the last started one succeeded |
| `Pipelining.StatusesExplained` | pipelining.go:374-426 | operations that never ran keep their status, the one that ended the run has the status its event gives, all others that ran are completed |
| `Pipelining.StatusByEvent` | pipelining.go:374-426 | a started operation is OpCompleted if and only if its call succeeded, OpFailed if and only if it was refused, OpRunning if and only if its type is unsupported |
| `Pipelining.StartedCountEnds` | pipelining.go:354-371 | a run ends with all operations successful, with the last started one refused or unsupported, or before the next one because the context is done; all earlier ones succeeded |
| `Pipelining.RunIsRecorded` | pipelining.go:374-426 | with no operation started twice, all started operations but the last are OpCompleted, and the last is Failed, Running or Completed by what it met |
| `Pipelining.TargetsLoseTheirCounts` | pipelining.go:383 | whatever was counted for a started operation's target is forgotten; all other import entries are untouched |
| `Pipelining.ExecutedAtMostOnce` | pipelining.go:225-256 | under every interleaving of callers at most one execution gets past the guard, and the status is Completed or Failed exactly when it has ended |
| `Pipelining.OutcomeIsFinal` | pipelining.go:439-469 | Completed and Failed are never left again |
| `Pipelining.CancelledIsFinalUnlessRunning` | pipelining.go:250-253 | a cancelled pipeline stays cancelled in every continuation if and only if no execution had begun |
| `Pipelining.Pipeline.AddOperation` | pipelining.go:201-221 | accepted exactly for a pending pipeline below the depth limit; appended in order, nothing else changes |
| `Pipelining.Pipeline.OptimizePipeline` | pipelining.go:259-277 | without optimisation the given order; with it, an error if and only if there is a dependency cycle, otherwise a schedule: each operation once, after all it depends on |
| `Pipelining.Pipeline.ExecuteBatchedOperations` | pipelining.go:354-371 | starts exactly the operations up to the first one that does not succeed; success if and only if all succeed; statuses and import entries follow from what was started |
| `Pipelining.Pipeline.ExecuteOperation` | pipelining.go:374-426 | OpFailed exactly for a refused call, OpRunning exactly for an unsupported type, OpCompleted exactly for a success; the target's import entry is overwritten with count 1 |
| `Pipelining.Pipeline.ExecutePipeline` | pipelining.go:224-256 | however execution stops, the started operations are closed under dependencies and in dependency order; a cycle starts nothing; success means all completed; otherwise only the last started one can be Failed or Running |
| `Pipelining.Pipeline.CancelPipeline` | pipelining.go:448-469 | refused exactly for Completed and Failed; otherwise the status becomes Cancelled |
| `References.Session.Send` | session.go:246-278 | a message goes out exactly when the session is open, the message encodes and the transport accepts it |
| `References.Session.ExportValue` | session.go:538-560 | a fresh int32 id with count 1, entered in the table and counted |
| `References.Session.CreateImportStub` | session.go:563-589 | an entry with count 1, overwriting any earlier one, and a new undisposed stub |
| `References.Session.HandleRelease` | session.go:490-517 | the count goes down by the released amount; the entry disappears at zero or below and the counter follows; unknown ids change nothing |
| `References.ReleaseLowersCount` | session.go:506-517 | a release for the whole count or more removes the entry, a smaller one lowers the count by its amount; nothing else changes but the counter |
| `References.ReleasesAddUp` | session.go:506-517 | releases in two parts or at once leave the same tables |
| `References.Session.HandlePull` | session.go:403-429 | a pulled value is exported again under a fresh id; placeholders and unknown ids are not |
| `References.StubImpl.Dispose` | stub.go:191-225 | the first disposal sends one release and drops one local reference; later ones change nothing |
| `References.ExhaustedExactly` | stub.go:257-267 | over any sequence of AddRef and Release calls a stub is disposed exactly when, at some release, the releases so far make up for the initial count and all AddRefs so far |
| `References.StubImpl.Use` | stub.go:257-267 | any sequence of real AddRef and Release calls leaves the stub disposed exactly as that says |
| `References.StubImpl.Release` | stub.go:262-267 | disposes exactly when the stub's own count is at zero or below |
| `References.StubImpl.Clone` | stub.go:275-299 | None exactly for a disposed stub; otherwise a stub of the same id, and one more on the import entry if there is one |
| `ReferenceProtocol.RunIsGood` | session.go:490-589 | inductive invariant of two sessions over FIFO queues: for every id, table entry, copies in flight, stubs and releases in flight balance on both sides, and the local counts are right |
| `ReferenceProtocol.HeldExactlyWhileNeeded` | session.go:506-517 | without clones and derived stubs: an id is in the exporter's table exactly while it is in flight, undisposed at the peer, its release in flight or refused, or it never went out; so no live stub dangles |
| `ReferenceProtocol.DanglesExactlyWhenSiblingReleased` | stub.go:191-219 | with clones and derived stubs too: once no release is in flight, a live stub dangles if and only if another stub of its id has sent its release |
| `ReferenceProtocol.DisposedCloneLeavesDangling` | stub.go:290-296 | cloning any live stub and disposing of the clone always leaves the original dangling |
| `ReferenceProtocol.OneStub` | session.go:563-589 | such a state is reachable: a run to a single live stub |
| `ReferenceProtocol.RunIsSingle` | stub.go:134-163 | without clones and derived stubs there is never more than one stub for an id |
| `ReferenceProtocol.StubLivesByItsCount` | stub.go:257-267 | unless disposed of outright, a live stub stays alive in every continuation exactly until its Releases make up for its count and the AddRefs, whatever anybody else does |
| `ReferenceProtocol.RunIsFaithful` | session.go:246-278 | when every message is accepted and no call is made, every id issued is in flight or has a stub, if a disposed one, at the peer, and every finished disposal has sent its release |
| `ReferenceProtocol.NothingStays` | session.go:490-517 | then, once all stubs are disposed of and all messages handled, all four tables are empty and the counters are zero |
| `ReferenceProtocol.UnreachedStaysForever` | session.go:538-560 | an id the peer never hears of stays in the table however the run continues |
| `ReferenceProtocol.EveryCallLeaks` | stub.go:80-131 | every call leaves such an id behind, the placeholder for its result |
| `ReferenceProtocol.RunIsCounted` | stub.go:275-299 | without derived stubs every stub has its share in the import entry's count |
| `ReferenceProtocol.TablesAreExact` | session.go:538-589 | on both sides of every run: counters equal table sizes, every export has count 1, and without derived stubs each import count is the number of stubs that have not dropped their reference |
| `ReferenceProtocol.SendKeepsGood` | session.go:538-560 | sending n references keeps the invariant, accepted or not |
| `ReferenceProtocol.DeliverDataKeepsGood` | session.go:563-589 | decoding a message's references keeps it |
| `ReferenceProtocol.DeliverReleaseKeepsGood` | session.go:490-517 | handling a release keeps it |
| `ReferenceProtocol.ShareKeepsGood` | stub.go:275-299 | cloning and deriving a stub keep it |
| `ReferenceProtocol.NotifyKeepsGood` | stub.go:199-207 | sending the release of a claimed stub keeps it, accepted or not |
| `ReferenceProtocol.ForgetKeepsGood` | stub.go:208-219 | dropping the local reference afterwards keeps it |
| `MemoryTransports.RunIsGood` | transport_memory.go:50-136 | in every run, closes and aborts included: received plus buffered is accepted, in order; each end's counters lack exactly what it has yet to count; the close is announced at most once, with the first closer's reason |
| `MemoryTransports.CountersBalance` | transport_memory.go:64-68 | in every run, what the sender has counted and has yet to count, less the same at the receiver, is exactly what is buffered, in messages and in bytes; received is a prefix of accepted |
| `MemoryTransports.CountersShowBacklogExactly` | transport_memory.go:82-86 | the difference of the counters is what is buffered if and only if both ends have equally much left to count |
| `MemoryTransports.ReceiverCanCountFirst` | transport_memory.go:64-86 | a run after which the statistics show one message received and none sent |
| `MemoryTransports.FirstReasonWins` | transport_memory.go:95-136 | a closed side reports the first closer's reason from the announcement on, and the generic error before it |
| `MemoryTransports.MemoryTransport.SendMessage` | transport_memory.go:50-65 | refused at once on a closed side and above the size limit, otherwise appended, with its counting still to come; the other direction is untouched |
| `MemoryTransports.MemoryTransport.ReceiveMessage` | transport_memory.go:77-83 | on a closed side the close error at once, otherwise the oldest message, with its counting still to come |
| `MemoryTransports.MemoryTransport.CountBytesOf` | transport_memory.go:66-84 | the first counter update, by any thread that has it before it |
| `MemoryTransports.MemoryTransport.CountMessageOf` | transport_memory.go:67-85 | the second counter update |
| `MemoryTransports.MemoryTransport.TryClaim` | transport_memory.go:96-99 | only the first of Close and Abort wins |
| `MemoryTransports.MemoryTransport.AnnounceClose` | transport_memory.go:101-118 | records the winner's reason and wakes blocked callers, once |
| `Serialization.RoundTrip` | serialize.go:373-481 | decoding an encoded value gives the normalised value if and only if no nested array of length 2 or more starts with one of the seven reserved tags |
| `Serialization.LeafRoundTrip` | serialize.go:88-137 | every leaf comes back normalised: big integers and bytes exactly, dates to the millisecond, errors as RpcError, references as import stubs of the issued id |
| `Serialization.ListRoundTrip` | serialize.go:174-193 | the same for arrays, with the exact condition on the first item |
| `Serialization.DictRoundTrip` | serialize.go:217-232 | the same for string-keyed maps, whatever order their keys are visited in |
| `Serialization.EncodeFailsExactly` | serialize.go:73-76 | serialisation fails if and only if some part is unsupported or the nesting exceeds MaxDepth |
| `Serialization.EncodeCounts` | serialize.go:280-307 | a successful serialisation issues exactly one export id for every function and target |
| `Serialization.DecodeListAgrees` | serialize.go:529-541 | an untagged array decodes to a list exactly when every element decodes to its element |
| `Serialization.DecodeObjectAgrees` | serialize.go:515-527 | the same for objects, key by key |
| `Serialization.TaggedDecodes` | serialize.go:405-481 | a tagged pair is decoded by its tag, whatever its second element |
| `Serialization.ErrorObjectDecodes` | serialize.go:483-513 | an encoded error object gives back name, message, code and stack |
| `WireForm.PlainLeavesOnTheWire` | serialize.go:80-110 | JSON's own values as themselves, big integers as ["bigint", text], bytes as ["bytes", base64]; unsupported values fail |
| `WireForm.DateOnTheWire` | serialize.go:95-100 | a date is ["date", whole milliseconds], rounded down |
| `WireForm.ErrorOnTheWire` | serialize.go:139-172 | an error is ["error", object] with name and message, code exactly if not 0, stack exactly if asked for and there is one |
| `WireForm.ReferenceOnTheWire` | serialize.go:280-324 | a function or target is ["export", next id] and takes that id; a stub passed on is ["import", import id], or else ["export", export id] |
| `WireForm.ReferencesOnTheWire` | serialize.go:73-137 | in a whole encoded value the tagged references are exactly the fresh ids under "export" and the stubs passed on under their own word and id; none is a promise |
| `WireForm.ReferenceRead` | serialize.go:446-473 | all three reference tags import the id, only "promise" marks it as one, and other values than numbers are errors |
| `WireForm.TextRead` | serialize.go:418-441 | "bigint" and "bytes" read text and "date" a number, and nothing else |
| `WireForm.ErrorRead` | serialize.go:483-513 | reading an error never fails: a name makes it an RpcError, without one only the message counts, a non-object is marked |
| `WireForm.TruncatesTowardsZero` | serialize.go:427-431 | the conversion of a number to an integer rounds towards zero |
| `Codec.Serializer.SerializeWithDepth` | serialize.go:73-137 | computes the specified tree, whose wire form the WireForm lemmas state, and exports into the session exactly as many references as ids were used, even when it fails |
| `Codec.Serializer.SerializeArray` | serialize.go:174-193 | the loop over the items, stopping at the first failure |
| `Codec.Serializer.SerializeMap` | serialize.go:217-232 | the loop over the entries, stopping at the first failure |
| `Codec.Deserializer.DeserializeValue` | serialize.go:373-403 | computes the specified value; the tables are as after importing the listed ids, on failure those made by then, on success exactly the stubs of the result, each once if none repeats |
| `Codec.Deserializer.DeserializeArrayType` | serialize.go:405-481 | the seven tags; only the three reference tags import, one id each |
| `Codec.Deserializer.DeserializeArray` | serialize.go:529-541 | the loop over the elements, stopping at the first failure with its imports kept |
| `Codec.Deserializer.DeserializeObject` | serialize.go:515-527 | the loop over the entries, in any order, stopping at the first failure with its imports kept |
| `Codec.OnlyExportedTransitively` | session.go:538-560 | runs of exports compose: nothing but fresh exports happens while a value is encoded |
| `Codec.MessageRoundTrip` | protocol.go:142-206 | the receiver decodes the sender's normalised message if and only if the type is known, has its arguments, and no argument is ambiguous |
| `Codec.MessageCarriesFreshIds` | protocol.go:142-206 | the receiver imports exactly the ids the sender exported for the message, each once: its tables are as after importing the sender's fresh ids, which is how the two-party runs take a message |
| `Codec.ArgsSpan` | serialize.go:280-307 | the stubs of the decoded arguments have exactly the ids issued while they were encoded, each once |
| `StubIds.StubsAreFresh` | serialize.go:280-307 | for a value that passes on no stub, the decoded value's stubs have exactly the ids next + 1 to next + the number of functions and targets, each once |
| `StubIds.ImportsAreTheExports` | session.go:563-589 | importing the stubs of such a value is importing the sender's fresh ids, in whatever order |
| `StubIds.ImportManyEntries` | session.go:563-589 | after any imports: count 1 for every imported id, all other entries as before, and the active counter up by one per import |
| `StubIds.PlainArrayBecomesStub` | serialize.go:373-403 | a plain array ["export", id] holds no reference for its sender and becomes a stub for that id at the receiver |
| `Codec.DecodeAllAgrees` | protocol.go:193-203 | the arguments decode to the expected ones exactly when each does |
| `Codec.ValidMessagesAre` | protocol.go:209-287 | valid are exactly push, pull and abort with at least one argument and resolve, reject and release with at least two |
| `Codec.AcceptedMessagesAre` | protocol.go:177-206 | an accepted message has its first element as type and every further element, decoded, as an argument |
| `Codec.ArgumentsAre` | protocol.go:152-161 | every argument is encoded from depth 0 after the exports of those before it; a nil argument is null |
| `Codec.Protocol.EncodeMessage` | protocol.go:142-174 | the message array, nil arguments bypassing the serialiser; fails on the empty message, a failing argument and text over 64 MB, whose exports remain; nothing but exports happens to the session |
| `Codec.Protocol.DecodeMessage` | protocol.go:177-206 | rejected for oversized text, malformed arrays, unknown types, missing arguments and undecodable arguments, and only then; the tables are as after importing exactly the stubs of the arguments |
| `TokenBuckets.RefinesIdealBucket` | rate_limiting.go:225-260 | in every run each request granted is granted by a bucket of capacity + 1 that keeps fractional remainders |
| `TokenBuckets.ExtraTokenIsNeeded` | rate_limiting.go:243-260 | with the same capacity that fails: every full bucket has a run the ideal bucket refuses |
| `TokenBuckets.WindowBound` | rate_limiting.go:225-260 | after any history, a window of length d grants at most capacity + ceil(d / refillRate) tokens, which is at most capacity + floor(d / refillRate) + 1 |
| `TokenBuckets.WindowBoundIsReached` | rate_limiting.go:225-260 | for every d some run of a full bucket grants exactly that many |
| `TokenBuckets.LessThanHalfIsLost` | rate_limiting.go:243-260 | whole intervals credited before capping (TokensAreConserved ties them to tokens), times 2 * refillRate, strictly exceed the time between first and last refill; times refillRate they do not |
| `TokenBuckets.NearlyHalfCanBeLost` | rate_limiting.go:247-258 | the factor 2 is the best: runs of any length lose all but one tick of every second interval |
| `TokenBuckets.RunIsValid` | rate_limiting.go:225-282 | token bounds, the current-token statistic, and allowed plus denied equal to the requests made, in every run |
| `TokenBuckets.RefillCredits` | rate_limiting.go:243-260 | after k whole intervals, k at least 1, a refill leaves min(capacity, tokens + k) tokens; before the first it changes nothing |
| `TokenBuckets.IdleBucketGrantsExactly` | rate_limiting.go:225-260 | after k whole idle intervals exactly the requests for at most min(capacity, tokens + k) are granted |
| `TokenBuckets.TokensAreConserved` | rate_limiting.go:225-260 | over every run, final tokens are initial tokens plus credited less spilled over the capacity less granted, and the allowed counter is the number of grants |
| `TokenBuckets.ReservationIsExact` | rate_limiting.go:263-282 | a token is there at a moment after the reservation if and only if the reserved time has passed |
| `TokenBuckets.RefillPotential` | rate_limiting.go:243-260 | a refill never raises tokens plus elapsed time, and leaves it below capacity + 1 intervals |
| `TokenBuckets.ReservationGuaranteesToken` | rate_limiting.go:263-282 | sleeping for the reserved duration guarantees a token if and only if the capacity is at least 1 |
| `TokenBuckets.Wait` | rate_limiting.go:110-132 | alone on a bucket of capacity at least 1, waiting succeeds at the second attempt at the latest, unless cancelled in its one sleep |
| `TokenBuckets.TokenBucket.RefillNow` | rate_limiting.go:243-260 | for the k whole intervals since the last refill: min(capacity, tokens + k) tokens and a new last refill if k is at least 1, no change otherwise |
| `TokenBuckets.TokenBucket.TakeTokens` | rate_limiting.go:225-240 | granted exactly when the refilled bucket has enough; tokens and statistics follow |
| `TokenBuckets.TokenBucket.Reserve` | rate_limiting.go:263-282 | the time left to the next refill by a second reading of the clock, zero if there is a token or it is due |
| `Quotas.IntervalBound` | rate_limiting.go:491-531 | after any history, an interval of at most m periods accepts at most (m + 1) * Limit, for amounts that cannot wrap |
| `Quotas.IntervalBoundIsReached` | rate_limiting.go:491-531 | and some run reaches that, for every m up to the ticks in a period |
| `Quotas.UsedIsAcceptedInWindow` | rate_limiting.go:482-531 | Used is the sum accepted since WindowStart as a 64-bit number; allowed plus denied is total, exceeded is denied |
| `Quotas.UsesAreCounted` | rate_limiting.go:491-508 | over every run each use is counted once in total, once as allowed if the 64-bit sum fitted and otherwise once as denied and exceeded |
| `Quotas.DenialChangesNothing` | rate_limiting.go:505-507 | a denied use leaves usage and window as they are after a due reset |
| `Quotas.AcceptedExactly` | rate_limiting.go:498 | a use is accepted if and only if it fits or the sum leaves the 64-bit range, and then Used turns negative |
| `Quotas.LimitHoldsExactly` | rate_limiting.go:498 | amounts up to a bound never push the usage over the limit if and only if limit plus bound is below 2^63 |
| `Quotas.CheckedThenAccepted` | rate_limiting.go:482-488 | what a check promised stays true however much later the use comes |
| `Quotas.RunIsBounded` | rate_limiting.go:518-531 | the invariant behind the interval bound: one limit per window opened, windows more than a period apart |
| `Quotas.Quota.ResetIfExpired` | rate_limiting.go:518-531 | opens a new window exactly when the old one is over, by a second reading of the clock; only the usage and the window change |
| `Quotas.Quota.CheckUsage` | rate_limiting.go:482-488 | answers for the state after a due reset |
| `Quotas.Quota.Consume` | rate_limiting.go:491-508 | usage, window and the four counters on acceptance and on denial |
| `HttpBatching.RunIsGood` | http_transport.go:140-244 | in every interleaving: dispatched batches flattened, then the open batch, the message in hand and the queue are the accepted messages in order; batch sizes; an open batch always has its own timer pending and no other is armed |
| `HttpBatching.AllDispatchedOnExit` | http_transport.go:188-196 | once the processor has exited everything accepted has been dispatched, each once and in order |
| `HttpBatching.FullBatchIsDispatched` | http_transport.go:198-205 | the processor dispatches exactly when the message makes the batch as long as BatchSize says, and then all of it |
| `HttpBatching.FullBatchHasBatchSize` | http_transport.go:201-205 | in every run what it dispatches then has exactly max(1, BatchSize) messages |
| `HttpBatching.ShortBatchesAreFlushed` | http_transport.go:188-244 | in every run a shorter batch went out at a timer's callback, at Close or at the processor's exit |
| `HttpBatching.UnflushedBatchesAreFull` | http_transport.go:188-244 | without any of these every dispatched batch has exactly max(1, BatchSize) messages |
| `HttpBatching.CloseFlushesExactly` | http_transport.go:170-185 | Close has everything dispatched when it returns if and only if queue and hand were empty at its flush |
| `HttpBatching.TimerDispatchesBatch` | http_transport.go:206-213 | no open batch is forgotten: its timer's callback dispatches all of it |
| `HttpBatching.StaleCallbackCutsBatchShort` | http_transport.go:206-213 | a callback that lost the race dispatches the next batch early and stops that batch's timer |
| `HttpBatching.StaleCallbackHappens` | http_transport.go:198-215 | such a state is reachable: a timer fires, its batch fills up, and the callback meets the next message |
| `HttpBatching.StepPanicsExactly` | http_transport.go:148-156 | a single step panics exactly when a sender past its check touches the closed channel |
| `HttpBatching.PanicsExactly` | http_transport.go:140-157 | once closed, some continuation panics if and only if a sender is past its check; while open, some continuation always does |
| `HttpBatching.SendCanRaceClose` | http_transport.go:140-177 | such a run exists |
| `HttpBatching.QuietRunsNeverPanic` | http_transport.go:140-177 | no run panics in which no sender is past its check whenever Close begins |
| `HttpBatching.HTTPBatchTransport.CheckOpen` | http_transport.go:141-146 | the first critical section of Send |
| `HttpBatching.HTTPBatchTransport.Enqueue` | http_transport.go:148-156 | accepted exactly on an open channel with room, refused when full, a panic on the closed channel |
| `HttpBatching.HTTPBatchTransport.BeginClose` | http_transport.go:170-179 | marks the transport closed and closes the channel, once |
| `HttpBatching.HTTPBatchTransport.EndClose` | http_transport.go:181-182 | dispatches the open batch |
| `HttpBatching.HTTPBatchTransport.ReceiveNext` | http_transport.go:188-196 | takes the oldest message, or flushes and exits |
| `HttpBatching.HTTPBatchTransport.AppendToBatch` | http_transport.go:198-215 | dispatches the batch with the new message exactly if it has BatchSize messages then, and keeps it open otherwise; arms the timer for a new one |
| `HttpBatching.HTTPBatchTransport.OnTimer` | http_transport.go:207-213 | dispatches whatever batch is open |
| `HttpBatching.HTTPBatchTransport.SendBatch` | http_transport.go:220-237 | dispatches the open batch and stops its timer; nothing for an empty one |
| `Promises.RunIsGood` | promise.go:124-255 | in every interleaving: every channel is registered, taken or closed, in order of registration, so none is closed twice; a woken Await got the settled outcome |
| `Promises.AnswersAre` | promise.go:157-175 | an Await that had to wait and was not cancelled answers with the settled result or error |
| `Promises.WakingAnswers` | promise.go:163-170 | an Await whose channel is closed answers with the settled outcome as soon as it runs |
| `Promises.OutcomeIsFinal` | promise.go:206-243 | the first settlement wins; state, result and the swapped-out list never change again |
| `Promises.NotifierClosesExactly` | promise.go:246-255 | when the notifier is done, the closed channels are exactly those registered before the swap |
| `Promises.WokenExactly` | promise.go:126-145 | a registered waiter can still be woken if and only if it was registered before the swap |
| `Promises.WakeUpCanBeLost` | promise.go:126-145 | a waiter can be registered after it, and then no continuation wakes it |
| `Promises.Promise.CheckState` | promise.go:126-140 | the first critical section of Await |
| `Promises.Promise.RegisterWaiter` | promise.go:143-146 | the second: a new channel at the end of the list |
| `Promises.Promise.Woken` | promise.go:163-170 | a woken Await returns the settled result or error |
| `Promises.Promise.TrySettle` | promise.go:206-214 | wins exactly on a pending promise and sets state and result or error |
| `Promises.Promise.NotifyWaiters` | promise.go:246-255 | closes everything registered, in order and once, and leaves the list empty |
| `Promises.Promise.SettleAndNotify` | promise.go:206-243 | the first call settles and wakes everybody; later ones change nothing at all |
| `Promises.PromiseResolver.SettlePromise` | promise.go:322-351 | removes the entry and settles its promise unless it already was; all other promises are untouched |
| `Promises.PromiseResolver.CleanupPromises` | promise.go:361-370 | empties the table and rejects every pending promise in it, however often it is listed |
| `Promises.RejectAll` | promise.go:367-369 | the loop: each promise rejected if it was pending and kept otherwise, in any order |
| `Resources.RunIsGood` | resource_management.go:186-541 | in every interleaving: cleanup starts at most once per resource, and every resource is listed, disposed, or held by a thread about to dispose it |
| `Resources.CleanedUpOnce` | resource_management.go:510-530 | once a cleanup has started it never starts again, whatever happens |
| `Resources.TableIsExactWhenIdle` | resource_management.go:510-536 | with no disposal under way the table holds exactly the resources not cleaned up |
| `Resources.RefCountIsBalance` | resource_management.go:274-298 | in every run the count of a resource is 1, plus its AddRefs, less its Releases |
| `Resources.ReleaseCondemnsExactly` | resource_management.go:297-306 | a Release puts a resource up for cleanup if and only if the Releases, with it, are at least 1 plus the AddRefs |
| `Resources.HeldIsUntouched` | resource_management.go:274-309 | a resource that always has more references than Releases, untracked by nobody and not collected by Stop, is never up for cleanup, queued or cleaned up, and stays listed |
| `Resources.LastReleaseCondemns` | resource_management.go:297-306 | the release that takes the count to zero is what condemns it |
| `Resources.QueuedIsDoomed` | resource_management.go:288-309 | once a release has found the count used up, no later reference saves the resource, wherever it is in the queue and however the run continues; with queue and disposals drained it has been cleaned up |
| `Resources.StopIsFinalExactly` | resource_management.go:186-220 | after Stop has emptied the table it stays empty in every continuation if and only if no tracker was between its tests and its insertion |
| `Resources.StopDisposesAll` | resource_management.go:435-455 | with the table empty, everything ever created is cleaned up or about to be |
| `Resources.WithoutKeepsOthers` | resource_management.go:510-530 | one thread's disposal leaves the other threads' claims in place |
| `Resources.ResourceManager.IsRunning` | resource_management.go:187-189 | the first test of TrackResource |
| `Resources.ResourceManager.HasRoom` | resource_management.go:192-198 | the second test of TrackResource |
| `Resources.ResourceManager.DrawNumber` | resource_management.go:201 | every tracker draws an id of its own, in a step of its own |
| `Resources.ResourceManager.Insert` | resource_management.go:203-225 | the resource is listed under the id drawn, with count 1 |
| `Resources.ResourceManager.Remove` | resource_management.go:239-249 | delists the resource and makes the caller responsible for its disposal |
| `Resources.ResourceManager.LookupForAdd` | resource_management.go:274-281 | finds exactly the listed resources |
| `Resources.ResourceManager.CountAdd` | resource_management.go:283 | the count goes up by exactly one, even if the resource has been delisted since |
| `Resources.ResourceManager.LookupForRelease` | resource_management.go:288-295 | finds exactly the listed resources |
| `Resources.ResourceManager.CountRelease` | resource_management.go:297-298 | the count goes down by exactly one, and whether it is at zero or below |
| `Resources.ResourceManager.QueueForCleanup` | resource_management.go:299-306 | queued, or disposed directly when the queue is full |
| `Resources.ResourceManager.SweepIdle` | resource_management.go:486-497 | the idle sweep notes exactly listed resources with no reference left |
| `Resources.ResourceManager.QueueIdle` | resource_management.go:499-507 | queued, or skipped when the queue is full |
| `Resources.ResourceManager.TakeFromQueue` | resource_management.go:461-466 | a worker takes the oldest queued resource |
| `Resources.ResourceManager.MarkDisposed` | resource_management.go:510-517 | only the first disposal gets to run the cleanup |
| `Resources.ResourceManager.MarkStopped` | resource_management.go:451-454 | the same for what Stop collected |
| `Resources.ResourceManager.FinishDisposal` | resource_management.go:530-533 | delists the resource after its cleanup |
| `Resources.ResourceManager.BeginStop` | resource_management.go:435-438 | only one caller stops the manager |
| `Resources.ResourceManager.CollectAll` | resource_management.go:442-449 | everything listed is collected for disposal and the table is empty |
| `Framing.FramesRoundTrip` | custom_transports.go:282-358 | reading back any number of concatenated frames gives the messages, whatever follows, if and only if each is nonempty and within MaxMessageSize and the prefix range |
| `Framing.FrameRoundTrip` | custom_transports.go:282-358 | the same for one frame |
| `Framing.MisfitIsNotRead` | custom_transports.go:305-313 | a message that does not fit is never read back as it was |
| `Framing.HeaderRoundTrip` | custom_transports.go:328-347 | the big-endian prefix reads back as the length modulo the prefix range |
| `Framing.HeaderIsBigEndian` | custom_transports.go:328-347 | the prefix bytes, most significant first, are the length modulo the prefix range |
| `Framing.FramesWritten` | custom_transports.go:324-350 | writing refuses exactly unsupported sizes and, with two bytes, messages over 65535 bytes; a frame is the prefix and then the message |
| `Framing.LengthWraps` | custom_transports.go:339-345 | a 4-byte frame of more than 2^32 bytes is written without complaint and read as its first part |
| `Framing.TCPTransport.WriteFrame` | custom_transports.go:324-358 | writes exactly the frame, or nothing when it refuses |
| `Framing.TCPTransport.ReadFrame` | custom_transports.go:282-321 | consumes exactly one frame, or on a bad length or an unsupported size only the prefix, and counts the framing error |
| `InProcess.ReceivedIsSubsequence` | custom_transports.go:564-635 | in every run what one side receives is an in-order subsequence, without duplicates, of what the other side's Send accepted |
| `InProcess.ReceivedIsPrefix` | custom_transports.go:564-635 | a prefix of it if neither side closes and never more than 1000 accepted messages are unreceived |
| `InProcess.LossNeedsOnlyOneMore` | custom_transports.go:622-630 | at the moment of that loss the backlog is 1001, so the bound of a calm run cannot be raised |
| `InProcess.OneMoreCanBeLost` | custom_transports.go:622-630 | with 1001 unreceived a message can be lost for good although nobody closes: the receiver gets the message at position 1001 right after that at position 999 |
| `InProcess.StepOnPipeline` | custom_transports.go:618-635 | each step extends the pipeline, loses the message in hand in one of two named situations, or changes nothing |
| `InProcess.InProcessTransport.SendData` | custom_transports.go:564-586 | refused at once on a closed side, otherwise appended and counted |
| `InProcess.InProcessTransport.ReceiveData` | custom_transports.go:589-600 | the oldest message, or the error on a closed side, as the select decides; the outward direction is untouched |
| `InProcess.InProcessTransport.Close` | custom_transports.go:603-615 | closes both directions' ends on this side, once |
| `InProcess.InProcessTransport.ForwardOne` | custom_transports.go:618-635 | the message is delivered exactly if the peer was not seen closed, there is room and a ready close does not win; the forwarder goes on exactly unless it finds the peer closed in the select |
| `Balancing.SharesMatchWeights` | transport_manager.go:540-569 | of the totalWeight possible targets exactly weight_i belong to position i |
| `Balancing.OwnerIsUnique` | transport_manager.go:557-567 | no target belongs to two positions |
| `Balancing.WeightedLoadBalancer.SelectTransport` | transport_manager.go:533-571 | selects the position that owns the target, the first for a clock before 1970; neither the zero-total nor the final return is reached |
| `Balancing.WeightedLoadBalancer.SetWeight` | transport_manager.go:526-530 | in any list of transports, the transport's positions then own exactly the new weight of the targets, a non-positive one counting as 1, and every other position owns as many as before |
| `Balancing.RoundRobinIsFair` | transport_manager.go:489-500 | in every window of consecutive selections from a fixed list any two positions are picked numbers of times that differ by at most one |
| `Balancing.PicksByRounds` | transport_manager.go:494-497 | how often exactly, from the counter's quotient and remainder |
| `Balancing.RoundRobinLoadBalancer.SelectTransport` | transport_manager.go:489-500 | the counter modulo the length; an error, and no change, for an empty list |
| `Balancing.RoundRobinLoadBalancer.SelectMany` | transport_manager.go:489-500 | the counts of any number of real selections obey the fairness bound |
| `Balancing.FindSuitableProviders` | transport_manager.go:208-230 | exactly the providers that support the endpoint, each as often as it is registered, highest priority first |
| `Balancing.SuitableAre` | transport_manager.go:212-218 | the filter keeps a provider as often as it is registered if it supports the endpoint, and drops it otherwise |
| `Balancing.SortByPriority` | transport_manager.go:219-227 | the in-place exchange sort: a permutation, in descending priority |
| `Health.HealthFollowsHistory` | transport_manager.go:412-438 | for all thresholds and outcomes: unhealthy exactly when some long enough run of failures has had no long enough run of successes completed later; a threshold below 1 acts as 1 |
| `Health.CountersAreStreaks` | transport_manager.go:423-435 | the counters are the lengths of the current runs |
| `Health.TransportHealth.Record` | transport_manager.go:420-437 | status and both counters after one outcome |
| `Health.Monitor` | transport_manager.go:358-438 | a monitored transport's status after any sequence of checks meets the history specification |

## Left out

- Lock progress and the Go memory model: `Send` encodes under the read lock while exporting takes the write lock; the two-party model takes "encode, then send" as one step.
- Plain arrays that start with a tag, whether a value or a call's whole argument list: the receiver turns `["export", 1]` into a second stub for id 1. StubIds.PlainArrayBecomesStub shows it; the two-party runs contain no such message.
- The pipeline executor's own import stubs: they overwrite import entries (Pipelining.TargetsLoseTheirCounts) and the two-party runs contain none.
- A message whose encoding fails half way has exported values the peer never hears of: in the two-party runs this is a message that is not accepted, so why it failed is not told apart.
- Re-sent stubs: a second import of one id overwrites its entry, and a call's result stub reuses an export id as an import id; the two-party runs contain neither.
- Messages that fail to decode after some imports were made, and the push, resolve and reject handlers with the response table.
- Session.Close and abort as orderings of their own: the runs only know that sends are refused from some point on.
- Deserializers without an import function; the error values and messages behind a failure.
- Pointers, structs with their json tags, maps with other keys, named and fixed-size byte types, values without a matching case of the type classification: the model's values are the pointer-free ones that reach a case.
- JSON text and floating-point rounding: trees with exact numbers, so integers above 2^53 and conversions of numbers outside the integer range are not modelled.
- Pipelining.Pipeline.ExecuteOperation: does not model what the call itself exports and sends; that is StartCall and SendValues in the two-party runs.
- PipelineOperation results, arguments and times, the batch processor, trackDependencies and groupForBatching (which returns its argument).
- Limits and periods that change during a run (SetLimit, SetQuota, Reset), eviction of buckets and quotas, negative amounts in bounded windows, AverageUsage, and durations that overflow.
- Wait: models one caller on its bucket; with competitors no attempt is guaranteed.
- HTTP requests, retries, responses and the order in which sending goroutines reach the server.
- SetBatchSize and SetBatchTimeout during a run.
- Promise chaining, paths, the pull request that Await may send, and default timeouts.
- Finalizers, leak detection, contexts of resources (a cancelled context calls UntrackResource, which is modelled), access times: any unreferenced resource may be found idle.
- StubIds.StubsAreFresh: stated, like the two-party runs, for the first 2^31 - 1 export ids, after which the int32 ids wrap around.
- Quotas.Quota.Consume: AverageUsage and the time of the last reset are not modelled, nor are stats.LastRefill of a bucket and LastCheck of a monitored transport; nothing depends on them.
- InProcessTransport: its statistics are plain increments without a lock; the contracts describe a call on its own.
- Resources.RefCountIsBalance: counts are unbounded integers; the source's int32 count wraps around after 2^31 references.
- WireForm.ReferencesOnTheWire: stated for unambiguous values and the first 2^31 - 1 export ids.
- ResourceManager: the resource objects are entries of a map keyed by id, so aliasing of a resource object is not captured.
- Connection.Fill: a Read that returns fewer bytes than asked for, which the source does not retry, and write errors between prefix and message.
- The counter of the round-robin balancer and the sum of weights are unbounded integers; after 2^63 selections the source's index turns negative.
- FindSuitableProviders: nothing is said about the order of providers of equal priority, which the source leaves to the map order and an unstable sort.
- InProcessTransport.SendData, MemoryTransport.SendMessage and the two receive methods: blocking on an open side is left to the caller; the step functions treat it as not yet having happened.
- Sockets, WebSocket, gRPC, streaming, security, validation, reflection, code generation, debugging and test helpers: input and output or easy members.
