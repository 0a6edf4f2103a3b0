# flexiq, modelled and proved in Dafny

flexiq is a job queue with SDKs in several languages over one Rust core. This
project models the parts of it whose worth lies in what holds on every input and in
every run, and proves those things. `dafny verify dfyconfig.toml` checks all of it.

| part | modules |
|---|---|
| the Go client's call envelope and its float widener | `Bytes`, `Floats`, `Cbor`, `FloatWidth`, `Utf8`, `Ordering`, `Wire` |
| mesh membership, hash ring, prefetch buffer, bridge loop | `Ring`, `MeshState`, `MeshThreads`, `Deque`, `Bridge` |
| leases, dispatch fence, running-job and completion registries | `Base64`, `Lease`, `Fence`, `FenceRuns`, `FenceWhole`, `RunningJobs`, `Dispatcher` |
| trace context spliced into JSON metadata | `Json`, `JsonGrammar`, `JsonSound`, `JsonExact`, `JsonText`, `Trace` |
| frames, override keys, topic publishing | `Frame`, `Keys`, `PubSub` |
| shared | `Text`, `Seqs`, `Wrappers` |

How the model takes the code:

- Code that computes by expressions is functions. Objects that update their fields are
  classes whose methods are proved against specification functions, and the theorems
  are about those functions.
- Code that runs concurrently is a state machine. A step is one lock operation, one
  atomic counter update, one channel operation or one storage statement, steps of all
  threads interleave freely, and the theorems quantify over every run.
- The hash, the clock, the network, the scheduler's job stream, the peers' answers and
  the choices of other processes are parameters or events that may take any value.
- A float's magnitude is a natural number of units of 2^-1074, so that every finite
  16-, 32- and 64-bit value is exact and no rounding occurs anywhere.
- Rust strings are byte sequences, except in the JSON modules and `Trace`, where a text
  is a sequence of Unicode scalar values.

## Where the code falls short of what it promises

Each of these is proved with a concrete run or input, and with the exact condition
under which the code does keep the promise.

- A superseded dispatch's result can be applied. A frame is checked against the lease
  book on arrival, but the result made from it names only the job and is fenced on
  whatever record the scheduler holds by then, the claim row it is fenced against may
  be absent or put back by a superseded dispatch's step commit, and the write it leads
  to is a later statement than the fence
  (crates/flexiq-core/src/worker/remote.rs:1620-1675,
  crates/flexiq-core/src/storage/diesel_common/steps.rs:60-119,
  crates/flexiq-core/src/scheduler/result_handler.rs:58-167). `Fence.WriteStaleIff`
  says exactly when it happens, and `Fence.ReportStaleIff` for a report settled without
  interruption; `FenceRuns.OvertakenAppliesStale`, `FenceRuns.UnclaimedAppliesStale`,
  `FenceRuns.RevivedAppliesStale`, `FenceRuns.PurgedAppliesStale`,
  `FenceRuns.ForgottenAppliesStale` and `FenceRuns.LateWriteAppliesStale` reach each case;
  `Fence.FencedOnOwnRecord`, `Fence.LiveReportsAreCurrent` and
  `FenceWhole.WholeStepsNeverStale` say when it cannot.
- A claim can end in two applied results, its executor's and the reaper's, because a
  retry is written to a job that no longer runs (`FenceRuns.TwiceUnderOneClaim`).
  `Fence.SecondWriteIff` says exactly when a write is such a second one; no executor is
  ever applied twice (`Fence.OncePerExecutor`), and in runs of whole steps no claim is
  (`FenceWhole.WholeStepsNeverStale`).
- A straggler can take a newer dispatch's lease out of the book, because the lease
  retired is the one of the record it releases (`FenceRuns.OvertakenAppliesStale`).
  `Fence.EvictsAnotherIff` says exactly when; retiring a released dispatch's own lease
  never does it (`Fence.RetireSparesLive`).
- A payload the Go client wrote does not always decode: text that is not UTF-8
  (`Wire.BadTextIsRefused`) and nested maps with keys that are not text
  (`Wire.IntegerKeyIsRefused`) are written and then refused. `Wire.CallRoundTrip` has
  the exact condition.
- `frame` truncates a count or a length that does not fit 32 bits: an element comes back
  cut to its length modulo 2^32, one of 2^32 bytes empty (`Frame.LongElementIsCut`). The
  round trip holds exactly when they fit (`Frame.RoundTrip`).
- The float walk accepts items that RFC 8949 calls ill-formed: the reserved heads 0xfc
  to 0xfe and the two-byte simple values below 32 (`FloatWidth.ReservedHeadAccepted`).
  What it accepts is well-formed exactly when it holds none of them
  (`FloatWidth.AcceptedIsWellFormedIff`).
- A node can leave its own ring: marking the local id dead empties a lone node's ring
  (`MeshState.LocalCanBeDemoted`). Without collisions the local worker is on its ring
  exactly when it is alive in the map or no update so far marked it dead or left or
  replaced it, alive, by an entry that is not (`MeshState.LocalOnRingIff`), and exactly
  then the ring is the rebuilt one (`MeshState.RebuiltIff`, and
  `MeshThreads.RingRebuiltIff` for every interleaving).
- The churn counter can miss such a change (`MeshState.LocalChangeUncounted`).
  `MeshState.CountedIffChangedUnless` says exactly which updates it miscounts, and
  `MeshState.CounterDrift` and `MeshThreads.CounterDrifts` how far it drifts in a run.
- Removing a worker that was just added can lose a third party's point
  (`Ring.RemovalLosesCollidedPoint`). It restores the ring exactly when the worker was
  not on it and displaced nobody's point (`Ring.RemoveUndoesAdd`).

- Two publishes to different topics can share a salted key, contrary to the comment at
  crates/flexiq-core/src/pubsub.rs:139-141, so that the second is deduplicated against
  the first's job (`Keys.KeysCanCollide`). `Keys.KeysCollideIff` says exactly which
  idempotency keys allow it; publishes under any others stay apart
  (`PubSub.PublishesApart`).

Where comments and code disagree the model follows the code: comments in
crates/flexiq-mesh/src/lib.rs (224-236) call the owner's end of the buffer its front,
and the code pops the back; `prune_dead` takes an age and drops dead and departed
members whatever theirs is (crates/flexiq-mesh/src/state.rs:248-253).

## Model

| member | source | states |
|---|---|---|
| `Floats.WidenedPreserves` | sdks/go/floatwidth.go:168-194 | widening a finite pattern into a format that embeds its own keeps sign and magnitude, subnormals and zeros included, and stays inside the wider format |
| `Floats.PatternUnique` | sdks/go/floatwidth.go:168-194 | in one format, sign and magnitude determine the pattern, so equal numbers have equal bits |
| `Cbor.ParseSound` | sdks/go/floatwidth.go:89-140 | whatever the reader accepts at a position is a valid tree whose encoding stands there and ends where it stopped |
| `Cbor.ParseComplete` | sdks/go/floatwidth.go:89-140 | wherever a valid tree's encoding stands the reader accepts exactly that tree, whatever follows |
| `Cbor.EncodeInjective` | sdks/go/floatwidth.go:89-140 | one byte string encodes at most one tree |
| `FloatWidth.WidenKeepsMeaning` | sdks/go/floatwidth.go:168-194 | widening never changes the data item: floats by signed value, non-finite floats bit for bit |
| `FloatWidth.WidenNormalizes` | sdks/go/floatwidth.go:168-194 | the result has no finite 16- or 32-bit float anywhere, and a tree is left alone exactly when it had none |
| `FloatWidth.WidenCanonical` | sdks/go/floatwidth.go:63-194 | two trees widen to the same tree exactly when they differ only in the width of finite floats |
| `FloatWidth.WalkAcceptsExactly` | sdks/go/floatwidth.go:89-161 | the walk accepts exactly the encodings of definite-length trees, reserved simple heads included |
| `FloatWidth.ShortcutAgrees` | sdks/go/floatwidth.go:64-67 | where the early return applies and the walk would succeed, the walk returns its input |
| `FloatWidth.WidenBytesCorrect` | sdks/go/floatwidth.go:63-77 | every valid item's bytes are accepted and become those of a normal tree with the same data item |
| `FloatWidth.WidenKeepsWellFormed` | sdks/go/floatwidth.go:63-77 | every item well-formed by section 3 of RFC 8949 is covered and stays well-formed |
| `FloatWidth.WidenBytesIdempotent` | sdks/go/floatwidth.go:63-77 | widening its own output is the identity, for any input it accepts |
| `FloatWidth.WidenBytesCanonical` | sdks/go/floatwidth.go:63-77 | two items widen to identical bytes exactly when only float widths set them apart |
| `FloatWidth.ReservedHeadAccepted` | sdks/go/floatwidth.go:144-161 | inputs that are not well-formed and are accepted, one of each kind: the byte 0xfc, and the two-byte simple value 0 |
| `FloatWidth.AcceptedIsWellFormedIff` | sdks/go/floatwidth.go:144-161 | an accepted input is well-formed by section 3 of RFC 8949 exactly when it holds no reserved simple head at any depth |
| `FloatWidth.FloatWidener.constructor` | sdks/go/floatwidth.go:69 | the cursor starts at 0 and nothing is written yet |
| `FloatWidth.FloatWidener.Next` | sdks/go/floatwidth.go:238-245 | yields the byte at the cursor and moves past it, or reports truncation at the end |
| `FloatWidth.FloatWidener.Copy` | sdks/go/floatwidth.go:248-255 | appends the next n bytes exactly when that many remain |
| `FloatWidth.FloatWidener.Skip` | sdks/go/floatwidth.go:259-265 | moves past n bytes exactly when that many remain |
| `FloatWidth.FloatWidener.Argument` | sdks/go/floatwidth.go:225-236 | the 64-bit accumulator loop reads the big-endian number it copies, without overflow |
| `FloatWidth.FloatWidener.Head` | sdks/go/floatwidth.go:204-223 | copies a head byte for byte and reports its argument, or the grammar's error for it |
| `FloatWidth.FloatWidener.Primitive` | sdks/go/floatwidth.go:144-161 | rewrites one major-7 item as the widened tree's encoding, or reports the grammar's error |
| `FloatWidth.FloatWidener.Float` | sdks/go/floatwidth.go:168-194 | a finite narrow float becomes the 64-bit head of the same number, any other is copied |
| `FloatWidth.FloatWidener.Item` | sdks/go/floatwidth.go:89-140 | appends the encoding of the widened tree of the item at the cursor and stops after it, or reports the reader's error; terminates on every input |
| `FloatWidth.FloatWidener.Items` | sdks/go/floatwidth.go:111-129 | the two counting loops walk as many items as the head declares, counts up to 2^64-1 included |
| `FloatWidth.WidenNarrowFloats` | sdks/go/floatwidth.go:63-77 | the shortcut, the walk and the trailing-bytes check together compute the specified outcome on every byte string |
| `Wire.KeyOrder` | sdks/go/wire.go:83-106 | in the bytewise order of encoded keys a shorter key always comes first, and keys of one length compare as their bytes |
| `Wire.KeyLessIsTotal` | sdks/go/wire.go:100-106 | that order is a strict total order on keys, so a map has one sorted listing |
| `Wire.PayloadUnique` | sdks/go/wire.go:129-177 | one call has one payload, in whatever order its keyword map is walked |
| `Wire.WidenValues` | sdks/go/wire.go:158-170 | every keyword's bytes are its widened encoding, or some keyword cannot be encoded, whichever order the map is walked in |
| `Wire.EncodeKwargs` | sdks/go/wire.go:158-177 | the keyword map's bytes are the map of its widened values in the sorted order of its keys |
| `Wire.EncodeCall` | sdks/go/wire.go:129-154 | the payload is the tag byte and the two-element array of widened arguments and sorted keywords, or the error of the first half that fails |
| `Wire.CallRoundTrip` | sdks/go/wire.go:129-205 | a written payload decodes to the same arguments and keywords, floats by value, exactly when its keys and texts are UTF-8 and its nested maps are keyed by text; otherwise which half is refused |
| `Wire.BadTextIsRefused` | sdks/go/wire.go:180-205 | a payload that is written and does not decode: one argument, the text of the byte 0xff |
| `Wire.IntegerKeyIsRefused` | sdks/go/wire.go:180-205 | another: one argument, a map whose key is the integer 1 |
| `Wire.SplitRoundTrip` | sdks/go/wire.go:246-269 | splitting a written payload returns every argument's own widened bytes exactly when its keywords are UTF-8 |
| `Utf8.WellFormedIffText` | sdks/go/wire.go:180-205 | the bytes the decoder takes for text are exactly the UTF-8 encodings of sequences of Unicode scalar values |
| `Ordering.Sort` | sdks/go/wire.go:100-106 | any strict total order lists a finite set once, in order |
| `Ring.VnodeKeyInjective` | crates/flexiq-mesh/src/ring.rs:33-39 | no two virtual nodes are hashed from the same string |
| `Ring.OneOwner` | crates/flexiq-mesh/src/ring.rs:48-59 | on a non-empty ring every hash has exactly one first point clockwise, wraparound included, and its owner is the preferred worker |
| `Ring.RemoveMovesOnlyItsKeys` | crates/flexiq-mesh/src/ring.rs:42-44 | removing a worker moves only the keys it owned, on any ring |
| `Ring.AddMovesOnlyToNewcomer` | crates/flexiq-mesh/src/ring.rs:33-39 | adding a worker moves keys only to it, even where points collide |
| `Ring.AddedPoints` | crates/flexiq-mesh/src/ring.rs:33-39 | after an addition the newcomer owns all of its points, and every other point is as it was |
| `Ring.RemoveUndoesAdd` | crates/flexiq-mesh/src/ring.rs:33-44 | removal undoes addition exactly when the worker was not on the ring and displaced nobody's point |
| `Ring.RemovalLosesCollidedPoint` | crates/flexiq-mesh/src/ring.rs:33-44 | a ring on which adding a worker and removing it loses another worker's point |
| `Ring.BuiltHoldsExactly` | crates/flexiq-mesh/src/ring.rs:33-44 | without collisions, a ring built in any order holds exactly its workers' virtual nodes |
| `Ring.HoldsExactlyUnique` | crates/flexiq-mesh/src/ring.rs:33-44 | only one ring holds exactly the virtual nodes of given workers |
| `Ring.HashRing.constructor` | crates/flexiq-mesh/src/ring.rs:25-30 | a new ring is empty |
| `Ring.HashRing.AddWorker` | crates/flexiq-mesh/src/ring.rs:33-39 | the insertion loop gives the specified ring, later virtual nodes winning a shared point |
| `Ring.HashRing.RemoveWorker` | crates/flexiq-mesh/src/ring.rs:42-44 | every point of the worker goes and no other does |
| `Ring.HashRing.PreferredWorker` | crates/flexiq-mesh/src/ring.rs:48-59 | the range lookup and its wraparound find the owner of the first point clockwise, and nobody on an empty ring |
| `Ring.HashRing.IsOwner` | crates/flexiq-mesh/src/ring.rs:62-64 | true exactly for the preferred worker |
| `MeshState.MembersIndependent` | crates/flexiq-mesh/src/state.rs:136-253 | in every run, what is believed of a member depends only on the updates that name it and on the prunes, in their order |
| `MeshState.RunOwnersAlive` | crates/flexiq-mesh/src/state.rs:136-202 | after any sequence of updates every ring point belongs to the local worker or to an alive member |
| `MeshState.RunHolds` | crates/flexiq-mesh/src/state.rs:109-202 | without collisions, after any sequence of updates whatever ids they name, the ring holds exactly the virtual nodes of the alive members and of the local worker while it was kept |
| `MeshState.LocalOnRingIff` | crates/flexiq-mesh/src/state.rs:109-202 | so the local worker is on its own ring exactly when it was kept or is alive in the map |
| `MeshState.RebuiltIff` | crates/flexiq-mesh/src/state.rs:109-202 | and exactly then the ring equals the one rebuilt from scratch, in any order of the local worker and the alive members |
| `MeshState.RunExact` | crates/flexiq-mesh/src/state.rs:109-202 | in particular, without collisions and without naming the local id, the ring holds exactly the local worker and the alive members |
| `MeshState.RunIsRebuilt` | crates/flexiq-mesh/src/state.rs:109-202 | so it equals the ring rebuilt from scratch in any order of those workers |
| `MeshState.CountsIffRingChanges` | crates/flexiq-mesh/src/state.rs:136-210 | with a virtual node or more, an update that does not name the local id is counted exactly when it changes the ring |
| `MeshState.CountedIffChangedUnless` | crates/flexiq-mesh/src/state.rs:136-210 | whatever ids are named, an update is counted exactly when it changes the ring, except exactly when it marks or revives a local worker that is on the ring without being alive in the map |
| `MeshState.CounterDrift` | crates/flexiq-mesh/src/state.rs:136-210 | in every run, whatever ids it names, the counter is the number of ring changes, but for the first update that declares the local id alive or marks it: the one is counted without a change, the other changes the ring uncounted; so they never differ by more than one |
| `MeshState.LocalChangeUncounted` | crates/flexiq-mesh/src/state.rs:187-210 | marking a lone node dead changes its ring and is not counted |
| `MeshState.LocalCanBeDemoted` | crates/flexiq-mesh/src/state.rs:187-202 | the input on which the local worker leaves its own ring: demoting the local id empties the ring of a lone node |
| `MeshState.MeshView.constructor` | crates/flexiq-mesh/src/state.rs:109-122 | a new node knows nobody and is alone on its ring |
| `MeshState.MeshView.UpsertMember` | crates/flexiq-mesh/src/state.rs:136-169 | map, ring and counter change together as one specified step, and the result says whether the member is new |
| `MeshState.MeshView.Demote` | crates/flexiq-mesh/src/state.rs:187-202 | the same for marking a member dead or left |
| `MeshState.MeshView.PruneDead` | crates/flexiq-mesh/src/state.rs:248-253 | dead and departed members go whatever their age, the ring stays, and the count is theirs |
| `MeshState.MeshView.IsLocalOwner` | crates/flexiq-mesh/src/state.rs:130-133 | true exactly when the ring prefers the local worker |
| `MeshThreads.NoStrandedMember` | crates/flexiq-mesh/src/state.rs:136-202 | in every interleaving, whenever the members lock has no writer, map and ring are those of the committed updates one after the other, and no point belongs to a member that is not alive |
| `MeshThreads.ReaderSeesCommitted` | crates/flexiq-mesh/src/state.rs:130-133 | a thread reading the ring sees it as after the last committed update or the one before |
| `MeshThreads.CommitsWhatWasCalled` | crates/flexiq-mesh/src/state.rs:136-202 | every thread's committed updates are exactly those it called, in its order, up to one still waiting |
| `MeshThreads.DeadlockFree` | crates/flexiq-mesh/src/state.rs:4-13 | in every run, while some operation is unfinished some thread can step |
| `MeshThreads.EveryRunFinishes` | crates/flexiq-mesh/src/state.rs:4-13 | from every reachable state some schedule leaves every thread idle, and no schedule takes more steps than the threads have left |
| `MeshThreads.StepsBounded` | crates/flexiq-mesh/src/state.rs:136-202 | from any state, every schedule is at most as long as the sum of the threads' remaining steps |
| `MeshThreads.ExecCount` | crates/flexiq-mesh/src/state.rs:136-210 | the churn counter plus what threads still owe it is the churn of the committed updates |
| `MeshThreads.RingAlwaysRebuilt` | crates/flexiq-mesh/src/state.rs:109-210 | in every interleaving without collisions that does not name the local id, a free members lock means the ring is the rebuilt one, and the counter plus pending increments is the number of times the ring changed |
| `MeshThreads.RingRebuiltIff` | crates/flexiq-mesh/src/state.rs:109-210 | in every interleaving without collisions, whatever ids it names, a free members lock means the ring is the rebuilt one exactly when the committed updates kept the local worker or it is alive in the map |
| `MeshThreads.CounterDrifts` | crates/flexiq-mesh/src/state.rs:136-210 | the same in every interleaving, whenever the members lock has no writer, for the counter with the increments still owed to it |
| `Deque.StableSortIsPartition` | crates/flexiq-mesh/src/local_deque.rs:86-108 | there is one stable sort by ownership, and it is the stable partition |
| `Deque.PartitionedKeeps` | crates/flexiq-mesh/src/local_deque.rs:86-108 | the partition keeps every job and repeats none |
| `Deque.SortByOwnership` | crates/flexiq-mesh/src/local_deque.rs:95-101 | sorting by the 0/1 key is a stable sort |
| `Deque.LocalDeque.Push` | crates/flexiq-mesh/src/local_deque.rs:38-45 | appends at the back exactly when there is room |
| `Deque.LocalDeque.Pop` | crates/flexiq-mesh/src/local_deque.rs:48-51 | takes from the back |
| `Deque.LocalDeque.Steal` | crates/flexiq-mesh/src/local_deque.rs:54-64 | takes the first min(count, length) jobs from the front, in order |
| `Deque.LocalDeque.PushSorted` | crates/flexiq-mesh/src/local_deque.rs:86-108 | appends exactly the stable partition of the first min(length, room) jobs, and never passes the capacity |
| `Deque.MeshNode.PopLocal` | crates/flexiq-mesh/src/lib.rs:226-232 | counts every pop and keeps the ledger prefetched = popped + stolen + buffered |
| `Deque.MeshNode.Prefetch` | crates/flexiq-mesh/src/lib.rs:237-250 | counts exactly the jobs let in and keeps the ledger |
| `Deque.MeshNode.GiveJobs` | crates/flexiq-mesh/src/lib.rs:317-323 | counts what a thief takes and keeps the ledger |
| `Deque.MeshNode.TrySteal` | crates/flexiq-mesh/src/lib.rs:173-198 | steals only when the buffer is low, and buffers what it gets like any batch |
| `Bridge.BridgeSafe` | crates/flexiq-java/src/mesh.rs:79-117 | in every run with thieves anywhere: jobs received and stolen in are, as multisets, those sent, given, refused, lost, buffered and in hand; at most one is lost; the counters with what is owed to them account for the buffer; the buffer is empty whenever a batch is pushed |
| `Bridge.BridgeOrdered` | crates/flexiq-java/src/mesh.rs:79-117 | every batch is a prefix taken by thieves and a suffix sent by the owner in reverse, and the sent, given and refused logs are the batches' in order |
| `Bridge.OwnedFirst` | crates/flexiq-java/src/mesh.rs:81-106 | whatever thieves do, the owner dispatches a batch's owned jobs before its non-owned ones |
| `Bridge.RefusesIffTooBig` | crates/flexiq-java/src/mesh.rs:100-107 | a run refuses a job exactly when one of its batches exceeds the whole buffer |
| `Bridge.CleanShutdown` | crates/flexiq-java/src/mesh.rs:112-119 | a run that ends with the channel open has sent, given away or refused every job |
| `Base64.DecodeExact` | crates/flexiq-core/src/lease.rs:136-150 | strict unpadded base64url decoding accepts exactly the encodings and undoes them |
| `Lease.EpochExact` | crates/flexiq-core/src/lease.rs:136-150 | a token names an epoch exactly when it is that epoch's token, for all 64-bit signed epochs |
| `Lease.FromWireExact` | crates/flexiq-core/src/lease.rs:170-174 | off the wire exactly the minted tokens are accepted, unchanged |
| `Lease.TokensEqualIffEpochsEqual` | crates/flexiq-core/src/lease.rs:136-174 | two accepted tokens are the same bytes exactly when their epochs are equal |
| `Lease.MintedEpochRoundTrip` | crates/flexiq-core/src/lease.rs:136-174 | a minted token passes the wire and gives its epoch back |
| `Lease.FencesDifferOnAbsence` | crates/flexiq-core/src/lease.rs:93-122 | the strict fence implies the permissive one and they differ exactly where an epoch is absent |
| `Lease.LeaseBook.Issue` | crates/flexiq-core/src/lease.rs:205-207 | the newest lease of a job is the current one |
| `Lease.LeaseBook.Retire` | crates/flexiq-core/src/lease.rs:227-232 | removes an entry only if it is the lease given, and leaves every other job alone |
| `Lease.LeaseBook.Forget` | crates/flexiq-core/src/lease.rs:236-238 | removes the job's entry whatever it is |
| `Fence.OncePerExecutor` | crates/flexiq-core/src/worker/remote.rs:1620-1675 | in every run, each executor's result is applied at most once |
| `Fence.SecondWriteIff` | crates/flexiq-core/src/storage/diesel_common/jobs.rs:1135-1173 | in every run, a write is the second one under the claim last won exactly when the job can be written and its retry count has moved since that claim was won |
| `FenceRuns.TwiceUnderOneClaim` | crates/flexiq-core/src/scheduler/maintenance.rs:167-217 | a run in which one claim ends in two applied results, its executor's failure and the reaper's |
| `Fence.RetireSparesLive` | crates/flexiq-core/src/scheduler/mod.rs:786-809 | in every run, retiring a released dispatch's lease never evicts that of a dispatch still live |
| `Fence.EvictsAnotherIff` | crates/flexiq-core/src/scheduler/result_handler.rs:105-108 | in every run, a result lets another dispatch's lease be retired from the book exactly when that dispatch is live as the result releases the slot, and the result is then one whose claim is no longer the last won |
| `Fence.FencedOnOwnRecord` | crates/flexiq-core/src/storage/diesel_common/steps.rs:60-119 | in every run, a result fenced on its own record against a row that was not put back was the claim in force at its fence |
| `Fence.WriteStaleIff` | crates/flexiq-core/src/scheduler/result_handler.rs:134-167 | in every run, a result past the fence is applied stale exactly when the job can be written and the claim in force has changed since the fence, or its fence took another dispatch's record, met a row put back, or, meeting no record or no row, met another claim in force |
| `Fence.ReportStaleIff` | crates/flexiq-core/src/worker/remote.rs:1117-1125 | in every run, exactly when a report checked and settled without interruption is applied stale: no record, no claim row, a row put back by a superseded dispatch, or a slot freed while its claim stayed in force |
| `Fence.LiveReportsAreCurrent` | crates/flexiq-core/src/lease.rs:26-43 | so a report settled where it is checked, while the job has a live record and a claim row that was not put back, is applied only if it is the claim in force's own |
| `FenceWhole.WholeStepsNeverStale` | crates/flexiq-core/src/lease.rs:14-43 | in every run of whole dispatch, requeue, cancellation, reap, step-commit and report steps with epochs that never repeat: every applied result ends the claim in force, an executor's is its own claim's, no two end the same claim, and the book holds exactly the live dispatch's lease |
| `FenceRuns.OvertakenAppliesStale` | crates/flexiq-core/src/scheduler/result_handler.rs:105-108 | a run in which a result is fenced on the record of the dispatch that overtook it, which also loses its lease |
| `FenceRuns.UnclaimedAppliesStale` | crates/flexiq-core/src/storage/diesel_common/steps.rs:93-116 | a run in which it lands between a dequeue and its claim |
| `FenceRuns.RevivedAppliesStale` | crates/flexiq-core/src/storage/diesel_common/steps.rs:101-114 | a run in which a requeued dispatch commits a step in that gap, which puts its claim row back, so that record, book and row all name it |
| `FenceRuns.PurgedAppliesStale` | crates/flexiq-core/src/storage/diesel_common/locks.rs:142-160 | a run in which the age sweep has dropped the claim of the scheduler that runs the job |
| `FenceRuns.ForgottenAppliesStale` | crates/flexiq-core/src/scheduler/mod.rs:449-458 | a run in which the record that would refuse it was trimmed |
| `FenceRuns.LateWriteAppliesStale` | crates/flexiq-core/src/scheduler/result_handler.rs:149-161 | a run in which the job moves on between the fence and the write |
| `RunningJobs.NoGuardNoEntry` | crates/flexiq-java/src/attached_steps.rs:63-126 | in every interleaving an id without a live guard has no entry, so its step session is refused |
| `RunningJobs.SessionHasGuard` | crates/flexiq-java/src/attached_steps.rs:176-194 | whoever gets a session is an attempt whose guard is alive |
| `RunningJobs.NewestKeepsEntry` | crates/flexiq-java/src/attached_steps.rs:63-126 | a registration at least as new as what it found keeps its entry exactly until its guard drops or an attempt as new is registered |
| `RunningJobs.Registry.Enter` | crates/flexiq-java/src/attached_steps.rs:63-84 | tokens never repeat, and the entry changes exactly when the attempt is at least as new |
| `RunningJobs.Registry.DropGuard` | crates/flexiq-java/src/attached_steps.rs:112-126 | a guard removes its own entry and no other |
| `Dispatcher.ExactlyOneReport` | crates/flexiq-java/src/dispatcher.rs:145-271 | in every run a task has one report once it has reported and none before; it says how that ended, never that its channel was dropped; a completion it reports is its token's first; and its guard is gone |
| `Dispatcher.ReportTellsFirstCompletion` | crates/flexiq-java/src/dispatcher.rs:209-271 | in every run, a report says what its job's first completion was: its bytes, its deadline, its refusal to be retried; a cancellation was one or a failure, a timeout needs a limit, and a job never completed has failed and may be retried |
| `Dispatcher.GuardGoneBeforeSend` | crates/flexiq-java/src/dispatcher.rs:159-174 | the attempt's guard is dropped before its report is sent |
| `Dispatcher.LateCompletionIgnored` | crates/flexiq-java/src/dispatcher.rs:60-64 | once an attempt has timed out or otherwise settled, completing its token changes nothing |
| `Dispatcher.OnlyWaitingBlocks` | crates/flexiq-java/src/dispatcher.rs:186-271 | a task that has not reported can go on, except exactly while it waits without a limit for a completion that has not come |
| `Dispatcher.EveryTaskFinishes` | crates/flexiq-java/src/dispatcher.rs:145-271 | from every reachable state some schedule leaves each task reported or waiting without a limit for a completion that has not come; no schedule takes more steps than the tasks have left, and one leaves them so exactly when no task can step |
| `Dispatcher.Registry.Register` | crates/flexiq-java/src/dispatcher.rs:48-53 | a fresh token becomes pending |
| `Dispatcher.Registry.Forget` | crates/flexiq-java/src/dispatcher.rs:55-57 | the token is no longer pending |
| `Dispatcher.Registry.Complete` | crates/flexiq-java/src/dispatcher.rs:60-64 | a pending token is delivered its outcome once, any other changes nothing |
| `JsonText.QuoteReads` | crates/flexiq-core/src/trace.rs:140-142 | a quoted string reads back as itself under RFC 8259, whatever it contains and whatever follows |
| `JsonExact.ReadsExactly` | crates/flexiq-core/src/trace.rs:80-82 | the reader standing for the JSON library returns a value exactly for the texts that spell it by the grammar of RFC 8259, white space around its tokens included, when its numbers fit a double and it is nested at most 127 deep |
| `JsonSound.ValueSound` | crates/flexiq-core/src/trace.rs:80-82 | what it reads at the front of any text is white space and a spelling of the value it returns |
| `JsonExact.SpellsOneValue` | crates/flexiq-core/src/trace.rs:80-82 | no text spells two values |
| `JsonText.PrintedReadsBack` | crates/flexiq-core/src/trace.rs:80-82 | every value whose numbers are numbers that fit, nested at most 127 deep, has a text it reads back from, the compact one |
| `Trace.ValidIffFields` | crates/flexiq-core/src/trace.rs:108-138 | the check by offsets accepts exactly the values with the fields W3C Trace Context gives a traceparent |
| `Trace.ContextRereads` | crates/flexiq-core/src/trace.rs:50-63 | the values a context carries, read as headers again, make the same context |
| `Trace.BraceFound` | crates/flexiq-core/src/trace.rs:86-88 | the offset found by trimming is the object's opening brace |
| `Trace.MergedReads` | crates/flexiq-core/src/trace.rs:76-100 | an object naming neither key reads, after the merge, as the carrier members followed by its own in order |
| `Trace.MergedSpells` | crates/flexiq-core/src/trace.rs:76-100 | over the grammar of RFC 8259: a text that spells an object naming neither key merges to one that spells the object with the carrier members in front |
| `Trace.BlankMergedReads` | crates/flexiq-core/src/trace.rs:77-79 | absent or blank metadata becomes an object of the carrier members alone |
| `Trace.MergeKeepsText` | crates/flexiq-core/src/trace.rs:86-90 | deleting the spliced run gives the caller's text back |
| `Trace.MergeLeavesAlone` | crates/flexiq-core/src/trace.rs:77-85 | metadata comes back unchanged exactly when it is not blank and is not an object, or is one that already names a carrier key |
| `Trace.MergeIdempotent` | crates/flexiq-core/src/trace.rs:76-91 | for any metadata and any two contexts, a second merge changes nothing |
| `Frame.FrameItems` | crates/flexiq-java/src/ffi_c.rs:92-101 | the loop writes the count and each element behind its 32-bit length |
| `Frame.Unframe` | crates/flexiq-java/src/ffi_c.rs:104-122 | total on every buffer with every index in range, it computes the specified reading or the error of the first short part |
| `Frame.ReadingExact` | crates/flexiq-java/src/ffi_c.rs:92-122 | a buffer reads as items exactly when they fit their words and their framing starts the buffer |
| `Frame.RoundTrip` | crates/flexiq-java/src/ffi_c.rs:92-122 | framing then reading gives the items back exactly when the count and every length fit 32 bits |
| `Frame.LongElementIsCut` | crates/flexiq-java/src/ffi_c.rs:92-122 | one element, however long, reads back as its first bytes, as many as its length modulo 2^32 |
| `Keys.PrefixMatchesOwnKeysOnly` | crates/flexiq-core/src/overrides.rs:39-49 | a prefix matches a key exactly when scope and namespace are the key's, whatever colons the names contain |
| `Keys.OverrideKeyInjective` | crates/flexiq-core/src/overrides.rs:39-49 | keys are equal exactly when scope, namespace and name are |
| `Keys.SaltedKeyInjective` | crates/flexiq-core/src/pubsub.rs:142-148 | for one idempotency key the salted key is injective in topic and subscription |
| `Keys.KeysCollideIff` | crates/flexiq-core/src/pubsub.rs:139-148 | two different idempotency keys can share a salted key exactly when one goes on after the other as a salt would: two colons, two decimal lengths, and at least five bytes fewer than they announce |
| `Keys.SaltedKeyDetermines` | crates/flexiq-core/src/pubsub.rs:139-148 | so when neither key followed by two colons starts the other, salted keys are equal exactly when key, topic and subscription are |
| `Keys.KeysCanCollide` | crates/flexiq-core/src/pubsub.rs:139-148 | two publishes to different topics that share a salted key |
| `PubSub.FanOutDelivers` | crates/flexiq-core/src/pubsub.rs:123-127 | every delivery is some fan-out subscription's own job |
| `PubSub.FanOutReachesAll` | crates/flexiq-core/src/pubsub.rs:123-127 | every fan-out subscription gets its delivery |
| `PubSub.FanOutDistinct` | crates/flexiq-core/src/pubsub.rs:123-186 | a keyed fan-out over distinct subscriptions has pairwise distinct unique keys |
| `PubSub.PublishOnce` | crates/flexiq-core/src/pubsub.rs:86-137 | a keyed publish with unused keys creates one job per fan-out subscriber, and any later publish under the same key and topic, whatever its payload and settings, creates none while those jobs are active and returns them |
| `PubSub.PublishesApart` | crates/flexiq-core/src/pubsub.rs:123-137 | a keyed publish never takes a delivery from another on a different topic under the same key, or under a key that cannot share a salted key with its own |
| `PubSub.Store.EnqueueUniqueBatch` | crates/flexiq-core/src/storage/diesel_common/jobs.rs:618-663 | the batch is inserted with every active key yielding to the job that holds it |
| `PubSub.Store.PublishToTopic` | crates/flexiq-core/src/pubsub.rs:89-137 | a message is stored exactly for a log subscriber or a declared log topic, expiring as the call says, or by the topic's retention exactly when nobody reads it and the call says nothing; the fan-out is inserted, deduplicated exactly when it is keyed |

## Left out

- Wire.EncodeCall: how the CBOR library turns a Go value into an item is not modelled; a value enters as the definite-length item it is marshalled to, or as unencodable.
- Wire.CallRoundTrip: only payloads this client writes; decoding of indefinite-length items, the library's limits on nesting and element counts, and its checks of tagged content are not modelled.
- Wire.CallRoundTrip: a key of a nested map decodes exactly when it is untagged text; the library may also take null or tagged text for a Go string key, so the refusing half is exact for the modelled decoder only.
- FloatWidth.FloatWidener.Item: the input, which is only read, and the output, which only grows, are sequences and not arrays, so sharing of their storage is not captured.
- `DecodeCallInto`, `EncodeResult` and `DecodeResult`: the first is `SplitRoundTrip` followed by the library's decoding into caller types, which is not modelled, and the other two are the envelope without its array.
- MeshThreads.NoStrandedMember: lock poisoning and lock fairness are not modelled; a thread that may take a lock may also wait longer.
- MeshState.MeshView.UpsertMember: gossip payload fields, incarnation ordering and timestamps; the code carries them and decides nothing by them.
- Bridge.BridgeSafe: the loop is a machine of program points and not a method, because thieves act between any two of its statements; the ring is taken not to change during one sort of a batch; a thief's counter update may be split into parts, which only adds runs.
- `adaptive_prefetch_size`, `should_prefetch`, the steal transport and SWIM gossip: sizing arithmetic and network protocols.
- Fence.WriteStaleIff: a rollback is one step; a queued step write may land any number of times, which only adds runs; the fence failing open on a storage error, results without a lease, claims without an epoch, namespaces and sleeping jobs are not modelled; other schedulers are represented only by what they do to the job's rows, their reapers as if they held no record.
- RunningJobs.SessionHasGuard: the step session opened afterwards, with its store and limits, is not modelled.
- Dispatcher.ExactlyOneReport: wall-clock times, panics and the death of the registry; a task always registers a running-job guard, as the attached executor's tasks do.
- JsonExact.ReadsExactly: numbers are kept as their text, and which of them overflow a double is a parameter.
- Trace.MergedReads: members are an ordered list; that a Rust map keeps the last of two equal names does not matter to the merge and is not modelled.
- Frame.Unframe: memory exhaustion when a large count reserves space, and the overflow checks that a 64-bit index cannot trigger.
- `delivery_notes` and the notes, metadata, schedule and expiry fields copied into each delivery: copies without a decision.
- Keys.KeysCollideIff: names are any bytes, and the colliding ones need not be UTF-8.
- JNI, napi and Panama marshalling, gRPC, TLS, the command line, dashboards, migrations, retention sweeps and storage backends other than the rows the fence reads.
