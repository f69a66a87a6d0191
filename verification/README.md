# A model of the HRX runtime and the HIP buffer tracer

This project models the stateful core of `crates/hrx-libhrx` (streams, handles, buffers, pools, accelerator
start-up and shutdown, direct queue operations), the RAII wrappers of `crates/iree-hal` that it rests on, and
`crates/hip-buffer-tracer`, and proves what their designs promise. `dafny verify dfyconfig.toml` checks
everything.

## What is modelled

**Streams (`Timeline`, `Chain`, `Refinement`, `Liveness`, `Schedule`, `WaitOn`, `Orphan`, `Gate`, `CrossStream`,
`CommandBuffers`, `Failures`, `Fences`, `StreamObject`, `Host`, `Callable`).** A stream batches recorded operations into one command buffer and submits it to a device
queue, chained through a timeline semaphore. `Timeline` is one state machine for any number of streams: host
calls and device steps interleave freely, every HAL status is part of the action, and the device may run any
command of any submission whose waits are met, subject only to the fences recorded in its command buffer. A run
is a sequence of actions from `START`; the theorems are about every run. `StreamObject` is the stream as the
source has it, an object with mutable fields, each method proved equal to its step of the machine; `Host` drives
any number of such objects and is proved equal to the run of the machine that the calls' own steps make; `Callable` shows that
such calls reach every state the machine reaches.

**Ownership (`Ownership`, `Objects`, `Teardown`, `Coverage`, `PerCall`, `Handles`).** Every handle object and every HAL object is a node
with a count; dropping the last reference drops the fields in declaration order, recursively. `Objects` gives the
field layouts and every legal call sequence (an exact pool is listed at its place in the one buffer that owns it:
notification, its own allocator reference, memory); `Teardown` states by kind what
each object owns and in which order its parts die; `Coverage` says which releases are legal; `PerCall` is the accounting that the owned model replaced, with an
arbitrary choice of which fields fan out; `Handles` is the handle boundary, updated in place.

**Buffers, pools and ladders (`BufferMap`, `Pool`, `QueueOps`, `Ladders`).** The mapping state of a buffer over
its life, the exact pool, direct queue operations and host calls, and the constructors' error ladders, each
against a ledger of references.

**Runtime (`Runtime`).** The shared-state counter, both accelerators' initialize and shutdown with all failure
paths, and GPU enumeration.

**Tracer (`Fnv`, `BufferTable`, `HexDump`).** The hash, the slot table and the dump.

## Assumptions

- A `queue_execute`, `queue_barrier`, `queue_alloca` or `queue_host_call` that returns an error submitted nothing.
- A semaphore wait that succeeds found the value reached; it may fail either way. The device may do anything it is allowed to meanwhile.
- Timepoints stay below 2^64 and handle counts below the width of their counters; integers are unbounded.
- Streams, buffers and the pool are used from one thread at a time, as the source states; the runtime's globals
  are under one lock.
- Clients release only references they own.
- HAL calls and C library calls are contracts; which of them fail is a parameter (`script`, outcomes, statuses).

## Where the code does less than one might expect

- `wait_on` waits only on the given point. `WaitOn.WaitOnExact` gives the exact condition under which a stream
  stays in order across the call, for every point.
- A second `wait_on` can undo the first: work submitted after it may run although the first point was never
  reached (`Gate.SecondWaitForgets`). `Gate.WaitOnGates` states what holds until then, `Gate.SecondWaitDecides`
  exactly when the first promise outlives the second call, for every second point.
- An operation whose ordering barrier fails is left in the command buffer although its call returned an error;
  it still executes (`Failures.UnfencedOpRuns`). `Fences.FencesExact` gives the exact condition.
- If the wait inside `hrx_buffer_allocate` fails, the timepoint stays behind a submission that will signal the
  next value (`Failures.FailedAllocWaitBreaksChain`). `Failures.AllocEndExact` and `Failures.FailedAllocExact` give
  the exact conditions; a caller loses either order or the meaning of a synchronize.
- `advance_timeline` names a value that nobody signals (`Orphan.AdvanceOrphans`).
- The slot table keeps a stale entry when a tracked pointer is issued again (`BufferTable.ReissueLeaves`) and drops
  a pointer issued when it is full (`BufferTable.FullDrops`); `BufferTable.AddExact` and `BufferTable.RunIsMap` give
  the exact conditions.
- A dump limit of 0 reads the whole buffer and prints no byte of it; the hash line then covers all of it.

## Model

| member | source | states |
|---|---|---|
| `Timeline.StepMonotone` | crates/hrx-libhrx/src/stream.rs:104-145 | no step lowers a semaphore, a timepoint or the number of submissions, so a reached point stays reached |
| `Timeline.HostTasks` | crates/hrx-libhrx/src/stream.rs:104-145 | a host call makes at most one submission, signalling its stream's next value and waiting on its own timepoint, or for `wait_on` on the given point only |
| `Timeline.ReachableWellFormed` | crates/hrx-libhrx/src/stream.rs:35-48 | in every run each stream has a semaphore of its own, each submission belongs to a stream and signals its semaphore, nothing ran or finished before its waits were met, and what finished ran completely |
| `Chain.StepKeepsChain` | crates/hrx-libhrx/src/stream.rs:104-145 | every step that stays on the chain keeps it: the k-th submission signals k, has finished exactly when the semaphore reached k, and has started only if it is the next one |
| `Chain.ReachableChained` | crates/hrx-libhrx/src/stream.rs:104-145 | the chain holds in every state of every orderly run, for every stream |
| `Chain.SignalsExact` | crates/hrx-libhrx/src/stream.rs:113-131 | the values signalled on the semaphore are exactly 1 to the timepoint, each by exactly one submission |
| `Chain.ReachableLinked` | crates/hrx-libhrx/src/stream.rs:113-131 | without `wait_on`, the first submission waits on nothing and the k-th on exactly k-1 |
| `Chain.OrderlyRunsInOrder` | crates/hrx-libhrx/src/stream.rs:104-145 | whatever order the device picks, submissions of a stream execute in submission order, and one after an orderly `wait_on` starts only once the awaited point is reached (from any state: `Gate.WaitOnGates`) |
| `Refinement.StepKeepsPipeline` | crates/hrx-libhrx/src/stream.rs:402-597 | every step keeps: accepted operations = submitted ones followed by pending ones, and executed operations = what the submissions ran, each in recorded order |
| `Refinement.SynchronizeReturns` | crates/hrx-libhrx/src/stream.rs:243-253 | a flush, any device steps and a returning wait lead to a synchronized stream |
| `Refinement.SynchronizedAllRan` | crates/hrx-libhrx/src/stream.rs:243-286 | when a synchronize succeeds every submission of the stream has run completely |
| `Refinement.SynchronizeExecutesAll` | crates/hrx-libhrx/src/stream.rs:243-286 | after a successful synchronize the operations executed for the stream are exactly those whose calls succeeded, in program order, beside any other streams |
| `Refinement.AsyncRefinesEager` | crates/hrx-libhrx/src/stream.rs:58-146 | refinement: for any meaning of the operations and any device schedule, memory after a successful synchronize equals that of executing each accepted operation inside its call |
| `WaitOn.BarrierOvertakes` | crates/hrx-libhrx/src/stream.rs:366-396 | from any stream that is not idle, and for any point, reached or not, that is not behind the stream's own work, a continuation exists in which the barrier signals past unfinished work: order is lost and a wait on the stream returns too early |
| `WaitOn.IdleKeepsOrder` | crates/hrx-libhrx/src/stream.rs:353-397 | from an idle stream order survives, whatever the device does, whatever others signal and whatever is awaited |
| `WaitOn.WaitOnExact` | crates/hrx-libhrx/src/stream.rs:353-397 | for every point: order survives every continuation of device steps and foreign signals if and only if nothing was pending and the semaphore equalled the timepoint, or the point is on the stream's own semaphore at the timepoint or later, or below it behind a submission that waits for its own future |
| `WaitOn.WaitOnForeignExact` | crates/hrx-libhrx/src/stream.rs:353-397 | for a point of another semaphore, reached or not, order survives if and only if the stream was idle at the call |
| `WaitOn.BehindKeepsOrder` | crates/hrx-libhrx/src/stream.rs:353-397 | a barrier on the stream's own timepoint, a later value, or a value behind a blocked submission keeps order from a stream that is not idle |
| `Schedule.DriveTo` | crates/hrx-libhrx/src/stream.rs:104-145 | device steps and foreign signals can take a stream's chain to any value up to its top that no submission waiting for its own future guards |
| `Schedule.DriveClear` | crates/hrx-libhrx/src/stream.rs:104-145 | the same while a given point stays unreached, unless an unfinished submission up to that value waits for its own future, or for that point or a later one |
| `Gate.WaitOnGates` | crates/hrx-libhrx/src/stream.rs:366-396 | from every state of every run without outside signals, idle or not: until the stream's next `wait_on`, its later submissions begin, and a wait on it returns, only once the awaited point was reached |
| `Gate.SecondWaitDecides` | crates/hrx-libhrx/src/stream.rs:353-397 | after any orderly run, `wait_on(p)` and anything but a further `wait_on` of the stream, for every point q: the promise about p outlives `wait_on(q)` if and only if p is reached, or reaching q reaches p, or q is on the own semaphore at the first barrier's value or later, or p is on it no later than the second barrier's value, or q is an own value not yet reached and an unfinished submission up to it waits for its own future, or for p or a later value |
| `Gate.SecondWaitExact` | crates/hrx-libhrx/src/stream.rs:366-396 | the same condition from any state in which the first promise stands, orderly or not; only where q is an unreached own value before the first barrier must the submissions before that barrier form the chain |
| `Gate.BehindOutlives` | crates/hrx-libhrx/src/stream.rs:366-396 | a second point behind a submission that waits for its own future, or for p or a later value, keeps the first promise in every continuation |
| `Gate.ReachPast` | crates/hrx-libhrx/src/stream.rs:366-396 | with no such submission, a continuation reaches the earlier own position q and leaves p unreached |
| `Gate.EarlyEscapes` | crates/hrx-libhrx/src/stream.rs:366-396 | whenever any continuation reaches q and not p, an operation submitted after the second `wait_on` can run with p unreached |
| `Gate.SecondWaitForgets` | crates/hrx-libhrx/src/stream.rs:366-396 | a concrete run from the start in which an operation executes although the point awaited before it was never reached |
| `CrossStream.WaitedWorkDone` | crates/hrx-libhrx/src/stream.rs:319-397 | whenever work that a stream submitted after `wait_on` of another stream's position can take a device step, the other stream's submissions up to that position have finished, and its first executed operations are exactly theirs, in program order |
| `CrossStream.CrossStreamOrder` | crates/hrx-libhrx/src/stream.rs:319-397 | order across streams: in the device's log every operation of the awaited stream up to the position comes before every operation the waiting stream submitted after the `wait_on` and before its next one |
| `Liveness.EarliestRunnable` | crates/hrx-libhrx/src/stream.rs:104-145 | the earliest unfinished submission can always take a device step |
| `Liveness.DeviceStepDecreases` | crates/hrx-libhrx/src/stream.rs:104-145 | every device step does exactly one unit of the work left |
| `Liveness.ReachableLive` | crates/hrx-libhrx/src/stream.rs:319-333 | if awaited points come from `get_timeline_position` and nobody advances a timeline by hand, every wait, and every value a stream may block on (its timepoint, or the value its allocation will signal), is backed by an earlier submission |
| `Liveness.NoDeadlock` | crates/hrx-libhrx/src/stream.rs:353-397 | over any number of streams: a device that cannot move has drained its queue and every blocking wait returns, that inside an allocation included; no device schedule outlasts the work left; and a draining schedule exists |
| `Orphan.AdvanceOrphans` | crates/hrx-libhrx/src/stream.rs:336-350 | after `advance_timeline`, in every continuation without an outside signal or a later `wait_on`, the semaphore stays below the new timepoint, no wait on the stream can return, and nothing it submits ever executes |
| `CommandBuffers.StepBalanced` | crates/hrx-libhrx/src/stream.rs:58-82 | every step keeps: a created command buffer is released once or installed once, never both |
| `CommandBuffers.ReleasedExactlyOnce` | crates/hrx-libhrx/src/stream.rs:104-170 | under any pattern of failures a command buffer is released exactly once, when no stream holds it any more; a dropped stream holds none |
| `Failures.ReachableCounted` | crates/hrx-libhrx/src/stream.rs:402-597 | in every run operations entered = operations reported successful + operations left without their barrier |
| `Fences.FencesExact` | crates/hrx-libhrx/src/stream.rs:430-437 | in every synchronized state of every orderly run the device executed exactly the operations whose calls succeeded, in program order, if and only if every operation that failed at its ordering barrier still sits in the installed command buffer; with none installed, if and only if no call failed there |
| `Failures.UnfencedOpRuns` | crates/hrx-libhrx/src/stream.rs:430-437 | a concrete run in which an operation reported as failed executes, after its successor |
| `Failures.FailedAllocWaitBreaksChain` | crates/hrx-libhrx/src/buffer.rs:684-695 | after a failed wait the chain is broken, and the next submission signals the same value again and waits for no more |
| `Failures.AllocEndExact` | crates/hrx-libhrx/src/buffer.rs:684-695 | the end of an allocation keeps the chain if and only if its wait succeeded |
| `Failures.FailedAllocSynchronizesEarly` | crates/hrx-libhrx/src/buffer.rs:684-695 | if the allocation had signalled, the next recorded and flushed operation leaves the stream synchronized although it has not run |
| `Failures.FailedAllocOvertakes` | crates/hrx-libhrx/src/buffer.rs:684-695 | if it had not, the device can run the next submission before the allocation: order is lost |
| `Failures.FailedAllocExact` | crates/hrx-libhrx/src/buffer.rs:684-695 | after a failed wait order survives the next submission if and only if the allocation had signalled, or the timepoint can never be reached |
| `StreamObject.ProgressIsRun` | crates/hrx-libhrx/src/stream.rs:243-286 | what the device does during a blocking wait is a run of device steps of the machine |
| `StreamObject.ProgressNext` | crates/hrx-libhrx/src/stream.rs:243-264 | during a wait the device makes every proposed step that is possible in its turn, and no other |
| `StreamObject.HrxStream.BeginCb` | crates/hrx-libhrx/src/stream.rs:58-82 | equals the machine's step: at most one command buffer, created once, released if begin fails; other streams' command buffers are untouched |
| `StreamObject.HrxStream.Record` | crates/hrx-libhrx/src/stream.rs:402-440 | equals the machine's recording step under every outcome: what the command buffer gains is the operation and its barrier, or the operation alone if the barrier failed, or nothing; work is pending exactly if it was or the call succeeded; other streams' command buffers are untouched |
| `StreamObject.HrxStream.ExecutionBarrier` | crates/hrx-libhrx/src/stream.rs:511-539 | equals the machine's barrier step: exactly on success the command buffer gains a barrier and work is pending; other streams' command buffers are untouched |
| `StreamObject.HrxStream.FlushInner` | crates/hrx-libhrx/src/stream.rs:104-145 | succeeds exactly if nothing was pending or the submission went through; with nothing pending or on failure nothing changes; otherwise one submission of what was recorded, wait list empty at 0, signal and timepoint at the next value, command buffer released; other streams' command buffers are untouched |
| `StreamObject.HrxStream.WaitOn` | crates/hrx-libhrx/src/stream.rs:353-397 | succeeds exactly if the flush did and the barrier was submitted; then the last submission is a barrier on the given point alone that signals the new timepoint; otherwise the flush alone happened; other streams' command buffers are untouched |
| `StreamObject.HrxStream.AdvanceTimeline` | crates/hrx-libhrx/src/stream.rs:336-350 | the timepoint moves by one and nothing is submitted |
| `StreamObject.HrxStream.Synchronize` | crates/hrx-libhrx/src/stream.rs:243-253 | succeeds exactly if the flush did and the timepoint is 0, or the wait was healthy and the semaphore reached the timepoint; other streams' command buffers are untouched |
| `StreamObject.HrxStream.Wait` | crates/hrx-libhrx/src/stream.rs:255-264 | returns success exactly if nothing was ever submitted, or the wait was healthy and the semaphore reached the timepoint; changes nothing but what the device did |
| `StreamObject.HrxStream.Query` | crates/hrx-libhrx/src/stream.rs:267-286 | complete exactly if nothing was ever submitted or the semaphore reached the timepoint |
| `StreamObject.HrxStream.Allocate` | crates/hrx-libhrx/src/buffer.rs:646-695 | succeeds exactly if the flush did, the allocation was submitted, the wait was healthy and the semaphore reached the value after the timepoint; the timepoint moves to it exactly then; other streams' command buffers are untouched |
| `StreamObject.HrxStream.Drop` | crates/hrx-libhrx/src/stream.rs:148-170 | pending work is flushed, the timepoint after it is awaited whatever the flush reported, and a command buffer that is left over is released; other streams' command buffers are untouched |
| `Host.Drive` | crates/hrx-libhrx/src/stream.rs:58-597 | any sequence of calls on any number of stream objects of one device, under any outcomes and device work, leaves them in exactly the state the machine reaches from the start by the steps of these calls |
| `Host.Host.Perform` | crates/hrx-libhrx/src/stream.rs:192-597 | one call on one of several stream objects adds exactly its own steps to the run (a synchronize: flush, the device's steps, the wait if it succeeded; an allocation: flush, submission, the device's steps, the end of its wait; none if the call is impossible) and keeps every object equal to the machine's stream |
| `Host.Host.Allocate` | crates/hrx-libhrx/src/buffer.rs:646-695 | one allocation among several stream objects: its exact steps in the run, when it succeeds, and the timepoint it leaves |
| `Callable.EveryRunCallable` | crates/hrx-libhrx/src/stream.rs:58-597 | the other direction: every state the machine reaches (with only the device at work inside an allocation) is reached by calls on the objects |
| `Callable.SynchronizeIsFlushAndWait` | crates/hrx-libhrx/src/stream.rs:243-264 | the steps of a synchronize are those of a flush and, exactly if that succeeds, of a wait |
| `Callable.WaitOnIsFlushAndBarrier` | crates/hrx-libhrx/src/stream.rs:353-397 | the steps of a `wait_on` are those of a flush and, exactly if that succeeds and the barrier is submitted, the barrier |
| `Callable.AllocateIsFlushAndAlloc` | crates/hrx-libhrx/src/buffer.rs:646-695 | the steps of an allocation are those of a flush and, exactly if that succeeds and it is submitted, of the allocation of an idle stream |
| `Callable.DropIsFlushWaitEnd` | crates/hrx-libhrx/src/stream.rs:148-170 | the steps of the last release are those of a flush, of a wait whose status is dropped, and the end of the stream |
| `Host.Host.SynchronizedObject` | crates/hrx-libhrx/src/stream.rs:243-286 | a theorem about runs read on the objects: a synchronized stream object's operations were executed exactly, in program order |
| `Ownership.ReleaseGood` | crates/hrx-libhrx/src/handle.rs:51-60 | a cascading release keeps: counts explained, the dead logged once each, owners dead before what they own, a HAL object at home in an earlier field dead before later fields |
| `Ownership.ReleaseComplete` | crates/hrx-libhrx/src/handle.rs:51-60 | every object that dies in a release has dropped all its fields when it returns |
| `Objects.StepSound` | crates/hrx-libhrx/src/handle.rs:21-84 | every legal call, virtual-memory release and pools that share their device's allocator included, keeps the accounting and the teardown order |
| `Objects.CountsExact` | crates/hrx-libhrx/src/device.rs:65-86 | in every reachable world each count = client references + table entries + fields of live objects that hold it; a live stream-allocated buffer's pool counts for one allocator reference |
| `Objects.NothingLeft` | crates/hrx-libhrx/src/runtime.rs:386-408 | once clients hold nothing and the tables are empty, every object and HAL object ever created has died, each exactly once |
| `Objects.TeardownOrder` | crates/hrx-libhrx/src/device.rs:46-55 | in every run an object's HAL objects die in field order, before its device and before what that device owns (which kinds these are: `Teardown.TeardownByKind`; the allocator a pool shares with the device: `Objects.AllocatorOutlivesPools`) |
| `Teardown.OwnsByKind` | crates/hrx-libhrx/src/buffer.rs:70-84 | in every reachable world each object owns exactly the kinds its declaration lists, in drop order |
| `Teardown.TeardownByKind` | crates/hrx-libhrx/src/executable.rs:22-35 | in every run, by kind: every HAL object of a handle object dies before the device beside it and what that device owns; an executable before its cache; a context before the HAL module before the bytecode module; a HAL buffer before its pool; a device's allocator before its group before the HAL device |
| `Teardown.OutsideExact` | crates/hrx-libhrx/src/handle.rs:41-60 | over every call sequence the references outside the objects are exactly those the calls created and retained less those moved into objects and released; a table entry stands for each registration not shut down |
| `Objects.AllocatorOutlivesPools` | crates/hrx-libhrx/src/pool.rs:138-143 | in every run the allocator dies only after every pool that holds a reference to it: buffer, notification, pool memory, device, allocator, in that order |
| `Objects.LiveHoldsAll` | crates/hrx-libhrx/src/buffer.rs:70-84 | while an object lives, its HAL objects, its device and the device's allocator, group and HAL device live |
| `Coverage.ReleaseLegal` | crates/hrx-libhrx/src/buffer.rs:106-115 | in every reachable world a client may give back a reference to a handle object if and only if it owns one; to a device, if and only if it owns more than came with its allocator references |
| `Coverage.HoldThenRelease` | crates/hrx-libhrx/src/buffer.rs:106-177 | from every world with a stream-allocated buffer held once: retain the allocator, release the buffer; both are legal, the buffer dies and the allocator lives on |
| `Coverage.BufferDiesUnderHeldAllocator` | crates/hrx-libhrx/src/buffer.rs:106-177 | a legal run from nothing in which a stream-allocated buffer dies while a client holds its allocator |
| `PerCall.StepExplained` | crates/hrx-libhrx/src/buffer.rs:164-177 | under per-call accounting every count = outside references + what the objects put on it, after every legal call |
| `PerCall.SameDeaths` | crates/hrx-libhrx/src/device.rs:205-218 | simulation: after every legal call sequence a node is dead in the owned model exactly when it is dead under per-call accounting, whichever fields fan out |
| `Handles.Registry.IntoHandle` | crates/hrx-libhrx/src/handle.rs:21-29 | a new handle with one strong reference, built from references the caller owned, which move into its fields; every invariant is kept |
| `Handles.Registry.Retain` | crates/hrx-libhrx/src/handle.rs:41-48 | one more strong reference and nothing else; every invariant is kept |
| `Handles.Registry.Release` | crates/hrx-libhrx/src/handle.rs:51-60 | in place, exactly the cascading release of the ownership model, of a reference the caller owned; every invariant is kept |
| `Handles.Registry.IntoInner` | crates/hrx-libhrx/src/handle.rs:80-84 | the object comes back with its fields intact exactly when the reference was the last, its fields' references still accounted to it; otherwise only the caller's reference goes; every invariant is kept either way |
| `Handles.Registry.DropField` | crates/hrx-libhrx/src/buffer.rs:495-503 | the owner of a taken-apart object drops its next field, a cascading release; every invariant is kept, so other calls may come in between |
| `Handles.Registry.TakeApart` | crates/hrx-libhrx/src/buffer.rs:486-505 | taking the object apart and dropping its fields in order is in the end what a release is; with other owners only the caller's reference goes |
| `Handles.IntoInnerGood` | crates/hrx-libhrx/src/handle.rs:80-84 | taking an object apart keeps the accounting and the order of deaths: its fields' references pass to the caller |
| `BufferMap.HrxBuffer.Map` | crates/hrx-libhrx/src/buffer.rs:180-229 | maps only an unmapped buffer; refused or failed calls change nothing |
| `BufferMap.HrxBuffer.Unmap` | crates/hrx-libhrx/src/buffer.rs:232-246 | undoes the mapping once, whatever the HAL reports; a no-op when unmapped |
| `BufferMap.HrxBuffer.GetDevicePtr` | crates/hrx-libhrx/src/buffer.rs:249-286 | returns the pointer of the current mapping, mapping the whole buffer first if there is none |
| `BufferMap.HrxBuffer.ReleaseHandle` | crates/hrx-libhrx/src/buffer.rs:169-177 | one reference less; only the last release unmaps and releases the HAL buffer, the pool, the device, in that order |
| `BufferMap.HrxBuffer.VirtualMemoryRelease` | crates/hrx-libhrx/src/buffer.rs:486-505 | the HAL buffer goes to the allocator instead of being released, before the device reference |
| `BufferMap.LifeFollows` | crates/hrx-libhrx/src/buffer.rs:54-84 | the HAL calls of every life are accepted by the mapping protocol, an automaton that allows one mapping, one consumption, pool and device last |
| `BufferMap.LifeCounts` | crates/hrx-libhrx/src/handle.rs:41-60 | over every life the count is 1 + retains - releases, so the buffer is dead exactly when the last reference was given back |
| `BufferMap.LifeEnds` | crates/hrx-libhrx/src/buffer.rs:54-84 | a dead buffer died in the call that gave back its only reference, with exactly these HAL calls: unmap if mapped, release, pool if any, device; a virtual-memory release, and only it, hands the HAL buffer over instead |
| `BufferMap.MapsBalance` | crates/hrx-libhrx/src/buffer.rs:54-68 | in every life maps = unmaps + the live mapping; at the end they are equal and the HAL buffer was consumed exactly once |
| `BufferMap.TeardownInOrder` | crates/hrx-libhrx/src/buffer.rs:70-84 | in a log the protocol accepts, the HAL buffer is consumed unmapped, pool and device go after it, and nothing follows the device |
| `Pool.ExactPool.AcquireReservation` | crates/hrx-libhrx/src/pool.rs:145-170 | a fresh buffer with one reference, owned by the reservation; nothing on failure |
| `Pool.ExactPool.ReleaseReservation` | crates/hrx-libhrx/src/pool.rs:172-183 | gives up the reservation's reference and signals once; the buffer is freed exactly if no materialized reference is left |
| `Pool.ExactPool.MaterializeReservation` | crates/hrx-libhrx/src/pool.rs:185-206 | hands out the reservation's own reference if transferred, else a new one; mismatched parameters or an empty reservation are refused and change nothing |
| `Pool.Replay` | crates/hrx-libhrx/src/pool.rs:145-206 | over every call sequence clients hold exactly what the calls gave them, a buffer's count = its open reservation + its materialized references, and once none is left every buffer was freed exactly once |
| `QueueOps.Queue.ToSemaphoreList` | crates/hrx-libhrx/src/queue_ops.rs:56-75 | the arrays hold the client's semaphores and values in order |
| `QueueOps.Queue.Transfer` | crates/hrx-libhrx/src/queue_ops.rs:78-194 | succeeds exactly if its five steps do; whichever fails, the command buffer created is released exactly once and none is left; exactly on success one submission with the client's waits and signals is queued |
| `QueueOps.Queue.QueueHostCall` | crates/hrx-libhrx/src/queue_ops.rs:242-291 | on success the thunk is queued with its callback, on failure it is freed; each status exactly when its step fails |
| `QueueOps.Queue.Trampoline` | crates/hrx-libhrx/src/queue_ops.rs:230-239 | runs the queued callback on its data and frees the thunk |
| `QueueOps.Drive` | crates/hrx-libhrx/src/queue_ops.rs:78-291 | over any interleaving and any failures every command buffer created was released exactly once, and once the queue is empty every thunk was freed exactly once; if no step fails, what was submitted and run is what the events say |
| `QueueOps.RunOnce` | crates/hrx-libhrx/src/queue_ops.rs:230-291 | every host call issued is waiting or was run, once |
| `Ladders.Ledger.StreamCreate` | crates/hrx-libhrx/src/stream.rs:192-222 | the stream's and its semaphore's references exactly if the semaphore was created, or the ledger as before |
| `Ladders.Ledger.SemaphoreCreate` | crates/hrx-libhrx/src/semaphore.rs:60-84 | the HAL semaphore and a device reference, or the ledger as before |
| `Ladders.Ledger.ExecutableLoadData` | crates/hrx-libhrx/src/executable.rs:74-126 | executable, cache and device reference, or the ledger as before; succeeds exactly for non-empty data with a format if both creations succeed |
| `Ladders.Ledger.ExecutableLoadFile` | crates/hrx-libhrx/src/executable.rs:228-276 | the same, with the file closed and its contents freed on every path; succeeds exactly if all six fallible steps do and the whole file was read |
| `Ladders.Ledger.ModuleLoadVmfb` | crates/hrx-libhrx/src/module.rs:81-167 | context, both modules and device reference, or the ledger as before; the group reference is always given back; each status exactly under its condition |
| `Ladders.Ledger.ExactPoolCreate` | crates/hrx-libhrx/src/pool.rs:233-278 | pool memory, allocator reference and notification, or the ledger as before; each status exactly under its condition |
| `Ladders.Ledger.PoolDestroy` | crates/hrx-libhrx/src/pool.rs:138-143 | undoes a creation exactly |
| `Ladders.Ledger.BufferAllocate` | crates/hrx-libhrx/src/buffer.rs:610-705 | HAL buffer, pool and device reference exactly if all six fallible steps succeed on valid arguments; otherwise the ledger as before |
| `Ladders.ConstructAll` | crates/hrx-libhrx/src/module.rs:81-167 | over any sequence of constructors and any failures the ledger is exactly what the constructed objects own; only possible constructions succeed, and all of them do if no step fails |
| `Runtime.Globals.EnsureSharedState` | crates/hrx-libhrx/src/runtime.rs:128-172 | counts one more user, creating the shared objects for the first; fails exactly if one of the three creations does, and then changes neither counter nor ledger |
| `Runtime.Globals.ReleaseSharedState` | crates/hrx-libhrx/src/runtime.rs:174-193 | the shared objects go exactly when the last user does |
| `Runtime.Globals.CreateSingleDeviceGroup` | crates/hrx-libhrx/src/runtime.rs:197-217 | the group, or nothing; the tracker is never left |
| `Runtime.Globals.CreateLocalTaskDriver` | crates/hrx-libhrx/src/runtime.rs:221-300 | the driver, or nothing, for any number of loaders; succeeds exactly if its four creations do |
| `Runtime.Globals.CreateLocalTaskDevice` | crates/hrx-libhrx/src/runtime.rs:221-317 | driver and device, or nothing; succeeds exactly if all five creations do |
| `Runtime.Globals.DropAll` | crates/hrx-libhrx/src/runtime.rs:393-397 | of the listed devices those nobody borrowed die and the others live on |
| `Runtime.Globals.CpuInitialize` | crates/hrx-libhrx/src/runtime.rs:325-383 | one device exactly if it was not initialized and no HAL call fails; otherwise ledger, accelerator, devices and counter as before |
| `Runtime.Globals.OpenDevices` | crates/hrx-libhrx/src/runtime.rs:567-629 | the loop opens the first `count` physical devices exactly if no call of theirs fails, or, failing at any of them, releases all before it |
| `Runtime.Globals.GpuInitialize` | crates/hrx-libhrx/src/runtime.rs:491-638 | succeeds exactly if not yet initialized, the registration code is 0 or 6, there is a physical device and no HAL call for the first 64 fails, and then enumerates as promised; otherwise ledger, accelerator, devices and counter as before |
| `Runtime.PhysicalExact` | crates/hrx-libhrx/src/runtime.rs:546-553 | the selection is exactly the infos with a non-empty path, in order |
| `Runtime.EnumeratesFirst` | crates/hrx-libhrx/src/runtime.rs:546-635 | for an info array of any length: an info has a device exactly when its path is non-empty and fewer than 64 such infos precede it, and its ordinal is their number |
| `Runtime.Globals.Shutdown` | crates/hrx-libhrx/src/runtime.rs:386-408 | refused when not initialized; otherwise exactly the unborrowed devices of that accelerator die |
| `Runtime.Globals.DeviceRelease` | crates/hrx-libhrx/src/device.rs:211-218 | a borrowed device outlives its accelerator and dies with the last borrowed reference |
| `Runtime.Globals.NothingHeld` | crates/hrx-libhrx/src/runtime.rs:641-663 | with both accelerators shut down and nothing borrowed, no device and no HAL reference is left |
| `Runtime.Globals.LedgerExact` | crates/hrx-libhrx/src/runtime.rs:128-193 | between calls the ledger is the shared objects while an accelerator is up, a driver for each that is, and HAL device, group and allocator of each live device |
| `Runtime.Interleave` | crates/hrx-libhrx/src/runtime.rs:325-663 | over any interleaving and any failures the counter is the number of initialized accelerators, the shared objects are held exactly when it is positive, and the ledger is exact; if no HAL call fails, the accelerators up are those initialized and not shut down since |
| `Fnv.ComputeHash` | crates/hip-buffer-tracer/src/lib.rs:137-144 | the loop computes the fold of the step, which `Fnv.HashSteps` pins |
| `Fnv.HashSteps` | crates/hip-buffer-tracer/src/lib.rs:137-144 | FNV-1a as published: the empty input hashes to the offset basis 0xcbf29ce484222325, and each byte is xored in before the multiplication by 0x100000001b3 modulo 2^64 |
| `Fnv.XorBit` | crates/hip-buffer-tracer/src/lib.rs:137-144 | the exclusive or, bit by bit |
| `Fnv.HashOfA` | crates/hip-buffer-tracer/src/lib.rs:137-144 | the published hash of the one-byte input "a" |
| `Fnv.FnvUndone` | crates/hip-buffer-tracer/src/lib.rs:137-144 | a step can be undone knowing the byte, and its byte read back knowing the state |
| `Fnv.OneByteChange` | crates/hip-buffer-tracer/src/lib.rs:137-144 | strings of equal length that differ in exactly one byte hash differently |
| `Fnv.CommonSuffix` | crates/hip-buffer-tracer/src/lib.rs:137-144 | after a common suffix two equally long inputs collide if and only if they did before it |
| `BufferTable.Tracker.Add` | crates/hip-buffer-tracer/src/lib.rs:147-171 | in place, the first free slot takes the pointer with the next id; null, empty and full leave the table alone |
| `BufferTable.Tracker.Remove` | crates/hip-buffer-tracer/src/lib.rs:173-181 | in place, the first slot holding the pointer is freed |
| `BufferTable.RunSound` | crates/hip-buffer-tracer/src/lib.rs:147-181 | in every run the counter is the number of used slots and used ids are distinct and below the next one |
| `BufferTable.AddExact` | crates/hip-buffer-tracer/src/lib.rs:147-171 | adding is a map update that disturbs no other entry if and only if the pointer is not tracked and the table is not full |
| `BufferTable.RemoveExact` | crates/hip-buffer-tracer/src/lib.rs:173-181 | removing deletes the pointer from the map and leaves every other entry |
| `BufferTable.RunIsMap` | crates/hip-buffer-tracer/src/lib.rs:147-181 | over every run: the table is the finite map from pointers after every event if and only if no tracked pointer was issued again and there was always room; then the ids agree too |
| `BufferTable.ReissueLeaves` | crates/hip-buffer-tracer/src/lib.rs:147-181 | a reissued pointer leaves a stale entry after it is freed |
| `BufferTable.FullDrops` | crates/hip-buffer-tracer/src/lib.rs:147-171 | a pointer issued to a full table is dropped and never found again |
| `HexDump.DumpBufferHex` | crates/hip-buffer-tracer/src/lib.rs:203-219 | the loop prints the grouped text |
| `HexDump.ByteAtOffset` | crates/hip-buffer-tracer/src/lib.rs:203-219 | each shown byte stands at the offset that 4-byte groups and 32-byte lines give it |
| `HexDump.GapAtOffset` | crates/hip-buffer-tracer/src/lib.rs:203-219 | between two bytes stands a line break and an indent after every 32nd, one space after every other 4th, nothing elsewhere |
| `HexDump.BreaksExact` | crates/hip-buffer-tracer/src/lib.rs:203-219 | the body of the text has a line break exactly after every 32nd byte |
| `HexDump.TextRead` | crates/hip-buffer-tracer/src/lib.rs:203-219 | a reader that knows only digits, blanks and dots recovers the shown bytes and the number left out, which add up to the size |
| `HexDump.DumpBuffer` | crates/hip-buffer-tracer/src/lib.rs:233-288 | all of the buffer is staged, or its first `limit` bytes; they suffice for every size and limit, and the text gives back the buffer's first bytes and the number of the others |
| `HexDump.ChangeSeen` | crates/hip-buffer-tracer/src/lib.rs:233-268 | between two hash dumps a single changed byte shows exactly when it lies in the part that is read |

## Left out

- The IREE runtime, HSA and HIP behind the foreign calls: modelled as contracts only (queue, semaphores, reference ledger).
- `hip-intercept`, `hip-logging`, `hip-noop` and the wrapper generator: forwarding and logging without state worth a proof.
- `fence.rs`, `buffer_view.rs`, `value_list.rs`, `host_allocator.rs`: thin wrappers that would only add more node kinds.
- NULL checks, message strings, status-code tables, device properties, names and architecture strings, environment variables and trace files.
- Kernel registration and the kernel filters of the tracer: linear searches that would only add easy members.
- Access-flag translation of map, queue affinity and dispatch parameters: passed through.
- Synchronous transfers and direct queue operations on buffers that a stream also uses: the timeline does not order them.
- Atomicity of reference counts under concurrent retain and release.
- Refinement.AsyncRefinesEager: one stream writes memory; with several streams `Refinement.SynchronizeExecutesAll` gives each stream's own order and `CrossStream.CrossStreamOrder` the order that `wait_on` makes between streams; without a `wait_on` there is none.
- QueueOps.Queue.ToSemaphoreList: takes lists of at most 16 entries, which the source leaves to its caller.
