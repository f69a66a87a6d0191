/** The error ladders of the object constructors, against a ledger of every reference, allocation and
    open file: whichever step fails, the ledger is exactly as before the call. */
module Ladders {

  datatype Role =
    | DeviceStrong | AllocatorRef | GroupRef
    | HalSemaphore | SemaphoreStrong
    | Cache | Executable | File | FileData
    | Bytecode | HalModule | Context
    | PoolMemory | Notification | HalBuffer

  /** A reference held for the object with handle `owner`. */
  datatype Ref = Ref(role: Role, owner: nat)

  datatype Kind = SemaphoreObject | StreamObject | ExecutableObject | ModuleObject | BufferObject

  /** What the owning fields of an object hold. */
  function Fields(k: Kind, h: nat): set<Ref> {
    match k
    case SemaphoreObject => {Ref(HalSemaphore, h), Ref(DeviceStrong, h)}
    case StreamObject => {Ref(SemaphoreStrong, h), Ref(DeviceStrong, h)}
    case ExecutableObject => {Ref(Executable, h), Ref(Cache, h), Ref(DeviceStrong, h)}
    case ModuleObject => {Ref(Context, h), Ref(HalModule, h), Ref(Bytecode, h), Ref(DeviceStrong, h)}
    case BufferObject => {Ref(HalBuffer, h), Ref(DeviceStrong, h), Ref(PoolMemory, h), Ref(AllocatorRef, h), Ref(Notification, h)}
  }

  datatype Status = Ok | InvalidArgument | Unavailable | FailedPrecondition | Failed

  class Ledger {
    /** Decides call by call whether a fallible step succeeds. */
    const script: nat -> bool
    var calls: nat
    var live: set<Ref>

    constructor (script: nat -> bool)
      ensures this.script == script && live == {}
    {
      this.script := script;
      calls, live := 0, {};
    }

    ghost predicate Unused(h: nat)
      reads this
    {
      forall r :: r in live ==> r.owner != h
    }

    /** The `n` fallible steps from number `from` on succeed. */
    ghost predicate Succeed(from: nat, n: nat) {
      forall k :: from <= k < from + n ==> script(k)
    }

    method Check() returns (ok: bool)
      modifies this`calls
      ensures ok == script(old(calls)) && calls == old(calls) + 1
    {
      ok := script(calls);
      calls := calls + 1;
    }

    method Create(r: Ref) returns (ok: bool)
      requires r !in live
      modifies this
      ensures live == if ok then old(live) + {r} else old(live)
      ensures ok == script(old(calls)) && calls == old(calls) + 1
    {
      ok := script(calls);
      calls := calls + 1;
      if ok {
        live := live + {r};
      }
    }

    method Retain(r: Ref)
      requires r !in live
      modifies this`live
      ensures live == old(live) + {r}
    {
      live := live + {r};
    }

    method Release(r: Ref)
      requires r in live
      modifies this`live
      ensures live == old(live) - {r}
    {
      live := live - {r};
    }

    // --- semaphores and streams ---

    method SemaphoreCreate(h: nat) returns (status: Status)
      requires Unused(h)
      modifies this
      ensures live == if status == Ok then old(live) + {Ref(HalSemaphore, h), Ref(DeviceStrong, h)} else old(live)
      ensures status == if script(old(calls)) then Ok else Failed
    {
      var ok := Create(Ref(HalSemaphore, h));
      if !ok {
        return Failed;
      }
      Retain(Ref(DeviceStrong, h));
      return Ok;
    }

    /** The device reference is taken first and dropped again if there is no semaphore; the stream
        owns the semaphore object made for it. */
    method StreamCreate(h: nat, semaphore: nat) returns (status: Status)
      requires Unused(h) && Unused(semaphore) && h != semaphore
      modifies this
      ensures live == if status != Ok then old(live) else
                old(live) + {Ref(SemaphoreStrong, h), Ref(DeviceStrong, h), Ref(HalSemaphore, semaphore), Ref(DeviceStrong, semaphore)}
      ensures status == if script(old(calls)) then Ok else Failed
    {
      Retain(Ref(DeviceStrong, h));
      status := SemaphoreCreate(semaphore);
      if status != Ok {
        Release(Ref(DeviceStrong, h));
        return;
      }
      Retain(Ref(SemaphoreStrong, h));
    }

    // --- executables ---

    method ExecutableLoadData(h: nat, size: nat, hasFormat: bool) returns (status: Status)
      requires {Ref(Executable, h), Ref(Cache, h), Ref(DeviceStrong, h)} !! live
      modifies this
      ensures live == if status == Ok then old(live) + {Ref(Executable, h), Ref(Cache, h), Ref(DeviceStrong, h)} else old(live)
      ensures status == Ok <==> size > 0 && hasFormat && Succeed(old(calls), 2)
      ensures status == InvalidArgument <==> size == 0 || (script(old(calls)) && !hasFormat)
    {
      if size == 0 {
        return InvalidArgument;
      }
      var ok := Create(Ref(Cache, h));
      if !ok {
        return Failed;
      }
      if !hasFormat {
        Release(Ref(Cache, h));
        return InvalidArgument;
      }
      ok := Create(Ref(Executable, h));
      if !ok {
        Release(Ref(Cache, h));
        return Failed;
      }
      Retain(Ref(DeviceStrong, h));
      return Ok;
    }

    /** `size` is what ftell reports, `read` what fread delivers. */
    method ExecutableLoadFile(h: nat, size: int, read: int, hasFormat: bool) returns (status: Status)
      requires Unused(h)
      modifies this
      ensures live == if status == Ok then old(live) + {Ref(Executable, h), Ref(Cache, h), Ref(DeviceStrong, h)} else old(live)
      ensures status == Ok <==> read == size > 0 && hasFormat && Succeed(old(calls), 6)
    {
      var ok := Create(Ref(File, h));
      if !ok {
        return Failed;
      }
      ok := Check(); // seek to the end
      if !ok {
        Release(Ref(File, h));
        return Failed;
      }
      if size <= 0 {
        Release(Ref(File, h));
        return InvalidArgument;
      }
      ok := Check(); // rewind
      if !ok {
        Release(Ref(File, h));
        return Failed;
      }
      ok := Create(Ref(FileData, h));
      Release(Ref(File, h));
      if !ok {
        return Failed;
      }
      if read != size {
        Release(Ref(FileData, h));
        return Failed;
      }
      status := ExecutableLoadData(h, size, hasFormat);
      Release(Ref(FileData, h));
    }

    // --- modules ---

    method ModuleLoadVmfb(h: nat, size: nat, initialized: bool, hasGroup: bool) returns (status: Status)
      requires Unused(h)
      modifies this
      ensures live == if status == Ok then old(live) + {Ref(Context, h), Ref(HalModule, h), Ref(Bytecode, h), Ref(DeviceStrong, h)} else old(live)
      ensures status == Ok <==> size > 0 && initialized && hasGroup && Succeed(old(calls), 3)
      ensures status == InvalidArgument <==> size == 0
      ensures status == Unavailable <==> size > 0 && !initialized
      ensures status == FailedPrecondition <==> size > 0 && initialized && script(old(calls)) && !hasGroup
    {
      if size == 0 {
        return InvalidArgument;
      }
      if !initialized {
        return Unavailable;
      }
      var ok := Create(Ref(Bytecode, h));
      if !ok {
        return Failed;
      }
      if !hasGroup {
        Release(Ref(Bytecode, h));
        return FailedPrecondition;
      }
      Retain(Ref(GroupRef, h));
      ok := Create(Ref(HalModule, h));
      Release(Ref(GroupRef, h));
      if !ok {
        Release(Ref(Bytecode, h));
        return Failed;
      }
      ok := Create(Ref(Context, h));
      if !ok {
        Release(Ref(HalModule, h));
        Release(Ref(Bytecode, h));
        return Failed;
      }
      Retain(Ref(DeviceStrong, h));
      return Ok;
    }

    // --- the exact pool and stream-ordered allocation ---

    method ExactPoolCreate(h: nat, proactors: bool) returns (status: Status)
      requires Unused(h)
      modifies this
      ensures live == if status == Ok then old(live) + {Ref(PoolMemory, h), Ref(AllocatorRef, h), Ref(Notification, h)} else old(live)
      ensures status == Ok <==> proactors && Succeed(old(calls), 3)
      ensures status == Ok ==> calls == old(calls) + 3
      ensures status == if !proactors then FailedPrecondition else if Succeed(old(calls), 3) then Ok else Failed
    {
      if !proactors {
        return FailedPrecondition;
      }
      var ok := Check(); // get a proactor
      if !ok {
        return Failed;
      }
      ok := Create(Ref(PoolMemory, h));
      if !ok {
        return Failed;
      }
      Retain(Ref(AllocatorRef, h));
      ok := Create(Ref(Notification, h));
      if !ok {
        Release(Ref(AllocatorRef, h));
        Release(Ref(PoolMemory, h));
        return Failed;
      }
      return Ok;
    }

    /** Undoes a successful creation exactly. */
    method PoolDestroy(h: nat)
      requires {Ref(PoolMemory, h), Ref(AllocatorRef, h), Ref(Notification, h)} <= live
      modifies this`live
      ensures live == old(live) - {Ref(PoolMemory, h), Ref(AllocatorRef, h), Ref(Notification, h)}
    {
      Release(Ref(Notification, h));
      Release(Ref(AllocatorRef, h));
      Release(Ref(PoolMemory, h));
    }

    /** Flush, pool, queued allocation, wait; on failure the null-safe releases give back what exists. */
    method BufferAllocate(h: nat, size: nat, allocatable: bool, proactors: bool) returns (status: Status)
      requires Unused(h)
      modifies this
      ensures live == if status != Ok then old(live) else
                old(live) + {Ref(HalBuffer, h), Ref(DeviceStrong, h), Ref(PoolMemory, h), Ref(AllocatorRef, h), Ref(Notification, h)}
      ensures status == Ok <==> size > 0 && allocatable && proactors && Succeed(old(calls), 6)
      ensures status == InvalidArgument <==> size == 0 || !allocatable
      ensures status == FailedPrecondition <==> size > 0 && allocatable && script(old(calls)) && !proactors
    {
      if size == 0 || !allocatable {
        return InvalidArgument;
      }
      var ok := Check(); // flush
      if !ok {
        return Failed;
      }
      status := ExactPoolCreate(h, proactors);
      var pool, buffer := status == Ok, false;
      if status == Ok {
        buffer := Create(Ref(HalBuffer, h)); // queue_alloca
        status := if buffer then Ok else Failed;
      }
      if status == Ok {
        ok := Check(); // wait for the signal
        status := if ok then Ok else Failed;
      }
      if status != Ok {
        if buffer {
          Release(Ref(HalBuffer, h));
        }
        if pool {
          PoolDestroy(h);
        }
        return;
      }
      Retain(Ref(DeviceStrong, h));
    }
  }

  datatype Construct =
    | Semaphore | Stream
    | LoadData(size: nat, hasFormat: bool) | LoadFile(bytes: int, read: int, hasFormat: bool)
    | LoadModule(size: nat, initialized: bool, hasGroup: bool)
    | Allocate(size: nat, allocatable: bool, proactors: bool)

  function KindOf(c: Construct): Kind {
    match c
    case Semaphore => SemaphoreObject
    case Stream => StreamObject
    case LoadData(_, _) => ExecutableObject
    case LoadFile(_, _, _) => ExecutableObject
    case LoadModule(_, _, _) => ModuleObject
    case Allocate(_, _, _) => BufferObject
  }

  /** The arguments and the state of the runtime allow the construction. */
  predicate Possible(c: Construct) {
    match c
    case Semaphore => true
    case Stream => true
    case LoadData(size, hasFormat) => size > 0 && hasFormat
    case LoadFile(bytes, read, hasFormat) => read == bytes > 0 && hasFormat
    case LoadModule(size, initialized, hasGroup) => size > 0 && initialized && hasGroup
    case Allocate(size, allocatable, proactors) => size > 0 && allocatable && proactors
  }

  /** The ledger is what the objects own. */
  ghost predicate Exact(live: set<Ref>, objects: map<nat, Kind>) {
    forall r :: r in live <==> r.owner in objects && r in Fields(objects[r.owner], r.owner)
  }

  /** A stream comes with the semaphore object made for it. */
  function WithObject(objects: map<nat, Kind>, h: nat, kind: Kind): map<nat, Kind> {
    if kind == StreamObject then objects[h := kind][h + 1 := SemaphoreObject] else objects[h := kind]
  }

  function Owned(kind: Kind, h: nat): set<Ref> {
    Fields(kind, h) + if kind == StreamObject then Fields(SemaphoreObject, h + 1) else {}
  }

  lemma WithObjectExact(live: set<Ref>, objects: map<nat, Kind>, h: nat, kind: Kind)
    requires Exact(live, objects) && h !in objects && h + 1 !in objects
    ensures Exact(live + Owned(kind, h), WithObject(objects, h, kind))
  {
    assert forall r :: r in Fields(kind, h) ==> r.owner == h;
    assert forall r :: r in Fields(SemaphoreObject, h + 1) ==> r.owner == h + 1;
  }

  /** Over any sequence of constructor calls under any pattern of failures, the ledger holds exactly what
      the successfully constructed objects own.  Only possible constructions succeed, and all of them do if
      no step fails. */
  method ConstructAll(script: nat -> bool, cs: seq<Construct>) returns (ledger: Ledger, objects: map<nat, Kind>)
    ensures Exact(ledger.live, objects)
    ensures forall i :: 0 <= i < |cs| && 2 * i in objects ==> Possible(cs[i]) && objects[2 * i] == KindOf(cs[i])
    ensures (forall n :: script(n)) ==> forall i :: 0 <= i < |cs| && Possible(cs[i]) ==> 2 * i in objects
  {
    ledger := new Ledger(script);
    objects := map[];
    for i := 0 to |cs|
      invariant Exact(ledger.live, objects) && fresh(ledger) && ledger.script == script && forall h :: h in objects ==> h < 2 * i
      invariant forall k :: 0 <= k < i && 2 * k in objects ==> Possible(cs[k]) && objects[2 * k] == KindOf(cs[k])
      invariant (forall n :: script(n)) ==> forall k :: 0 <= k < i && Possible(cs[k]) ==> 2 * k in objects
    {
      var h := 2 * i;
      WithObjectExact(ledger.live, objects, h, KindOf(cs[i]));
      var status, kind := ConstructOne(ledger, cs[i], h);
      if status == Ok {
        objects := WithObject(objects, h, kind);
      }
    }
  }

  method ConstructOne(ledger: Ledger, c: Construct, h: nat) returns (status: Status, kind: Kind)
    requires ledger.Unused(h) && ledger.Unused(h + 1)
    modifies ledger
    ensures status != Ok ==> ledger.live == old(ledger.live)
    ensures status == Ok ==> ledger.live == old(ledger.live) + Owned(kind, h)
    ensures kind == KindOf(c) && (status == Ok ==> Possible(c))
    ensures (forall n :: ledger.script(n)) && Possible(c) ==> status == Ok
  {
    match c {
      case Semaphore =>
        kind := SemaphoreObject;
        status := ledger.SemaphoreCreate(h);
      case Stream =>
        kind := StreamObject;
        status := ledger.StreamCreate(h, h + 1);
      case LoadData(size, hasFormat) =>
        kind := ExecutableObject;
        status := ledger.ExecutableLoadData(h, size, hasFormat);
      case LoadFile(bytes, read, hasFormat) =>
        kind := ExecutableObject;
        status := ledger.ExecutableLoadFile(h, bytes, read, hasFormat);
      case LoadModule(size, initialized, hasGroup) =>
        kind := ModuleObject;
        status := ledger.ModuleLoadVmfb(h, size, initialized, hasGroup);
      case Allocate(size, allocatable, proactors) =>
        kind := BufferObject;
        status := ledger.BufferAllocate(h, size, allocatable, proactors);
    }
  }
}
