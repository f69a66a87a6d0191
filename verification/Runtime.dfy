/** Accelerator initialization and shutdown: the shared-state counter, the error ladders with
    rollback, and GPU enumeration, against a ledger of the HAL references the runtime owns. */
module Runtime {

  const MAX_DEVICES := 64

  /** A HAL reference (or allocation) the runtime can own, named by its role. */
  datatype Ref =
    | VmInstance | ProactorPool
    | Driver(gpu: bool)
    | Executor | Loader(index: nat) | HeapAllocator
    | Tracker | InfoArray
    | HalDevice(h: nat) | Group(h: nat) | Allocator(h: nat)

  /** The three references a device object owns. */
  predicate OfDevice(r: Ref) {
    r.HalDevice? || r.Group? || r.Allocator?
  }

  /** References that no object owns between calls. */
  predicate Transient(r: Ref) {
    r.Executor? || r.Loader? || r.HeapAllocator? || r.Tracker? || r.InfoArray?
  }

  ghost function Members(list: seq<nat>): set<nat> {
    set k | 0 <= k < |list| :: list[k]
  }

  lemma MembersOne(h: nat)
    ensures Members([h]) == {h}
  {
    assert [h][0] in Members([h]);
  }

  lemma MembersSnoc(list: seq<nat>, h: nat)
    ensures Members(list + [h]) == Members(list) + {h}
  {
    forall x | x in Members(list) + {h} ensures x in Members(list + [h]) {
      if x == h {
        assert (list + [h])[|list|] == h;
      } else {
        var k :| 0 <= k < |list| && list[k] == x;
        assert (list + [h])[k] == x;
      }
    }
  }

  predicate Distinct(list: seq<nat>) {
    forall j, k :: 0 <= j < k < |list| ==> list[j] != list[k]
  }

  function Loaders(lo: nat, hi: nat): set<Ref> {
    set i: nat | lo <= i < hi :: Loader(i)
  }

  datatype Status = Ok | AlreadyExists | InvalidArgument | Unavailable | HalError

  /** The HAL: `script` decides call by call whether it succeeds; `live` is the reference ledger. */
  class Hal {
    const script: nat -> bool
    var calls: nat
    var live: set<Ref>

    constructor (script: nat -> bool)
      ensures this.script == script && live == {}
    {
      this.script := script;
      calls, live := 0, {};
    }

    /** The `n` calls from number `from` on succeed. */
    ghost predicate Succeed(from: nat, n: nat) {
      forall k :: from <= k < from + n ==> script(k)
    }

    lemma SucceedSplit(from: nat, n: nat, m: nat)
      ensures Succeed(from, n + m) <==> Succeed(from, n) && Succeed(from + n, m)
    {
    }

    method Check() returns (ok: bool)
      modifies this`calls
      ensures ok == script(old(calls)) && calls == old(calls) + 1
    {
      ok := script(calls);
      calls := calls + 1;
    }

    /** A create call: on success the runtime owns one new reference. */
    method Create(r: Ref) returns (ok: bool)
      requires r !in live
      modifies this
      ensures live == if ok then old(live) + {r} else old(live)
      ensures ok == script(old(calls)) && calls == old(calls) + 1
    {
      ok := script(calls);
      calls := calls + 1;
      if ok {
        live := live + {r};
      }
    }

    /** Creates every available executable loader, or none. */
    method CreateLoaders(count: nat) returns (ok: bool)
      requires Loaders(0, count) !! live
      modifies this
      ensures live == if ok then old(live) + Loaders(0, count) else old(live)
      ensures ok == script(old(calls)) && calls == old(calls) + 1
    {
      ok := script(calls);
      calls := calls + 1;
      if ok {
        live := live + Loaders(0, count);
      }
    }

    method ReleaseLoaders(count: nat)
      requires Loaders(0, count) <= live
      modifies this`live
      ensures live == old(live) - Loaders(0, count)
    {
      for i := 0 to count
        invariant live == old(live) - Loaders(0, i)
        invariant Loaders(i, count) <= live
      {
        assert Loader(i) in Loaders(i, count);
        Release(Loader(i));
      }
    }

    /** A retain call, which cannot fail. */
    method Retain(r: Ref)
      requires r !in live
      modifies this`live
      ensures live == old(live) + {r}
    {
      live := live + {r};
    }

    /** A release or free call: the reference must be owned, and is not afterwards. */
    method Release(r: Ref)
      requires r in live
      modifies this`live
      ensures live == old(live) - {r}
    {
      live := live - {r};
    }
  }

  datatype Info = Info(path: string, name: string)

  datatype Device = Device(strong: nat, gpu: bool, ordinal: nat, info: nat)

  datatype Accelerator = Accelerator(devices: seq<nat>, deviceCount: nat, initialized: bool, driver: bool)

  /** The positions of the physical devices (non-empty path) among the first `n` infos. */
  function Physical(infos: seq<Info>, n: nat): seq<nat>
    requires n <= |infos|
  {
    if n == 0 then []
    else if infos[n - 1].path == "" then Physical(infos, n - 1)
    else Physical(infos, n - 1) + [n - 1]
  }

  /** What a successful enumeration exposes. */
  ghost predicate Enumerates(infos: seq<Info>, list: seq<nat>, devices: map<nat, Device>) {
    var all := Physical(infos, |infos|);
    && |list| == (if |all| < MAX_DEVICES then |all| else MAX_DEVICES)
    && forall k :: 0 <= k < |list| ==>
         list[k] in devices && devices[list[k]].gpu && devices[list[k]].ordinal == k && devices[list[k]].info == all[k]
  }

  /** How many devices an info array gives: one for each physical info, at most 64. */
  function Exposed(infos: seq<Info>): nat {
    var all := |Physical(infos, |infos|)|;
    if all < MAX_DEVICES then all else MAX_DEVICES
  }

  lemma {:induction false} PhysicalGrows(infos: seq<Info>, n: nat, m: nat)
    requires n <= m <= |infos|
    ensures |Physical(infos, n)| <= |Physical(infos, m)|
    ensures Physical(infos, m)[..|Physical(infos, n)|] == Physical(infos, n)
    decreases m - n
  {
    if n < m {
      PhysicalGrows(infos, n, m - 1);
    }
  }

  /** Enumeration selects exactly the physical infos, in order. */
  lemma {:induction false} PhysicalExact(infos: seq<Info>, n: nat)
    requires n <= |infos|
    ensures forall i :: i in Physical(infos, n) <==> 0 <= i < n && infos[i].path != ""
    ensures forall j, k :: 0 <= j < k < |Physical(infos, n)| ==> Physical(infos, n)[j] < Physical(infos, n)[k]
  {
    if n > 0 {
      PhysicalExact(infos, n - 1);
      var before := Physical(infos, n - 1);
      assert forall k :: 0 <= k < |before| ==> before[k] in before;
    }
  }

  /** The rank of a physical info: it comes right after the physical infos before it. */
  lemma {:induction false} PhysicalRank(infos: seq<Info>, i: nat)
    requires i < |infos| && infos[i].path != ""
    ensures |Physical(infos, i)| < |Physical(infos, |infos|)| && Physical(infos, |infos|)[|Physical(infos, i)|] == i
  {
    PhysicalGrows(infos, i + 1, |infos|);
    var upTo := Physical(infos, i + 1);
    assert Physical(infos, |infos|)[|upTo| - 1] == Physical(infos, |infos|)[..|upTo|][|upTo| - 1];
  }

  /** What enumeration means for one info: it has a device exactly when its path is non-empty and
      fewer than 64 physical infos precede it, and then its ordinal is the number of those. */
  lemma EnumeratesFirst(infos: seq<Info>, list: seq<nat>, devices: map<nat, Device>, i: nat)
    requires Enumerates(infos, list, devices) && i < |infos|
    ensures infos[i].path != "" && |Physical(infos, i)| < 64 ==>
              var k := |Physical(infos, i)|; k < |list| && devices[list[k]].info == i && devices[list[k]].ordinal == k
    ensures forall k :: 0 <= k < |list| && devices[list[k]].info == i ==>
              infos[i].path != "" && k == |Physical(infos, i)| < 64
  {
    var all := Physical(infos, |infos|);
    PhysicalExact(infos, |infos|);
    if infos[i].path != "" {
      PhysicalRank(infos, i);
    }
    forall k | 0 <= k < |list| && devices[list[k]].info == i
      ensures infos[i].path != "" && k == |Physical(infos, i)| < 64
    {
      assert all[k] == i && i in all;
    }
  }

  /** The device objects and the borrowed counts, up to the next handle. */
  datatype Store = Store(devices: map<nat, Device>, borrowed: map<nat, nat>, next: nat)

  /** The devices that existed before are untouched. */
  ghost predicate Kept(was: Store, now: Store) {
    && was.next <= now.next
    && forall h :: h in was.devices && h in was.borrowed && h < was.next ==>
         h in now.devices && now.devices[h] == was.devices[h] && h in now.borrowed && now.borrowed[h] == was.borrowed[h]
  }

  /** Each listed device is a new object, with one reference, made for the physical info of the same
      rank among the first `n`; nothing else was added. */
  ghost predicate Listed(infos: seq<Info>, n: nat, list: seq<nat>, was: Store, now: Store) {
    && Kept(was, now) && Distinct(list)
    && n <= |infos| && |list| <= |Physical(infos, n)|
    && (forall k :: 0 <= k < |list| ==>
          && was.next <= list[k] < now.next && list[k] in now.devices && list[k] in now.borrowed && now.borrowed[list[k]] == 0
          && now.devices[list[k]] == Device(1, true, k, Physical(infos, n)[k]))
    && forall h :: h in now.devices && h !in was.devices ==> h in Members(list)
  }

  /** The store after a device was added for the info at `index`. */
  ghost function WithDevice(now: Store, ordinal: nat, index: nat): Store {
    Store(now.devices[now.next := Device(1, true, ordinal, index)], now.borrowed[now.next := 0], now.next + 1)
  }

  lemma ListedSnoc(infos: seq<Info>, n: nat, list: seq<nat>, was: Store, now: Store)
    requires Listed(infos, n, list, was, now)
    requires n < |infos| && infos[n].path != "" && |list| == |Physical(infos, n)|
    ensures Listed(infos, n + 1, list + [now.next], was, WithDevice(now, |list|, n))
  {
    assert Physical(infos, n + 1) == Physical(infos, n) + [n];
    MembersSnoc(list, now.next);
  }

  lemma ListedGrows(infos: seq<Info>, n: nat, m: nat, list: seq<nat>, was: Store, now: Store)
    requires Listed(infos, n, list, was, now) && n <= m <= |infos|
    ensures Listed(infos, m, list, was, now)
  {
    PhysicalGrows(infos, n, m);
    forall k | 0 <= k < |list| ensures Physical(infos, m)[k] == Physical(infos, n)[k] {
      assert Physical(infos, m)[k] == Physical(infos, m)[..|Physical(infos, n)|][k];
    }
  }

  /** What is owned between calls, given the shared state, the drivers and the devices. */
  predicate OwnedBy(r: Ref, shared: bool, cpuDriver: bool, gpuDriver: bool, devices: map<nat, Device>) {
    match r
    case VmInstance => shared
    case ProactorPool => shared
    case Driver(g) => if g then gpuDriver else cpuDriver
    case HalDevice(h) => h in devices
    case Group(h) => h in devices
    case Allocator(h) => h in devices
    case _ => false
  }

  /** The ledger is exactly that. */
  ghost predicate Exact(live: set<Ref>, shared: bool, cpuDriver: bool, gpuDriver: bool, devices: map<nat, Device>) {
    forall r :: r in live <==> OwnedBy(r, shared, cpuDriver, gpuDriver, devices)
  }

  lemma ExactUnique(one: set<Ref>, two: set<Ref>, shared: bool, cpuDriver: bool, gpuDriver: bool, devices: map<nat, Device>)
    requires Exact(one, shared, cpuDriver, gpuDriver, devices) && Exact(two, shared, cpuDriver, gpuDriver, devices)
    ensures one == two
  {
  }

  class Globals {
    const hal: Hal
    var sharedInitialized: bool
    var initCount: int
    var cpu: Accelerator
    var gpu: Accelerator
    /** The device objects that are alive, and the next handle. */
    var devices: map<nat, Device>
    var nextHandle: nat
    /** References to each device held outside the tables: by clients, child objects and constructors. */
    var borrowed: map<nat, nat>

    constructor (hal: Hal)
      requires hal.live == {}
      ensures Valid() && this.hal == hal && !cpu.initialized && !gpu.initialized
    {
      this.hal := hal;
      sharedInitialized, initCount := false, 0;
      cpu, gpu := Accelerator([], 0, false, false), Accelerator([], 0, false, false);
      devices, nextHandle, borrowed := map[], 0, map[];
    }

    function Initialized(): nat
      reads this
    {
      (if cpu.initialized then 1 else 0) + (if gpu.initialized then 1 else 0)
    }

    ghost predicate AcceleratorValid(a: Accelerator, gpu: bool)
      reads this
    {
      && a.driver == a.initialized && a.deviceCount == |a.devices| && (!a.initialized ==> a.devices == [])
      && (forall k :: 0 <= k < |a.devices| ==> a.devices[k] in devices && devices[a.devices[k]].gpu == gpu)
      && Distinct(a.devices)
    }

    /** Strong counts are explained: one for a device in `held`, the rest borrowed. */
    ghost predicate Explained(held: set<nat>)
      reads this
    {
      && held <= devices.Keys
      && (forall h :: h in devices ==>
            && h < nextHandle && h in borrowed && devices[h].strong > 0
            && devices[h].strong == borrowed[h] + (if h in held then 1 else 0))
    }

    ghost predicate DevicesValid()
      reads this
    {
      AcceleratorValid(cpu, false) && AcceleratorValid(gpu, true) && Explained(Members(cpu.devices) + Members(gpu.devices))
    }

    /** The references owned between calls. */
    predicate Owned(r: Ref)
      reads this
    {
      OwnedBy(r, sharedInitialized, cpu.driver, gpu.driver, devices)
    }

    /** The ledger holds what is owned, and `extra` in the middle of a call; nothing else. */
    ghost predicate Books(extra: set<Ref>)
      reads this, hal
    {
      forall r :: r in hal.live <==> Owned(r) || r in extra
    }

    /** The counter is the number of initialized accelerators, the shared objects are held exactly
        when it is positive, and the ledger is exact. */
    ghost predicate Valid()
      reads this, hal
    {
      && initCount == Initialized() && (sharedInitialized <==> initCount > 0)
      && DevicesValid() && Books({})
    }

    /** Of the devices `was`, those held or borrowed are left, the same but for their counts. */
    ghost predicate Survivors(was: map<nat, Device>, held: set<nat>)
      reads this
    {
      && was.Keys <= borrowed.Keys
      && (forall h :: h in devices <==> h in was && (h in held || borrowed[h] > 0))
      && (forall h :: h in devices ==> devices[h] == was[h].(strong := devices[h].strong))
    }

    /** A failed call left the ledger, the accelerator, the devices and the counter as they were. */
    ghost predicate Restored(onGpu: bool, live: set<Ref>, a: Accelerator, ds: map<nat, Device>, bs: map<nat, nat>, count: int)
      reads this, hal
    {
      hal.live == live && (if onGpu then gpu else cpu) == a && devices == ds && initCount == count
      && forall h :: h in ds && h in bs ==> h in borrowed && borrowed[h] == bs[h]
    }

    /** A successful initialization only added devices. */
    ghost predicate Opened(onGpu: bool, ds: map<nat, Device>, bs: map<nat, nat>)
      reads this
    {
      && (if onGpu then gpu else cpu).initialized
      && forall h :: h in ds && h in bs ==> h in devices && devices[h] == ds[h] && h in borrowed && borrowed[h] == bs[h]
    }

    /** What is owned while GPU devices are being created: the driver and the info array. */
    ghost function GpuTransients(): set<Ref> {
      {Driver(true), InfoArray}
    }

    ghost function Objects(): Store
      reads this
    {
      Store(devices, borrowed, nextHandle)
    }

    /** A store that the CPU table's devices are in. */
    ghost predicate Rooted(was: Store)
      reads this`cpu
    {
      Members(cpu.devices) <= was.devices.Keys && (forall h :: h in was.devices ==> h < was.next && h in was.borrowed)
    }

    /** The state of the enumeration loop, over the store that it started from. */
    ghost predicate Opening(infos: seq<Info>, n: nat, list: seq<nat>, was: Store)
      reads this, hal
    {
      && Books(GpuTransients()) && Explained(Members(cpu.devices) + Members(list))
      && Rooted(was) && Listed(infos, n, list, was, Objects())
    }

    // --- shared state ---

    method EnsureSharedState() returns (ok: bool)
      requires Valid()
      modifies this`sharedInitialized, this`initCount, hal
      ensures Books({})
      ensures !ok ==> hal.live == old(hal.live) && sharedInitialized == old(sharedInitialized) && initCount == old(initCount)
      ensures ok ==> sharedInitialized && initCount == Initialized() + 1
      ensures ok <==> old(sharedInitialized) || hal.Succeed(old(hal.calls), 3)
      ensures ok ==> hal.calls == old(hal.calls) + if old(sharedInitialized) then 0 else 3
    {
      if sharedInitialized {
        initCount := initCount + 1;
        return true;
      }
      ok := hal.Create(VmInstance);
      if !ok {
        return false;
      }
      ok := hal.Check(); // register all types
      if !ok {
        hal.Release(VmInstance);
        return false;
      }
      ok := hal.Create(ProactorPool);
      if !ok {
        hal.Release(VmInstance);
        return false;
      }
      sharedInitialized := true;
      initCount := 1;
      return true;
    }

    method ReleaseSharedState()
      requires Books({})
      requires if sharedInitialized then initCount == Initialized() + 1 else initCount == Initialized() == 0
      modifies this`sharedInitialized, this`initCount, hal`live
      ensures Books({}) && initCount == Initialized() && (sharedInitialized <==> initCount > 0)
    {
      if !sharedInitialized {
        return;
      }
      initCount := initCount - 1;
      if initCount > 0 {
        return;
      }
      hal.Release(ProactorPool);
      hal.Release(VmInstance);
      sharedInitialized := false;
    }

    // --- devices ---

    /** A single-device group over a frontier tracker, which the group keeps alive on its own. */
    method CreateSingleDeviceGroup(h: nat) returns (ok: bool)
      requires Group(h) !in hal.live && Tracker !in hal.live
      modifies hal
      ensures hal.live == if ok then old(hal.live) + {Group(h)} else old(hal.live)
      ensures ok <==> hal.Succeed(old(hal.calls), 2)
      ensures ok ==> hal.calls == old(hal.calls) + 2
    {
      ok := hal.Create(Tracker);
      if !ok {
        return false;
      }
      ok := hal.Create(Group(h));
      hal.Release(Tracker);
    }

    /** The local-task driver: whichever of its four creations fails, nothing stays behind. */
    method CreateLocalTaskDriver(loaders: nat) returns (ok: bool)
      requires forall r :: r in hal.live ==> !Transient(r) && r != Driver(false)
      modifies hal
      ensures hal.live == if ok then old(hal.live) + {Driver(false)} else old(hal.live)
      ensures ok <==> hal.Succeed(old(hal.calls), 4)
      ensures ok ==> hal.calls == old(hal.calls) + 4
    {
      ok := hal.Create(Executor);
      if !ok {
        return false;
      }
      ok := hal.CreateLoaders(loaders);
      if !ok {
        hal.Release(Executor);
        return false;
      }
      ok := hal.Create(HeapAllocator);
      if !ok {
        hal.ReleaseLoaders(loaders);
        hal.Release(Executor);
        return false;
      }
      ok := hal.Create(Driver(false));
      hal.Release(Executor);
      hal.ReleaseLoaders(loaders);
      hal.Release(HeapAllocator);
    }

    /** The local-task driver and device, or neither. */
    method CreateLocalTaskDevice(h: nat, loaders: nat) returns (ok: bool)
      requires forall r :: r in hal.live ==> !Transient(r) && r != Driver(false) && r != HalDevice(h)
      modifies hal
      ensures hal.live == if ok then old(hal.live) + {Driver(false), HalDevice(h)} else old(hal.live)
      ensures ok <==> hal.Succeed(old(hal.calls), 5)
      ensures ok ==> hal.calls == old(hal.calls) + 5
    {
      hal.SucceedSplit(hal.calls, 4, 1);
      ok := CreateLocalTaskDriver(loaders);
      if !ok {
        return false;
      }
      ok := hal.Create(HalDevice(h));
      if !ok {
        hal.Release(Driver(false));
      }
    }

    /** The group of a fresh HAL device, and the reference to its allocator; on failure the HAL device is
        released. */
    method GroupDevice(h: nat) returns (ok: bool)
      requires HalDevice(h) in hal.live && Group(h) !in hal.live && Allocator(h) !in hal.live && Tracker !in hal.live
      modifies hal
      ensures hal.live == if ok then old(hal.live) + {Group(h), Allocator(h)} else old(hal.live) - {HalDevice(h)}
      ensures ok <==> hal.Succeed(old(hal.calls), 2)
      ensures ok ==> hal.calls == old(hal.calls) + 2
    {
      ok := CreateSingleDeviceGroup(h);
      if !ok {
        hal.Release(HalDevice(h));
        return false;
      }
      hal.Retain(Allocator(h));
    }

    /** A new device object with one reference. */
    method NewDevice(onGpu: bool, ordinal: nat, info: nat, ghost held: set<nat>)
      requires Explained(held)
      modifies this`devices, this`borrowed, this`nextHandle
      ensures Explained(held + {old(nextHandle)}) && devices == old(devices)[old(nextHandle) := Device(1, onGpu, ordinal, info)]
      ensures borrowed == old(borrowed)[old(nextHandle) := 0] && nextHandle == old(nextHandle) + 1
    {
      devices := devices[nextHandle := Device(1, onGpu, ordinal, info)];
      borrowed := borrowed[nextHandle := 0];
      nextHandle := nextHandle + 1;
    }

    /** Groups a fresh HAL device and wraps it as a device object with one reference; on failure the
        HAL device is released. */
    method WrapDevice(onGpu: bool, ordinal: nat, info: nat, ghost held: set<nat>, ghost extra: set<Ref>) returns (ok: bool)
      requires Books(extra + {HalDevice(nextHandle)}) && Explained(held)
      requires Tracker !in extra && forall r :: r in extra ==> !OfDevice(r)
      modifies this`devices, this`borrowed, this`nextHandle, hal
      ensures !ok ==> Books(extra) && Explained(held)
                      && devices == old(devices) && borrowed == old(borrowed) && nextHandle == old(nextHandle)
      ensures ok ==> Books(extra) && Explained(held + {old(nextHandle)})
                     && devices == old(devices)[old(nextHandle) := Device(1, onGpu, ordinal, info)]
                     && borrowed == old(borrowed)[old(nextHandle) := 0] && nextHandle == old(nextHandle) + 1
      ensures ok <==> hal.Succeed(old(hal.calls), 2)
      ensures ok ==> hal.calls == old(hal.calls) + 2
    {
      ok := GroupDevice(nextHandle);
      if ok {
        NewDevice(onGpu, ordinal, info, held);
      }
    }

    /** Drops one strong reference; the last one releases allocator, group and device, in that order. */
    method DropStrong(h: nat, ghost extra: set<Ref>)
      requires h in devices && devices[h].strong > 0 && Books(extra)
      requires forall r :: r in extra ==> !OfDevice(r)
      modifies this`devices, hal`live
      ensures Books(extra)
      ensures devices == if old(devices)[h].strong > 1 then old(devices)[h := old(devices)[h].(strong := old(devices)[h].strong - 1)]
                         else old(devices) - {h}
    {
      if devices[h].strong > 1 {
        devices := devices[h := devices[h].(strong := devices[h].strong - 1)];
        return;
      }
      hal.Release(Allocator(h));
      hal.Release(Group(h));
      hal.Release(HalDevice(h));
      devices := devices - {h};
    }

    /** Drops the held reference of one device: it dies unless somebody borrowed it. */
    method DropHeld(h: nat, ghost held: set<nat>, ghost extra: set<Ref>)
      requires Books(extra) && Explained(held) && h in held
      requires forall r :: r in extra ==> !OfDevice(r)
      modifies this`devices, hal`live
      ensures Books(extra) && Explained(held - {h})
      ensures devices == if borrowed[h] > 0 then old(devices)[h := old(devices)[h].(strong := borrowed[h])] else old(devices) - {h}
    {
      DropStrong(h, extra);
    }

    /** Drops the held reference of each listed device: those nobody borrowed die, the others live on. */
    method DropAll(list: seq<nat>, ghost held: set<nat>, ghost extra: set<Ref>) returns (ghost rest: set<nat>)
      requires Books(extra) && Explained(held) && Distinct(list) && Members(list) <= held
      requires forall r :: r in extra ==> !OfDevice(r)
      modifies this`devices, hal`live
      ensures Books(extra) && Explained(rest) && rest == held - Members(list)
      ensures forall h :: h in devices <==> h in old(devices) && (h in rest || borrowed[h] > 0)
      ensures forall h :: h in devices ==> devices[h] == old(devices)[h].(strong := devices[h].strong)
    {
      rest := held;
      for i := 0 to |list|
        invariant Books(extra) && Explained(rest)
        invariant rest == held - (set k | 0 <= k < i :: list[k])
        invariant Survivors(old(devices), rest)
      {
        assert list[i] in Members(list) && list[i] in rest;
        DropHeld(list[i], rest, extra);
        rest := rest - {list[i]};
      }
    }

    // --- initialize and shutdown ---

    /** The part of CPU initialization that runs once the shared state is held. */
    method CpuOpen(loaders: nat) returns (ok: bool)
      requires Books({}) && DevicesValid() && !cpu.initialized
      modifies this`cpu, this`devices, this`borrowed, this`nextHandle, hal
      ensures Books({}) && DevicesValid()
      ensures !ok ==> cpu == old(cpu) && devices == old(devices) && borrowed == old(borrowed) && nextHandle == old(nextHandle)
      ensures ok ==> cpu == Accelerator([old(nextHandle)], 1, true, true)
                     && devices == old(devices)[old(nextHandle) := Device(1, false, 0, 0)]
                     && borrowed == old(borrowed)[old(nextHandle) := 0] && nextHandle == old(nextHandle) + 1
      ensures ok <==> hal.Succeed(old(hal.calls), 7)
      ensures ok ==> hal.calls == old(hal.calls) + 7
    {
      var h := nextHandle;
      ok := CreateLocalTaskDevice(h, loaders);
      if !ok {
        return false;
      }
      ghost var held := Members(cpu.devices) + Members(gpu.devices);
      ok := WrapDevice(false, 0, 0, held, {Driver(false)});
      if !ok {
        hal.Release(Driver(false));
        return false;
      }
      cpu := Accelerator([h], 1, true, true);
      MembersOne(h);
      assert Members(cpu.devices) + Members(gpu.devices) == held + {h};
    }

    method CpuInitialize(loaders: nat) returns (status: Status)
      requires Valid()
      modifies this, hal
      ensures Valid() && gpu == old(gpu)
      ensures status == AlreadyExists <==> old(cpu.initialized)
      ensures status != Ok ==> Restored(false, old(hal.live), old(cpu), old(devices), old(borrowed), old(initCount))
      ensures status == Ok ==> Opened(false, old(devices), old(borrowed)) && |cpu.devices| == 1 && devices[cpu.devices[0]] == Device(1, false, 0, 0)
      ensures status == Ok <==> !old(cpu.initialized) && hal.Succeed(old(hal.calls), if old(sharedInitialized) then 7 else 10)
    {
      if cpu.initialized {
        return AlreadyExists;
      }
      ghost var live := hal.live;
      assert Exact(live, sharedInitialized, cpu.driver, gpu.driver, devices);
      var ok := EnsureSharedState();
      if !ok {
        return HalError;
      }
      ok := CpuOpen(loaders);
      if !ok {
        ReleaseSharedState();
        ExactUnique(live, hal.live, sharedInitialized, cpu.driver, gpu.driver, devices);
        return HalError;
      }
      return Ok;
    }

    /** The infos with a non-empty path. */
    method CountPhysical(infos: seq<Info>) returns (count: nat)
      ensures count == |Physical(infos, |infos|)|
    {
      count := 0;
      for i := 0 to |infos|
        invariant count == |Physical(infos, i)|
      {
        if infos[i].path != "" {
          count := count + 1;
        }
      }
    }

    lemma OpeningStarts(infos: seq<Info>)
      requires Books(GpuTransients()) && DevicesValid() && gpu.devices == []
      ensures Opening(infos, 0, [], Objects())
    {
      assert Members(cpu.devices) + Members(gpu.devices) == Members(cpu.devices) + Members([]);
    }

    /** One turn of the enumeration: a HAL device for info `info`, its group, its device object. */
    method NewGpuDevice(ordinal: nat, info: nat, ghost held: set<nat>) returns (ok: bool)
      requires Books(GpuTransients()) && Explained(held)
      modifies this`devices, this`borrowed, this`nextHandle, hal
      ensures Books(GpuTransients())
      ensures !ok ==> Explained(held)
                      && devices == old(devices) && borrowed == old(borrowed) && nextHandle == old(nextHandle)
      ensures ok ==> Explained(held + {old(nextHandle)})
                     && devices == old(devices)[old(nextHandle) := Device(1, true, ordinal, info)]
                     && borrowed == old(borrowed)[old(nextHandle) := 0] && nextHandle == old(nextHandle) + 1
      ensures ok <==> hal.Succeed(old(hal.calls), 3)
      ensures ok ==> hal.calls == old(hal.calls) + 3
    {
      ok := hal.Create(HalDevice(nextHandle));
      if ok {
        ok := WrapDevice(true, ordinal, info, held, GpuTransients());
      }
    }

    /** The list grows by the device just created for a physical info. */
    lemma OpeningNext(infos: seq<Info>, index: nat, list: seq<nat>, was: Store, now: Store)
      requires index < |infos| && infos[index].path != "" && |list| == |Physical(infos, index)|
      requires Rooted(was) && Listed(infos, index, list, was, now) && Objects() == WithDevice(now, |list|, index)
      requires Books(GpuTransients()) && Explained(Members(cpu.devices) + Members(list) + {now.next})
      ensures Opening(infos, index + 1, list + [now.next], was)
    {
      MembersSnoc(list, now.next);
      assert Members(cpu.devices) + (Members(list) + {now.next}) == Members(cpu.devices) + Members(list) + {now.next};
      assert Listed(infos, index + 1, list + [now.next], was, Objects()) by {
        ListedSnoc(infos, index, list, was, now);
      }
    }

    lemma OpeningGrows(infos: seq<Info>, n: nat, m: nat, list: seq<nat>, was: Store)
      requires Opening(infos, n, list, was) && n <= m <= |infos|
      ensures Opening(infos, m, list, was)
    {
      ListedGrows(infos, n, m, list, was, Objects());
    }

    /** Creates the device for a physical info and appends it to the list. */
    method OpenOne(infos: seq<Info>, index: nat, list: seq<nat>, ghost was: Store) returns (ok: bool, longer: seq<nat>)
      requires index < |infos| && infos[index].path != "" && |list| == |Physical(infos, index)|
      requires Opening(infos, index, list, was)
      modifies this`devices, this`borrowed, this`nextHandle, hal
      ensures Opening(infos, if ok then index + 1 else index, longer, was)
      ensures |longer| == if ok then |list| + 1 else |list|
      ensures ok <==> hal.Succeed(old(hal.calls), 3)
      ensures ok ==> hal.calls == old(hal.calls) + 3
    {
      var h := nextHandle;
      ghost var now := Objects();
      ok := NewGpuDevice(|list|, index, Members(cpu.devices) + Members(list));
      longer := list;
      if ok {
        OpeningNext(infos, index, list, was, now);
        longer := list + [h];
      } else {
        assert Objects() == now;
      }
    }

    /** Releases every device created so far. */
    method RollBack(ghost infos: seq<Info>, ghost index: nat, list: seq<nat>, ghost was: Store)
      requires Opening(infos, index, list, was)
      modifies this`devices, hal`live
      ensures Books(GpuTransients()) && Kept(was, Objects()) && devices == was.devices && Explained(Members(cpu.devices))
    {
      ghost var rest := DropAll(list, Members(cpu.devices) + Members(list), GpuTransients());
      assert rest == Members(cpu.devices) by {
        assert forall h :: h in Members(list) ==> h >= was.next;
      }
      assert forall h :: h in was.devices ==> h !in Members(list);
      assert forall h :: h in Members(list) ==> h !in devices;
      assert devices.Keys == was.devices.Keys;
    }

    /** One turn of the loop: an info without a path is skipped, and a failure rolls everything back. */
    method Turn(infos: seq<Info>, index: nat, list: seq<nat>, ghost was: Store) returns (ok: bool, longer: seq<nat>)
      requires index < |infos| && |list| == |Physical(infos, index)| && Opening(infos, index, list, was)
      modifies this`devices, this`borrowed, this`nextHandle, hal
      ensures ok ==> Opening(infos, index + 1, longer, was) && |longer| == |Physical(infos, index + 1)| <= |list| + 1
      ensures !ok ==> Books(GpuTransients()) && Kept(was, Objects()) && devices == was.devices && Explained(Members(cpu.devices))
      ensures ok <==> infos[index].path == "" || hal.Succeed(old(hal.calls), 3)
      ensures ok ==> hal.calls == old(hal.calls) + if infos[index].path == "" then 0 else 3
    {
      if infos[index].path == "" {
        OpeningGrows(infos, index, index + 1, list, was);
        return true, list;
      }
      ok, longer := OpenOne(infos, index, list, was);
      if !ok {
        RollBack(infos, index, longer, was);
      }
    }

    /** The enumeration loop. A failure at any device releases every device created before it. */
    method OpenDevices(infos: seq<Info>, count: nat) returns (ok: bool, list: seq<nat>)
      requires count <= |Physical(infos, |infos|)|
      requires Books(GpuTransients()) && DevicesValid() && gpu.devices == []
      modifies this`devices, this`borrowed, this`nextHandle, hal
      ensures ok ==> |list| == count && Opening(infos, |infos|, list, old(Objects()))
      ensures !ok ==> Books(GpuTransients()) && Kept(old(Objects()), Objects())
      ensures !ok ==> devices == old(devices) && Explained(Members(cpu.devices))
      ensures ok <==> hal.Succeed(old(hal.calls), 3 * count)
    {
      ghost var was := Objects();
      var index := 0;
      list := [];
      OpeningStarts(infos);
      while index < |infos| && |list| < count
        invariant index <= |infos| && |list| <= count && |list| == |Physical(infos, index)|
        invariant Opening(infos, index, list, was)
        invariant hal.calls == old(hal.calls) + 3 * |list| && hal.Succeed(old(hal.calls), 3 * |list|)
      {
        ghost var before := |list|;
        ok, list := Turn(infos, index, list, was);
        if !ok {
          hal.SucceedSplit(old(hal.calls), 3 * before, 3);
          return false, [];
        }
        index := index + 1;
      }
      OpeningGrows(infos, index, |infos|, list, was);
      ok := true;
    }

    /** Frees the info array and publishes the devices with the driver. */
    method InstallGpu(ghost infos: seq<Info>, list: seq<nat>, ghost was: Store)
      requires Opening(infos, |infos|, list, was) && !gpu.driver
      requires AcceleratorValid(cpu, false)
      requires |list| == var all := |Physical(infos, |infos|)|; if all < MAX_DEVICES then all else MAX_DEVICES
      modifies this`gpu, hal`live
      ensures Books({}) && DevicesValid() && gpu.initialized && Enumerates(infos, gpu.devices, devices)
    {
      hal.Release(InfoArray);
      gpu := Accelerator(list, |list|, true, true);
    }

    /** Gives the info array and the driver back. */
    method AbandonGpu()
      requires Books(GpuTransients()) && !gpu.driver
      modifies hal`live
      ensures Books({})
    {
      hal.Release(InfoArray);
      hal.Release(Driver(true));
    }

    /** What follows the device query: select the physical devices and open them. */
    method GpuEnumerate(infos: seq<Info>) returns (status: Status)
      requires Books(GpuTransients()) && DevicesValid() && !gpu.initialized
      modifies this`gpu, this`devices, this`borrowed, this`nextHandle, hal
      ensures Books({}) && DevicesValid() && Kept(old(Objects()), Objects())
      ensures status == Ok || status == Unavailable || status == HalError
      ensures status == Unavailable <==> Physical(infos, |infos|) == []
      ensures status != Ok ==> gpu == old(gpu) && devices == old(devices)
      ensures status == Ok ==> gpu.initialized && Enumerates(infos, gpu.devices, devices)
      ensures status == Ok <==> Physical(infos, |infos|) != [] && hal.Succeed(old(hal.calls), 3 * Exposed(infos))
    {
      var physical := CountPhysical(infos);
      if |infos| == 0 || physical == 0 {
        AbandonGpu();
        return Unavailable;
      }
      var count := if physical < MAX_DEVICES then physical else MAX_DEVICES;
      var ok, list := OpenDevices(infos, count);
      if !ok {
        assert Members(cpu.devices) + Members(gpu.devices) == Members(cpu.devices);
        AbandonGpu();
        return HalError;
      }
      InstallGpu(infos, list, old(Objects()));
      return Ok;
    }

    /** The part of GPU initialization that runs once the shared state is held. `registered` is the
        status code of the driver module registration, 6 being "already exists". */
    method GpuOpen(registered: nat, infos: seq<Info>) returns (status: Status)
      requires Books({}) && DevicesValid() && !gpu.initialized
      modifies this`gpu, this`devices, this`borrowed, this`nextHandle, hal
      ensures Books({}) && DevicesValid() && Kept(old(Objects()), Objects())
      ensures status == Ok || status == Unavailable || status == HalError
      ensures status != Ok ==> gpu == old(gpu) && devices == old(devices)
      ensures status == Unavailable ==> Physical(infos, |infos|) == []
      ensures status == Ok ==> gpu.initialized && Enumerates(infos, gpu.devices, devices) && Physical(infos, |infos|) != []
      ensures registered != 0 && registered != 6 ==> status == HalError
      ensures status == Ok <==> && (registered == 0 || registered == 6) && Physical(infos, |infos|) != []
                                && hal.Succeed(old(hal.calls), 2 + 3 * Exposed(infos))
      ensures status == Unavailable <==> (registered == 0 || registered == 6) && hal.Succeed(old(hal.calls), 2) && Physical(infos, |infos|) == []
    {
      if registered != 0 && registered != 6 {
        return HalError;
      }
      var ok := hal.Create(Driver(true));
      if !ok {
        return HalError;
      }
      ok := hal.Create(InfoArray);
      if !ok {
        hal.Release(Driver(true));
        return HalError;
      }
      status := GpuEnumerate(infos);
    }

    method GpuInitialize(registered: nat, infos: seq<Info>) returns (status: Status)
      requires Valid()
      modifies this, hal
      ensures Valid() && cpu == old(cpu)
      ensures status == AlreadyExists <==> old(gpu.initialized)
      ensures status == Unavailable ==> Physical(infos, |infos|) == []
      ensures status != Ok ==> Restored(true, old(hal.live), old(gpu), old(devices), old(borrowed), old(initCount))
      ensures status == Ok ==> Opened(true, old(devices), old(borrowed)) && Enumerates(infos, gpu.devices, devices) && gpu.devices != []
      ensures registered != 0 && registered != 6 ==> status != Ok
      ensures status == Ok <==> && !old(gpu.initialized) && (registered == 0 || registered == 6) && Physical(infos, |infos|) != []
                                && hal.Succeed(old(hal.calls), (if old(sharedInitialized) then 2 else 5) + 3 * Exposed(infos))
    {
      if gpu.initialized {
        return AlreadyExists;
      }
      ghost var live := hal.live;
      assert Exact(live, sharedInitialized, cpu.driver, gpu.driver, devices);
      var ok := EnsureSharedState();
      if !ok {
        return HalError;
      }
      status := GpuOpen(registered, infos);
      if status != Ok {
        ReleaseSharedState();
        ExactUnique(live, hal.live, sharedInitialized, cpu.driver, gpu.driver, devices);
      }
    }

    lemma TablesApart()
      requires AcceleratorValid(cpu, false) && AcceleratorValid(gpu, true)
      ensures Members(cpu.devices) !! Members(gpu.devices)
    {
      assert forall h :: h in Members(cpu.devices) ==> !devices[h].gpu;
      assert forall h :: h in Members(gpu.devices) ==> devices[h].gpu;
    }

    /** Empties the table of an accelerator and gives back its driver. */
    method ClearTable(onGpu: bool, ghost rest: set<nat>)
      requires Books({}) && Explained(rest) && (if onGpu then gpu else cpu).driver
      requires rest == Members(if onGpu then cpu.devices else gpu.devices)
      requires if onGpu then AcceleratorValid(cpu, false) else AcceleratorValid(gpu, true)
      modifies this`cpu, this`gpu, hal`live
      ensures Books({}) && DevicesValid()
      ensures (if onGpu then gpu else cpu) == Accelerator([], 0, false, false)
      ensures if onGpu then cpu == old(cpu) else gpu == old(gpu)
    {
      hal.Release(Driver(onGpu));
      if onGpu {
        gpu := Accelerator([], 0, false, false);
      } else {
        cpu := Accelerator([], 0, false, false);
      }
      assert Members(cpu.devices) + Members(gpu.devices) == rest;
    }

    /** The part of either shutdown that gives back the table's references. */
    method Close(onGpu: bool)
      requires Books({}) && DevicesValid() && (if onGpu then gpu else cpu).initialized
      modifies this`cpu, this`gpu, this`devices, hal`live
      ensures Books({}) && DevicesValid()
      ensures (if onGpu then gpu else cpu) == Accelerator([], 0, false, false)
      ensures if onGpu then cpu == old(cpu) else gpu == old(gpu)
      ensures forall h :: h in devices <==>
                h in old(devices) && (borrowed[h] > 0 || h in Members(if onGpu then cpu.devices else gpu.devices))
    {
      var list := if onGpu then gpu.devices else cpu.devices;
      ghost var kept := if onGpu then cpu.devices else gpu.devices;
      TablesApart();
      ghost var rest := DropAll(list, Members(cpu.devices) + Members(gpu.devices), {});
      assert rest == Members(kept);
      assert forall k :: 0 <= k < |kept| ==> kept[k] in Members(kept);
      ClearTable(onGpu, rest);
    }

    method Shutdown(onGpu: bool) returns (status: Status)
      requires Valid()
      modifies this, hal
      ensures Valid() && !(if onGpu then gpu else cpu).initialized
      ensures if onGpu then cpu == old(cpu) else gpu == old(gpu)
      ensures status == if old((if onGpu then gpu else cpu).initialized) then Ok else InvalidArgument
      ensures status != Ok ==> hal.live == old(hal.live) && devices == old(devices)
      ensures status == Ok ==> forall h :: h in devices <==>
                h in old(devices) && (old(borrowed)[h] > 0 || h in Members(if onGpu then cpu.devices else gpu.devices))
    {
      if !(if onGpu then gpu else cpu).initialized {
        return InvalidArgument;
      }
      Close(onGpu);
      ReleaseSharedState();
      return Ok;
    }

    // --- clients ---

    /** A client or child object takes another reference to a live device. */
    method DeviceRetain(h: nat)
      requires Valid() && h in devices
      modifies this`devices, this`borrowed
      ensures Valid() && devices == old(devices)[h := old(devices)[h].(strong := old(devices)[h].strong + 1)]
      ensures borrowed == old(borrowed)[h := old(borrowed)[h] + 1]
    {
      devices := devices[h := devices[h].(strong := devices[h].strong + 1)];
      borrowed := borrowed[h := borrowed[h] + 1];
    }

    /** It gives back a reference it took; the device dies here if its table entry is gone already. */
    method DeviceRelease(h: nat)
      requires Valid() && h in devices && borrowed[h] > 0
      modifies this`devices, this`borrowed, hal`live
      ensures Valid() && borrowed == old(borrowed)[h := old(borrowed)[h] - 1]
      ensures h !in devices <==> old(borrowed)[h] == 1 && h !in Members(cpu.devices) + Members(gpu.devices)
      ensures forall x :: x != h ==> (x in devices <==> x in old(devices)) && (x in devices ==> devices[x] == old(devices)[x])
    {
      borrowed := borrowed[h := borrowed[h] - 1];
      DropStrong(h, {});
    }

    /** The ledger, read off the state: the shared objects while an accelerator is up, a driver for each that
        is, three references for each live device, and nothing else. */
    lemma LedgerExact()
      requires Valid()
      ensures VmInstance in hal.live <==> cpu.initialized || gpu.initialized
      ensures ProactorPool in hal.live <==> cpu.initialized || gpu.initialized
      ensures (Driver(false) in hal.live <==> cpu.initialized) && (Driver(true) in hal.live <==> gpu.initialized)
      ensures forall h :: h in devices <==> HalDevice(h) in hal.live
      ensures forall h :: h in devices <==> Group(h) in hal.live
      ensures forall h :: h in devices <==> Allocator(h) in hal.live
      ensures forall r :: r in hal.live ==> r in {VmInstance, ProactorPool, Driver(false), Driver(true)} || OfDevice(r)
    {
    }

    /** With both accelerators shut down and every borrowed reference returned, the runtime owns nothing. */
    lemma NothingHeld()
      requires Valid() && !cpu.initialized && !gpu.initialized && forall h :: h in borrowed ==> borrowed[h] == 0
      ensures hal.live == {} && devices == map[] && !sharedInitialized
    {
      assert forall h :: h in devices ==> h in Members(cpu.devices) + Members(gpu.devices);
      assert forall h :: h !in devices;
    }

    /** One call; devices that are not alive cannot be borrowed or returned. */
    method Perform(c: Call)
      requires Valid()
      modifies this, hal
      ensures Valid()
      ensures (forall n :: hal.script(n)) ==>
                cpu.initialized == UpAfter(c, old(cpu.initialized), false) && gpu.initialized == UpAfter(c, old(gpu.initialized), true)
      ensures c.Borrow? && c.h in old(devices) ==> borrowed == old(borrowed)[c.h := old(borrowed)[c.h] + 1]
      ensures c.Return? && c.h in old(devices) && old(borrowed)[c.h] > 0 ==> borrowed == old(borrowed)[c.h := old(borrowed)[c.h] - 1]
    {
      match c {
        case InitializeCpu(loaders) => var _ := CpuInitialize(loaders);
        case InitializeGpu(registered, infos) => var _ := GpuInitialize(registered, infos);
        case ShutDown(onGpu) => var _ := Shutdown(onGpu);
        case Borrow(h) =>
          if h in devices {
            DeviceRetain(h);
          }
        case Return(h) =>
          if h in devices && borrowed[h] > 0 {
            DeviceRelease(h);
          }
      }
    }
  }
  datatype Call =
    | InitializeCpu(loaders: nat) | InitializeGpu(registered: nat, infos: seq<Info>) | ShutDown(onGpu: bool)
    | Borrow(h: nat) | Return(h: nat)

  /** Whether an accelerator that was `up` or not is up after a call in which no HAL call fails. */
  function UpAfter(c: Call, up: bool, onGpu: bool): bool {
    match c
    case InitializeCpu(_) => !onGpu || up
    case InitializeGpu(registered, infos) => (onGpu && (registered == 0 || registered == 6) && Physical(infos, |infos|) != []) || up
    case ShutDown(g) => g != onGpu && up
    case _ => up
  }

  function Up(calls: seq<Call>, n: nat, onGpu: bool): bool
    requires n <= |calls|
  {
    n > 0 && UpAfter(calls[n - 1], Up(calls, n - 1, onGpu), onGpu)
  }

  /** Any interleaving of initialize and shutdown calls, and of clients borrowing and returning live
      devices, with any pattern of HAL failures, ends with the counter and the ledger exact; if none fails,
      the accelerators that are up are those initialized and not shut down since. */
  method Interleave(script: nat -> bool, calls: seq<Call>) returns (g: Globals)
    ensures g.Valid()
    ensures !g.cpu.initialized && !g.gpu.initialized && (forall h :: h in g.borrowed ==> g.borrowed[h] == 0) ==> g.hal.live == {}
    ensures (forall n :: script(n)) ==> g.cpu.initialized == Up(calls, |calls|, false) && g.gpu.initialized == Up(calls, |calls|, true)
  {
    var hal := new Hal(script);
    g := new Globals(hal);
    for i := 0 to |calls|
      invariant g.Valid() && fresh(g) && fresh(g.hal) && g.hal.script == script
      invariant (forall n :: script(n)) ==> g.cpu.initialized == Up(calls, i, false) && g.gpu.initialized == Up(calls, i, true)
    {
      g.Perform(calls[i]);
    }
    if !g.cpu.initialized && !g.gpu.initialized && (forall h :: h in g.borrowed ==> g.borrowed[h] == 0) {
      g.NothingHeld();
    }
  }
}
