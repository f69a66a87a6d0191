/** A buffer's mapping state over its whole life, against a protocol that its HAL calls must follow. */
module BufferMap {
  import opened Wrappers

  /** The HAL calls a buffer makes. `Release` and `VirtualRelease` consume the HAL buffer. */
  datatype HalCall = MapRange | UnmapRange | Release | VirtualRelease | ReleasePool | ReleaseDevice

  datatype Status = Ok | FailedPrecondition | Unavailable | HalError

  /** `reserved` marks a buffer made by a virtual-memory reservation. */
  datatype Buffer = Buffer(strong: nat, mapped: Option<nat>, pooled: bool, reserved: bool, log: seq<HalCall>)

  function New(pooled: bool, reserved: bool): Buffer {
    Buffer(1, None, pooled, reserved, [])
  }

  // --- what the calls do to the value ---

  /** `ptr` is the address the HAL maps the range at, `None` if it refuses. */
  function Mapped(b: Buffer, ptr: Option<nat>): Buffer {
    if b.mapped.Some? || ptr.None? then b else b.(mapped := ptr, log := b.log + [MapRange])
  }

  function Unmapped(b: Buffer): Buffer {
    if b.mapped.None? then b else b.(mapped := None, log := b.log + [UnmapRange])
  }

  /** The field drops of the last release: mapping, HAL buffer, pool, device. */
  function Dropped(b: Buffer): Buffer {
    var u := Unmapped(b);
    u.(strong := 0, log := (u.log + [Release]) + (if b.pooled then [ReleasePool] else []) + [ReleaseDevice])
  }

  function Released(b: Buffer): Buffer
    requires b.strong > 0
  {
    if b.strong > 1 then b.(strong := b.strong - 1) else Dropped(b)
  }

  /** Takes a reserved buffer apart: the HAL buffer goes to the allocator instead of being released. */
  function TakenApart(b: Buffer): Buffer {
    var u := Unmapped(b);
    u.(strong := 0, log := u.log + (if b.pooled then [ReleasePool] else []) + [VirtualRelease] + [ReleaseDevice])
  }

  // --- the object ---

  class HrxBuffer {
    var strong: nat
    var mapping: Option<nat>
    const pooled: bool
    const reserved: bool
    var log: seq<HalCall>

    constructor (pooled: bool, reserved: bool)
      ensures Value() == New(pooled, reserved)
    {
      strong, mapping, log := 1, None, [];
      this.pooled, this.reserved := pooled, reserved;
    }

    function Value(): Buffer
      reads this
    {
      Buffer(strong, mapping, pooled, reserved, log)
    }

    method Map(hal: Option<nat>) returns (status: Status, ptr: nat)
      requires strong > 0
      modifies this
      ensures Value() == Mapped(old(Value()), hal)
      ensures status == if old(mapping).Some? then FailedPrecondition else if hal.None? then HalError else Ok
      ensures status == Ok ==> mapping == Some(ptr) == hal && log == old(log) + [MapRange]
      ensures status != Ok ==> Value() == old(Value())
    {
      if mapping.Some? {
        return FailedPrecondition, 0;
      }
      if hal.None? {
        return HalError, 0;
      }
      log := log + [MapRange];
      mapping := hal;
      return Ok, hal.value;
    }

    method Unmap(halOk: bool) returns (status: Status)
      requires strong > 0
      modifies this
      ensures Value() == Unmapped(old(Value())) && mapping.None? && strong == old(strong)
      ensures log == old(log) + if old(mapping).Some? then [UnmapRange] else []
      ensures status == if old(mapping).None? || halOk then Ok else HalError
    {
      var prev := mapping;
      mapping := None;
      match prev {
        case None => status := Ok;
        case Some(_) =>
          log := log + [UnmapRange];
          status := if halOk then Ok else HalError;
      }
    }

    /** The device pointer is the current mapping's, or that of a new mapping of the whole buffer. */
    method GetDevicePtr(hal: Option<nat>) returns (status: Status, ptr: nat)
      requires strong > 0
      modifies this
      ensures Value() == Mapped(old(Value()), hal)
      ensures status == if mapping.Some? then Ok else Unavailable
      ensures ptr == if mapping.Some? then mapping.value else 0
      ensures mapping == (if old(mapping).Some? then old(mapping) else hal) && strong == old(strong)
    {
      if mapping.Some? {
        return Ok, mapping.value;
      }
      if hal.Some? {
        log := log + [MapRange];
        mapping := hal;
        return Ok, hal.value;
      }
      return Unavailable, 0;
    }

    method RetainHandle()
      requires strong > 0
      modifies this
      ensures Value() == old(Value()).(strong := old(strong) + 1)
    {
      strong := strong + 1;
    }

    method ReleaseHandle()
      requires strong > 0
      modifies this
      ensures Value() == Released(old(Value())) && strong == old(strong) - 1
      ensures strong > 0 ==> mapping == old(mapping) && log == old(log)
      ensures strong == 0 ==> && mapping.None?
                              && log == old(log) + (if old(mapping).Some? then [UnmapRange] else [])
                                        + (if pooled then [Release, ReleasePool, ReleaseDevice] else [Release, ReleaseDevice])
    {
      strong := strong - 1;
      if strong > 0 {
        return;
      }
      DropMap();
      log := log + [Release];
      DropPool();
      log := log + [ReleaseDevice];
    }

    /** A caller of virtual-memory release must be the only owner. */
    method VirtualMemoryRelease(halOk: bool) returns (status: Status)
      requires strong == 1
      modifies this
      ensures Value() == TakenApart(old(Value())) && strong == 0 && mapping.None?
      ensures log == old(log) + (if old(mapping).Some? then [UnmapRange] else [])
                     + (if pooled then [ReleasePool, VirtualRelease, ReleaseDevice] else [VirtualRelease, ReleaseDevice])
      ensures status == if halOk then Ok else HalError
    {
      strong := 0;
      DropMap();
      DropPool();
      log := log + [VirtualRelease];
      log := log + [ReleaseDevice];
      status := if halOk then Ok else HalError;
    }

    method DropMap()
      modifies this`mapping, this`log
      ensures Value() == Unmapped(old(Value()))
    {
      if mapping.Some? {
        log := log + [UnmapRange];
        mapping := None;
      }
    }

    method DropPool()
      modifies this`log
      ensures log == old(log) + if pooled then [ReleasePool] else []
    {
      if pooled {
        log := log + [ReleasePool];
      }
    }
  }

  // --- whole lives ---

  datatype Call = Map(hal: Option<nat>) | Unmap | DevicePtr(hal: Option<nat>) | Retain | ReleaseCall | VirtualCall

  /** Clients use a live buffer, and take apart only a reserved one (which has no pool) that they
      alone own. */
  predicate Legal(b: Buffer, c: Call) {
    b.strong > 0 && (c == VirtualCall ==> b.strong == 1 && b.reserved && !b.pooled)
  }

  function Step(b: Buffer, c: Call): Buffer
    requires Legal(b, c)
  {
    match c
    case Map(hal) => Mapped(b, hal)
    case Unmap => Unmapped(b)
    case DevicePtr(hal) => Mapped(b, hal)
    case Retain => b.(strong := b.strong + 1)
    case ReleaseCall => Released(b)
    case VirtualCall => TakenApart(b)
  }

  function Exec(b: Buffer, calls: seq<Call>, n: nat): Option<Buffer>
    requires n <= |calls|
  {
    if n == 0 then Some(b)
    else
      match Exec(b, calls, n - 1)
      case None => None
      case Some(before) => if Legal(before, calls[n - 1]) then Some(Step(before, calls[n - 1])) else None
  }

  /** The references that clients own after `n` calls: the first one, one more for each retain, one less
      for each call that gives one back. */
  function References(calls: seq<Call>, n: nat): int
    requires n <= |calls|
  {
    if n == 0 then 1
    else
      References(calls, n - 1) + match calls[n - 1]
                                 case Retain => 1
                                 case ReleaseCall => -1
                                 case VirtualCall => -1
                                 case _ => 0
  }

  /** Over every life the count is the number of references owned, so the buffer is dead exactly when the
      last of them was given back. */
  lemma {:induction false} LifeCounts(pooled: bool, reserved: bool, calls: seq<Call>, n: nat)
    requires n <= |calls| && Exec(New(pooled, reserved), calls, n).Some?
    ensures var b := Exec(New(pooled, reserved), calls, n).value;
            b.strong == References(calls, n) && b.pooled == pooled && b.reserved == reserved
  {
    if n > 0 {
      LifeCounts(pooled, reserved, calls, n - 1);
    }
  }

  /** What the last call adds to the log. */
  function Farewell(mapped: bool, virtual: bool, pooled: bool): seq<HalCall> {
    (if mapped then [UnmapRange] else [])
    + (if virtual then [VirtualRelease, ReleaseDevice] else if pooled then [Release, ReleasePool, ReleaseDevice] else [Release, ReleaseDevice])
  }

  lemma StepEnds(b: Buffer, c: Call)
    requires Legal(b, c) && Step(b, c).strong == 0
    ensures b.strong == 1 && (c == ReleaseCall || c == VirtualCall)
    ensures Step(b, c).log == b.log + Farewell(b.mapped.Some?, c == VirtualCall, b.pooled)
  {
    var log := Unmapped(b).log;
    assert log == b.log + if b.mapped.Some? then [UnmapRange] else [];
    if c == VirtualCall {
      assert Step(b, c).log == log + [VirtualRelease, ReleaseDevice];
    } else if b.pooled {
      assert Step(b, c).log == log + [Release, ReleasePool, ReleaseDevice];
    } else {
      assert Step(b, c).log == log + [Release, ReleaseDevice];
    }
  }

  /** How a dead buffer died: by the call that gave back its only reference, which unmapped it and then let
      go of the HAL buffer, the pool if there is one, and the device, in that order; a virtual-memory
      release, and only it, hands the HAL buffer over instead. */
  lemma LifeEnds(pooled: bool, reserved: bool, calls: seq<Call>)
    requires Exec(New(pooled, reserved), calls, |calls|).Some? && Exec(New(pooled, reserved), calls, |calls|).value.strong == 0
    ensures |calls| > 0 && (calls[|calls| - 1] == ReleaseCall || calls[|calls| - 1] == VirtualCall)
    ensures References(calls, |calls| - 1) == 1 && Exec(New(pooled, reserved), calls, |calls| - 1).Some?
    ensures var before := Exec(New(pooled, reserved), calls, |calls| - 1).value;
            Exec(New(pooled, reserved), calls, |calls|).value.log
            == before.log + Farewell(before.mapped.Some?, calls[|calls| - 1] == VirtualCall, pooled)
  {
    assert |calls| > 0;
    LifeCounts(pooled, reserved, calls, |calls| - 1);
    StepEnds(Exec(New(pooled, reserved), calls, |calls| - 1).value, calls[|calls| - 1]);
  }

  // --- the protocol ---

  datatype Phase = Idle | Active | Consumed | Poolless | Gone | Broken

  /** At most one mapping at a time; the HAL buffer is consumed once, unmapped; the pool goes after it
      and the device last; nothing follows. */
  function Advance(p: Phase, c: HalCall): Phase {
    match (p, c)
    case (Idle, MapRange) => Active
    case (Active, UnmapRange) => Idle
    case (Idle, Release) => Consumed
    case (Idle, VirtualRelease) => Consumed
    case (Consumed, ReleasePool) => Poolless
    case (Consumed, ReleaseDevice) => Gone
    case (Poolless, ReleaseDevice) => Gone
    case _ => Broken
  }

  function Scan(log: seq<HalCall>): Phase {
    if log == [] then Idle else Advance(Scan(log[..|log| - 1]), log[|log| - 1])
  }

  ghost predicate Follows(b: Buffer) {
    Scan(b.log) == if b.strong == 0 then Gone else if b.mapped.Some? then Active else Idle
  }

  lemma ScanNext(log: seq<HalCall>, c: HalCall)
    ensures Scan(log + [c]) == Advance(Scan(log), c)
  {
    assert (log + [c])[..|log|] == log;
  }

  lemma UnmappedFollows(b: Buffer)
    requires b.strong > 0 && Follows(b)
    ensures Follows(Unmapped(b)) && Scan(Unmapped(b).log) == Idle
  {
    ScanNext(b.log, UnmapRange);
  }

  lemma DroppedFollows(b: Buffer)
    requires b.strong > 0 && Follows(b)
    ensures Follows(Dropped(b))
  {
    UnmappedFollows(b);
    var log := Unmapped(b).log;
    ScanNext(log, Release);
    ScanNext(log + [Release], ReleasePool);
    if b.pooled {
      ScanNext(log + [Release] + [ReleasePool], ReleaseDevice);
    } else {
      assert log + [Release] + [] == log + [Release];
      ScanNext(log + [Release], ReleaseDevice);
    }
  }

  lemma TakenApartFollows(b: Buffer)
    requires b.strong > 0 && Follows(b) && !b.pooled
    ensures Follows(TakenApart(b))
  {
    UnmappedFollows(b);
    var log := Unmapped(b).log;
    assert log + [] == log;
    ScanNext(log, VirtualRelease);
    ScanNext(log + [VirtualRelease], ReleaseDevice);
  }

  lemma StepFollows(b: Buffer, c: Call)
    requires Legal(b, c) && Follows(b)
    ensures Follows(Step(b, c))
  {
    match c
    case Map(hal) => ScanNext(b.log, MapRange);
    case Unmap => UnmappedFollows(b);
    case DevicePtr(hal) => ScanNext(b.log, MapRange);
    case Retain =>
    case ReleaseCall => if b.strong == 1 { DroppedFollows(b); }
    case VirtualCall => TakenApartFollows(b);
  }

  /** Every life follows the protocol. */
  lemma {:induction false} LifeFollows(pooled: bool, reserved: bool, calls: seq<Call>, n: nat)
    requires n <= |calls| && Exec(New(pooled, reserved), calls, n).Some?
    ensures Follows(Exec(New(pooled, reserved), calls, n).value)
  {
    if n > 0 {
      LifeFollows(pooled, reserved, calls, n - 1);
      StepFollows(Exec(New(pooled, reserved), calls, n - 1).value, calls[n - 1]);
    }
  }

  // --- what the protocol means ---

  predicate Consumes(c: HalCall) {
    c == Release || c == VirtualRelease
  }

  function Count(log: seq<HalCall>, f: HalCall -> bool): nat {
    if log == [] then 0 else Count(log[..|log| - 1], f) + if f(log[|log| - 1]) then 1 else 0
  }

  /** Along an unbroken log the mappings made and undone differ by the live one, and the HAL buffer and
      the device reference are consumed at most once: exactly once by the end. */
  lemma {:induction false} ScanCounts(log: seq<HalCall>)
    requires Scan(log) != Broken
    ensures Count(log, c => c == MapRange) == Count(log, c => c == UnmapRange) + if Scan(log) == Active then 1 else 0
    ensures Count(log, Consumes) == if Scan(log) == Idle || Scan(log) == Active then 0 else 1
    ensures Count(log, c => c == ReleaseDevice) == if Scan(log) == Gone then 1 else 0
  {
    if log != [] {
      ScanCounts(log[..|log| - 1]);
    }
  }

  /** Balance over every life: at most one live mapping; after the last release every mapping was undone
      and the HAL buffer was consumed exactly once, by a release or by a virtual-memory release. */
  lemma MapsBalance(pooled: bool, reserved: bool, calls: seq<Call>)
    requires Exec(New(pooled, reserved), calls, |calls|).Some?
    ensures var b := Exec(New(pooled, reserved), calls, |calls|).value;
            && Count(b.log, c => c == MapRange) ==
                 Count(b.log, c => c == UnmapRange) + (if b.strong > 0 && b.mapped.Some? then 1 else 0)
            && Count(b.log, Consumes) == (if b.strong == 0 then 1 else 0)
            && Count(b.log, c => c == ReleaseDevice) == (if b.strong == 0 then 1 else 0)
  {
    LifeFollows(pooled, reserved, calls, |calls|);
    ScanCounts(Exec(New(pooled, reserved), calls, |calls|).value.log);
  }

  /** Teardown order in every prefix of every life: the HAL buffer is never consumed while mapped, and
      the device reference goes only after it. */
  lemma {:induction false} TeardownInOrder(log: seq<HalCall>, i: nat)
    requires Scan(log) != Broken && i < |log|
    ensures Scan(log[..i]) != Broken
    ensures Consumes(log[i]) ==> Scan(log[..i]) == Idle
    ensures log[i] == ReleasePool || log[i] == ReleaseDevice ==> Count(log[..i], Consumes) == 1
    ensures log[i] == ReleaseDevice ==> i == |log| - 1
  {
    var before := log[..|log| - 1];
    if i < |log| - 1 {
      TeardownInOrder(before, i);
      assert before[..i] == log[..i];
      assert i == |before| - 1 ==> before == log[..i] + [log[i]];
    } else {
      ScanCounts(before);
    }
  }
}
