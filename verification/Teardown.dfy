/** What every object owns, in which order its parts die, and whose references are whose, stated by the
    kinds of the objects and the calls made alone. */
module Teardown {
  import opened Ownership
  import opened Objects

  /** The kinds of the fields of `a`, in drop order. */
  function FieldKinds(w: World, a: nat): seq<Kind>
    requires Sized(w) && a < |w.g| && (forall i :: 0 <= i < |w.g[a]| ==> w.g[a][i] < |w.g|)
  {
    seq(|w.g[a]|, i requires 0 <= i < |w.g[a]| => w.kinds[w.g[a][i]])
  }

  /** What an object of kind `k` owns, in the order in which it lets go of it. */
  ghost predicate Owning(k: Kind, fields: seq<Kind>) {
    && (k == Device ==> fields == [HalAllocator, HalDeviceGroup, HalDevice])
    && (k == Buffer ==> fields == [HalBuffer, Device])
    && (k == PooledBuffer ==> fields == [HalBuffer, HalNotification, HalAllocator, HalPool, Device])
    && (k == Semaphore ==> fields == [HalSemaphore, Device])
    && (k == Stream ==> fields == [Semaphore, Device])
    && (k == Executable ==> fields == [HalExecutable, HalExecutableCache, Device])
    && (k == Module ==> fields == [VmContext, HalVmModule, BytecodeVmModule, Device])
    && (k == Function ==> fields == [Module])
    && (fields == [] <==> HalOnly(k))
  }

  predicate HalOnly(k: Kind) {
    k in {HalAllocator, HalDeviceGroup, HalDevice, HalBuffer, HalNotification, HalPool, HalSemaphore,
          HalExecutable, HalExecutableCache, VmContext, HalVmModule, BytecodeVmModule}
  }

  lemma LaidOut(w: World, a: nat)
    requires Sized(w) && Shaped(w) && a < |w.g|
    ensures (forall i :: 0 <= i < |w.g[a]| ==> w.g[a][i] < |w.g|) && FieldKinds(w, a) == Layout(w.kinds[a])
  {
    assert HasLayout(w, a);
  }

  lemma LayoutOwning(k: Kind)
    ensures Owning(k, Layout(k))
  {
  }

  /** In every reachable world every object owns what its kind says. */
  lemma OwnsByKind(calls: seq<Call>, a: nat)
    requires Exec(calls).At? && a < |Exec(calls).world.g|
    ensures var w := Exec(calls).world;
            && Sized(w) && (forall i :: 0 <= i < |w.g[a]| ==> w.g[a][i] < |w.g|)
            && Owning(w.kinds[a], FieldKinds(w, a))
  {
    var w := Exec(calls).world;
    ReachableSound(calls);
    LaidOut(w, a);
    LayoutOwning(w.kinds[a]);
  }

  /** The order in which the parts of an object must die: the HAL objects of a handle object before its
      device, an executable before its cache, a context before the HAL module before the bytecode module,
      a device's allocator before its group before the HAL device.  The allocator that a pool shares with
      the device is no part of its buffer. */
  predicate MustPrecede(owner: Kind, first: Kind, second: Kind) {
    || (second == Device && HalOnly(first) && first != HalAllocator && owner != Device)
    || (first == HalExecutable && second == HalExecutableCache)
    || (first == VmContext && (second == HalVmModule || second == BytecodeVmModule))
    || (first == HalVmModule && second == BytecodeVmModule)
    || (owner == Device && first == HalAllocator && (second == HalDeviceGroup || second == HalDevice))
    || (owner == Device && first == HalDeviceGroup && second == HalDevice)
    || (first == HalBuffer && (second == HalNotification || second == HalPool))
    || (first == HalNotification && second == HalPool)
  }

  lemma KindPlaces(k: Kind, i: nat, j: nat)
    requires i < |Layout(k)| && j < |Layout(k)| && MustPrecede(k, Layout(k)[i], Layout(k)[j])
    ensures i < j && !Shares(k, i) && IsHal(Layout(k)[i])
  {
  }

  /** Teardown order by kind, in every run: of two parts `x` and `y` of `a` that must die in this order, `y` is
      dead only if `a`, then `x`, then `y` died, and what `y` owns is dead only after that. */
  lemma TeardownByKind(calls: seq<Call>, a: nat, x: nat, y: nat)
    requires Exec(calls).At?
    ensures var w := Exec(calls).world;
            && Sized(w)
            && (a < |w.g| && x in w.g[a] && y in w.g[a] && x < |w.g| && y < |w.g| && MustPrecede(w.kinds[a], w.kinds[x], w.kinds[y]) ==>
                  DiesFirst(w, a, x, y))
  {
    var w := Exec(calls).world;
    ReachableSound(calls);
    if a < |w.g| && x in w.g[a] && y in w.g[a] && x < |w.g| && y < |w.g| && MustPrecede(w.kinds[a], w.kinds[x], w.kinds[y]) {
      var i: nat :| i < |w.g[a]| && w.g[a][i] == x;
      var j: nat :| j < |w.g[a]| && w.g[a][j] == y;
      assert HasLayout(w, a) && HasLayout(w, x);
      KindPlaces(w.kinds[a], i, j);
      TeardownIn(w, a, i, j);
    }
  }

  // --- whose references are whose ---

  /** `x` is the allocator of the device `d`. */
  predicate AllocatorOf(w: World, d: nat, x: nat) {
    Sized(w) && d < |w.g| && x < |w.g| && x in w.g[d] && w.kinds[x] == HalAllocator
  }

  /** The references to `x` outside the objects that a call adds or takes away.  A new object starts with
      one, and what moves into it is no longer outside. */
  function Change(w: World, c: Call, x: nat): int
    requires Sized(w)
  {
    match c
    case Create(_) => if x == |w.g| then 1 else 0
    case Wrap(_, fields) => if x == |w.g| then 1 else if x in fields then -1 else 0
    case Retain(y) => if x == y then 1 else 0
    case Release(y) => if x == y then -1 else 0
    case VirtualRelease(y) => if x == y then -1 else 0
    case RetainAllocator(y) => if x == y || AllocatorOf(w, y, x) then 1 else 0
    case ReleaseAllocator(y) => if x == y || AllocatorOf(w, y, x) then -1 else 0
    case Register(_) => 0
    case Shutdown(y) => if x == y then -1 else 0
  }

  function Entered(c: Call, x: nat): int {
    if c == Register(x) then 1 else if c == Shutdown(x) then -1 else 0
  }

  /** The sum over a run of calls. */
  ghost function Outside(calls: seq<Call>, x: nat): int
    decreases |calls|
  {
    if calls == [] || !Exec(calls[..|calls| - 1]).At? then 0
    else
      var w := Exec(calls[..|calls| - 1]).world;
      Outside(calls[..|calls| - 1], x) + if Sized(w) then Change(w, calls[|calls| - 1], x) else 0
  }

  ghost function Entries(calls: seq<Call>, x: nat): int
    decreases |calls|
  {
    if calls == [] then 0 else Entries(calls[..|calls| - 1], x) + Entered(calls[|calls| - 1], x)
  }

  function Get(s: seq<nat>, x: nat): nat {
    if x < |s| then s[x] else 0
  }

  lemma DeviceAllocator(w: World, d: nat, x: nat)
    requires Sound(w) && Live(w, d) && w.kinds[d] == Device && |w.g[d]| == 3
    ensures AllocatorOf(w, d, x) <==> x == w.g[d][0]
  {
    assert HasLayout(w, d);
    assert x in w.g[d] <==> x == w.g[d][0] || x == w.g[d][1] || x == w.g[d][2];
  }

  lemma WrapChange(w: World, k: Kind, fields: seq<nat>, x: nat)
    requires Sound(w) && Legal(w, Wrap(k, fields))
    ensures Get(AddNode(w, k, fields).roots, x) == Get(w.roots, x) + Change(w, Wrap(k, fields), x)
  {
    if x in fields {
      var i: nat :| i < |fields| && fields[i] == x;
      assert Owned(w, k, fields, i);
      assert w.roots[x] > 0;
    }
  }

  lemma AllocatorChange(w: World, d: nat, x: nat, c: Call)
    requires Sound(w) && Legal(w, c) && Acyclic(w.g) && (c == RetainAllocator(d) || c == ReleaseAllocator(d))
    ensures Get(Apply(w, c).roots, x) == Get(w.roots, x) + Change(w, c, x) && Apply(w, c).table == w.table
  {
    DeviceAllocator(w, d, x);
    assert HasLayout(w, d);
  }

  lemma OneChange(w: World, c: Call, x: nat)
    requires Legal(w, c) && Acyclic(w.g) && !c.Wrap? && !c.RetainAllocator? && !c.ReleaseAllocator?
    requires c.Shutdown? ==> w.table[c.x] <= w.roots[c.x]
    ensures Get(Apply(w, c).roots, x) == Get(w.roots, x) + Change(w, c, x)
    ensures Get(Apply(w, c).table, x) == Get(w.table, x) + Entered(c, x)
  {
  }

  lemma StepChange(w: World, c: Call, x: nat)
    requires Sound(w) && Legal(w, c) && Acyclic(w.g)
    ensures Get(Apply(w, c).roots, x) == Get(w.roots, x) + Change(w, c, x)
    ensures Get(Apply(w, c).table, x) == Get(w.table, x) + Entered(c, x)
  {
    match c
    case Wrap(k, fields) => WrapChange(w, k, fields, x);
    case RetainAllocator(d) => AllocatorChange(w, d, x, c);
    case ReleaseAllocator(d) => AllocatorChange(w, d, x, c);
    case _ => OneChange(w, c, x);
  }

  /** The references held outside the objects are exactly those the calls gave and did not take back, and
      the table holds exactly the devices registered and not shut down.  With `CountsExact` every count is
      a number read off the calls. */
  lemma {:induction false} OutsideExact(calls: seq<Call>, x: nat)
    requires Exec(calls).At?
    ensures Get(Exec(calls).world.roots, x) == Outside(calls, x) && Get(Exec(calls).world.table, x) == Entries(calls, x)
    decreases |calls|
  {
    if calls != [] {
      var k := |calls| - 1;
      ReachableSound(calls[..k]);
      OutsideExact(calls[..k], x);
      StepChange(Exec(calls[..k]).world, calls[k], x);
    }
  }
}
