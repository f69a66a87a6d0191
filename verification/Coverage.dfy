/** What the clients of the ownership model may do: a reference that is owned can be given back, and a
    stream-allocated buffer can die while its allocator is held from outside. */
module Coverage {
  import opened Ownership
  import opened Objects

  /** How many references a client must keep: one to a device for each of its allocator references. */
  function Bound(w: World, x: nat): nat
    requires Sized(w) && x < |w.g|
  {
    if w.kinds[x] == Device && |w.g[x]| == 3 && w.g[x][0] < |w.g| then w.roots[w.g[x][0]] else 0
  }

  lemma AllocatorFields(k: Kind, i: nat)
    requires i < |Layout(k)| && Layout(k)[i] == HalAllocator
    ensures k == Device || Shares(k, i)
  {
  }

  /** Nobody outside holds a HAL object of a handle object that is no device. */
  lemma FieldFree(w: World, x: nat, i: nat)
    requires Sized(w) && Shaped(w) && Housed(w) && ClientTied(w) && x < |w.g| && w.kinds[x] != Device && i < |w.g[x]|
    requires w.g[x][i] < |w.g| && Leaf(w.g, w.g[x][i]) && !Shares(w.kinds[x], i)
    ensures w.roots[w.g[x][i]] == 0
  {
    assert HasLayout(w, x) && Home(w.g, x, i);
    if w.kinds[w.g[x][i]] == HalAllocator {
      AllocatorFields(w.kinds[x], i);
    }
  }

  lemma HandleSpare(w: World, x: nat)
    requires Sized(w) && Shaped(w) && Housed(w) && ClientTied(w) && x < |w.g| && w.kinds[x] != Device
    ensures Spare(w, x) <==> Clients(w, x) > 0
  {
    forall i | 0 <= i < |w.g[x]| && w.g[x][i] < |w.g| && Leaf(w.g, w.g[x][i]) && !Shares(w.kinds[x], i)
      ensures w.roots[w.g[x][i]] == 0
    {
      FieldFree(w, x, i);
    }
  }

  lemma DeviceSpare(w: World, x: nat)
    requires Sized(w) && x < |w.g| && w.kinds[x] == Device && |w.g[x]| == 3
    requires w.g[x][0] < |w.g| && w.g[x][1] < |w.g| && w.g[x][2] < |w.g| && Leaf(w.g, w.g[x][0])
    requires w.roots[w.g[x][1]] == 0 && w.roots[w.g[x][2]] == 0
    ensures Spare(w, x) <==> Clients(w, x) > Bound(w, x)
  {
    assert !Shares(w.kinds[x], 0);
    forall i | 0 <= i < 3 && Clients(w, x) > Bound(w, x) ensures w.roots[w.g[x][i]] < Clients(w, x) {
      assert i == 0 || i == 1 || i == 2;
    }
  }

  lemma SpareExact(w: World, x: nat)
    requires Sound(w) && x < |w.g| && !IsHal(w.kinds[x])
    ensures Spare(w, x) <==> Clients(w, x) > Bound(w, x)
  {
    if w.kinds[x] == Device {
      assert HasLayout(w, x);
      DeviceSlots(w, x);
      DeviceSpare(w, x);
    } else {
      HandleSpare(w, x);
    }
  }

  lemma ReleaseLegalIn(w: World, x: nat)
    requires Sound(w) && Live(w, x) && !IsHal(w.kinds[x])
    ensures Legal(w, Release(x)) <==> Clients(w, x) > Bound(w, x)
  {
    assert HasLayout(w, x);
    SpareExact(w, x);
  }

  ghost predicate Reachable(w: World) {
    exists calls :: Exec(calls) == At(w)
  }

  /** A client may always give back a reference it owns: to any handle object but a device whenever it owns
      one, and to a device whenever it owns more than came with its allocator references. */
  lemma ReleaseLegal(w: World, x: nat)
    requires Reachable(w) && Live(w, x) && !IsHal(w.kinds[x])
    ensures Legal(w, Release(x)) <==> Clients(w, x) > Bound(w, x)
  {
    var calls :| Exec(calls) == At(w);
    ReachableSound(calls);
    ReleaseLegalIn(w, x);
  }

  // --- worlds closed under legal calls ---

  ghost predicate SoundIf(ok: World -> bool, w: World) {
    ok(w) ==> Sound(w)
  }

  ghost predicate Keeps(ok: World -> bool, w: World, c: Call) {
    ok(w) && Legal(w, c) && Acyclic(w.g) ==> ok(Apply(w, c))
  }

  /** A set of sound worlds that legal calls do not leave. */
  ghost predicate Steady(ok: World -> bool) {
    (forall w :: SoundIf(ok, w)) && (forall w, c :: Keeps(ok, w, c))
  }

  lemma OkSound(ok: World -> bool, w: World)
    requires Steady(ok) && ok(w)
    ensures Sound(w)
  {
    assert SoundIf(ok, w);
  }

  lemma OkNext(ok: World -> bool, w: World, c: Call)
    requires Steady(ok) && ok(w) && Legal(w, c)
    ensures Acyclic(w.g) && ok(Apply(w, c))
  {
    assert SoundIf(ok, w) && Keeps(ok, w, c);
  }

  // --- building objects ---

  /** A HAL object that only its creator holds. */
  predicate Loose(w: World, x: nat, k: Kind) {
    Live(w, x) && w.kinds[x] == k && w.g[x] == [] && w.t.counts[x] == 1 && w.roots[x] == 1 && w.table[x] == 0
  }

  function Created(w: World, k: Kind): World
    requires Sized(w)
  {
    AddNode(w, k, [])
  }

  lemma CreateOne(ok: World -> bool, w: World, k: Kind)
    requires Steady(ok) && ok(w) && IsHal(k)
    ensures Sized(w) && ok(Created(w, k)) && |Created(w, k).g| == |w.g| + 1 && Loose(Created(w, k), |w.g|, k)
  {
    OkSound(ok, w);
    OkNext(ok, w, Create(k));
  }

  lemma LooseStays(w: World, k: Kind, x: nat, j: Kind)
    requires Loose(w, x, j)
    ensures Loose(Created(w, k), x, j)
  {
  }

  lemma LiveStays(w: World, k: Kind, x: nat)
    requires Live(w, x)
    ensures Live(Created(w, k), x) && Created(w, k).kinds[x] == w.kinds[x]
  {
  }

  lemma LooseOwned(w: World, k: Kind, fields: seq<nat>, i: nat)
    requires Sized(w) && |fields| == |Layout(k)| && i < |fields| && Loose(w, fields[i], Layout(k)[i])
    requires !Shares(k, i) && Layout(k)[i] != Device
    ensures Owned(w, k, fields, i)
  {
  }

  lemma NewestNode(w: World, k: Kind, fields: seq<nat>)
    requires Sized(w)
    ensures var v, n := AddNode(w, k, fields), |w.g|;
            Live(v, n) && v.kinds[n] == k && v.t.counts[n] == 1 && Clients(v, n) == 1 && v.g[n] == fields
  {
  }

  /** From nothing, a device. */
  lemma BuildDevice(ok: World -> bool) returns (w: World)
    requires Steady(ok) && ok(EMPTY)
    ensures ok(w) && Live(w, 3) && w.kinds[3] == Device
  {
    CreateOne(ok, EMPTY, HalAllocator);
    var w1 := Created(EMPTY, HalAllocator);
    CreateOne(ok, w1, HalDeviceGroup);
    LooseStays(w1, HalDeviceGroup, 0, HalAllocator);
    var w2 := Created(w1, HalDeviceGroup);
    CreateOne(ok, w2, HalDevice);
    LooseStays(w2, HalDevice, 0, HalAllocator);
    LooseStays(w2, HalDevice, 1, HalDeviceGroup);
    w := DeviceWrapped(ok, Created(w2, HalDevice));
  }

  lemma DeviceWrapped(ok: World -> bool, w: World) returns (v: World)
    requires Steady(ok) && ok(w) && Loose(w, 0, HalAllocator) && Loose(w, 1, HalDeviceGroup) && Loose(w, 2, HalDevice) && |w.g| == 3
    ensures ok(v) && Live(v, 3) && v.kinds[3] == Device
  {
    var fields := [0, 1, 2];
    LooseOwned(w, Device, fields, 0);
    LooseOwned(w, Device, fields, 1);
    LooseOwned(w, Device, fields, 2);
    OkNext(ok, w, Wrap(Device, fields));
    NewestNode(w, Device, fields);
    v := AddNode(w, Device, fields);
  }

  lemma RetainAllocatorLegal(w: World, d: nat)
    requires Sound(w) && Live(w, d) && w.kinds[d] == Device
    ensures Legal(w, RetainAllocator(d)) && Leaf(w.g, w.g[d][0]) && w.kinds[w.g[d][0]] == HalAllocator && w.g[d][0] != d
  {
    assert HasLayout(w, d);
    DeviceSlots(w, d);
    HeldPositive(w.g, w.t.dropped, |w.g|, d, 0);
  }

  /** The allocator and the device are retained and the parts are there. */
  predicate Ready(w: World, d: nat, n: nat) {
    && Live(w, d) && w.kinds[d] == Device && Clients(w, d) > 0 && |w.g[d]| == 3 && w.g[d][0] < |w.g|
    && Live(w, w.g[d][0]) && w.kinds[w.g[d][0]] == HalAllocator && w.roots[w.g[d][0]] > 0
    && Loose(w, n, HalBuffer) && Loose(w, n + 1, HalNotification) && Loose(w, n + 2, HalPool)
  }

  lemma PooledLegal(w: World, d: nat, n: nat, fields: seq<nat>)
    requires Ready(w, d, n) && fields == [n, n + 1, w.g[d][0], n + 2, d]
    ensures Legal(w, Wrap(PooledBuffer, fields))
  {
    LooseOwned(w, PooledBuffer, fields, 0);
    LooseOwned(w, PooledBuffer, fields, 1);
    LooseOwned(w, PooledBuffer, fields, 3);
    assert Owned(w, PooledBuffer, fields, 2);
    assert Owned(w, PooledBuffer, fields, 4);
  }

  lemma PooledWrapped(ok: World -> bool, w: World, d: nat, n: nat) returns (v: World)
    requires Steady(ok) && ok(w) && Ready(w, d, n)
    ensures ok(v) && Live(v, |w.g|) && v.kinds[|w.g|] == PooledBuffer && v.t.counts[|w.g|] == 1 && Clients(v, |w.g|) == 1
  {
    var fields := [n, n + 1, w.g[d][0], n + 2, d];
    PooledLegal(w, d, n, fields);
    OkNext(ok, w, Wrap(PooledBuffer, fields));
    NewestNode(w, PooledBuffer, fields);
    v := AddNode(w, PooledBuffer, fields);
  }

  lemma LooseRetained(w: World, y: nat, d: nat, x: nat, k: Kind)
    requires Sized(w) && y < |w.g| && d < |w.g| && w.kinds[y] == HalAllocator && w.kinds[d] == Device
    requires Loose(w, x, k) && k != HalAllocator && k != Device
    ensures Loose(Retained(Retained(w, y), d), x, k)
  {
  }

  lemma BothRetained(ok: World -> bool, w: World, d: nat) returns (v: World)
    requires Steady(ok) && ok(w) && Live(w, d) && w.kinds[d] == Device
    ensures |w.g[d]| == 3 && w.g[d][0] < |w.g| && w.g[d][0] != d && Live(w, w.g[d][0]) && w.kinds[w.g[d][0]] == HalAllocator
    ensures v == Retained(Retained(w, w.g[d][0]), d) && ok(v) && w.table[d] <= w.roots[d]
  {
    OkSound(ok, w);
    RetainAllocatorLegal(w, d);
    OkNext(ok, w, RetainAllocator(d));
    v := Retained(Retained(w, w.g[d][0]), d);
  }

  lemma RetainedReady(ok: World -> bool, w: World, d: nat, n: nat) returns (v: World)
    requires Steady(ok) && ok(w) && Live(w, d) && w.kinds[d] == Device
    requires Loose(w, n, HalBuffer) && Loose(w, n + 1, HalNotification) && Loose(w, n + 2, HalPool)
    ensures ok(v) && Ready(v, d, n) && |v.g| == |w.g|
  {
    v := BothRetained(ok, w, d);
    var y := w.g[d][0];
    LooseRetained(w, y, d, n, HalBuffer);
    LooseRetained(w, y, d, n + 1, HalNotification);
    LooseRetained(w, y, d, n + 2, HalPool);
  }

  lemma BuildParts(ok: World -> bool, w: World, d: nat) returns (v: World)
    requires Steady(ok) && ok(w) && Live(w, d) && w.kinds[d] == Device
    ensures ok(v) && Live(v, d) && v.kinds[d] == Device && |v.g| == |w.g| + 3
    ensures Loose(v, |w.g|, HalBuffer) && Loose(v, |w.g| + 1, HalNotification) && Loose(v, |w.g| + 2, HalPool)
  {
    var n := |w.g|;
    CreateOne(ok, w, HalBuffer);
    LiveStays(w, HalBuffer, d);
    var w1 := Created(w, HalBuffer);
    CreateOne(ok, w1, HalNotification);
    LiveStays(w1, HalNotification, d);
    LooseStays(w1, HalNotification, n, HalBuffer);
    var w2 := Created(w1, HalNotification);
    CreateOne(ok, w2, HalPool);
    LiveStays(w2, HalPool, d);
    LooseStays(w2, HalPool, n, HalBuffer);
    LooseStays(w2, HalPool, n + 1, HalNotification);
    v := Created(w2, HalPool);
  }

  /** On any live device of any reachable world a stream-allocated buffer can be built, whose pool shares
      the allocator. */
  lemma BuildPooled(ok: World -> bool, w: World, d: nat) returns (v: World, b: nat)
    requires Steady(ok) && ok(w) && Live(w, d) && w.kinds[d] == Device
    ensures ok(v) && Live(v, b) && v.kinds[b] == PooledBuffer && v.t.counts[b] == 1 && Clients(v, b) == 1
  {
    v := BuildParts(ok, w, d);
    v := RetainedReady(ok, v, d, |w.g|);
    b := |v.g|;
    v := PooledWrapped(ok, v, d, |w.g|);
  }

  // --- a release under a held allocator ---

  lemma HolderLives(w: World, b: nat)
    requires Sound(w) && Live(w, b) && w.kinds[b] == PooledBuffer && PoolShaped(w, b)
    ensures Live(w, w.g[b][4]) && w.kinds[w.g[b][4]] == Device && b != w.g[b][4] && b != w.g[b][2]
  {
    assert HasLayout(w, b);
    HeldPositive(w.g, w.t.dropped, |w.g|, b, 4);
  }

  lemma LastReleaseKills(w: World, x: nat)
    requires Sound(w) && x < |w.g| && w.t.counts[x] == 1
    ensures Ownership.Release(w.g, w.t, x).counts[x] == 0
  {
    DropFieldsComplete(w.g, Died(w.t, x), x, |w.g[x]|);
  }

  lemma RootLives(w: World, x: nat)
    requires Sound(w) && x < |w.g| && w.roots[x] > 0
    ensures Live(w, x)
  {
    assert w.t.counts[x] == w.roots[x] + Held(w.g, w.t.dropped, |w.g|, x);
  }

  lemma PooledParts(ok: World -> bool, w: World, b: nat)
    requires Steady(ok) && ok(w) && Live(w, b) && w.kinds[b] == PooledBuffer
    ensures PoolShaped(w, b) && Live(w, w.g[b][4]) && w.kinds[w.g[b][4]] == Device && b != w.g[b][4] && b != w.g[b][2]
  {
    OkSound(ok, w);
    PoolShape(w, b);
    HolderLives(w, b);
  }

  lemma LastRelease(ok: World -> bool, w: World, b: nat, y: nat) returns (u: World)
    requires Steady(ok) && ok(w) && Live(w, b) && w.kinds[b] == PooledBuffer && w.t.counts[b] == 1 && Clients(w, b) == 1
    requires y < |w.g| && y != b && w.roots[y] > 0
    ensures Legal(w, Release(b)) && Acyclic(w.g) && u == Apply(w, Release(b)) && ok(u)
    ensures Sized(u) && u.g == w.g && u.kinds == w.kinds && u.t.counts[b] == 0 && Live(u, y) && u.roots[y] == w.roots[y]
  {
    OkSound(ok, w);
    ReleaseLegalIn(w, b);
    OkNext(ok, w, Release(b));
    u := DropRef(w, b);
    LastReleaseKills(w, b);
    OkSound(ok, u);
    RootLives(u, y);
  }

  /** From any reachable world a client may retain the allocator and then give back its last reference to a
      stream-allocated buffer: two legal calls.  The buffer dies, and the allocator lives. */
  lemma HoldThenRelease(ok: World -> bool, w: World, b: nat) returns (v: World, u: World)
    requires Steady(ok) && ok(w) && Live(w, b) && w.kinds[b] == PooledBuffer && w.t.counts[b] == 1 && Clients(w, b) == 1
    ensures PoolShaped(w, b) && Legal(w, RetainAllocator(w.g[b][4])) && Acyclic(w.g) && v == Apply(w, RetainAllocator(w.g[b][4]))
    ensures Legal(v, Release(b)) && Acyclic(v.g) && u == Apply(v, Release(b)) && ok(u)
    ensures Sized(u) && u.g == w.g && u.kinds == w.kinds && u.t.counts[b] == 0 && Live(u, w.g[b][2]) && u.roots[w.g[b][2]] > 0
  {
    PooledParts(ok, w, b);
    var d := w.g[b][4];
    v := BothRetained(ok, w, d);
    u := LastRelease(ok, v, b, w.g[b][2]);
  }

  lemma DeathUnderHeldAllocator(ok: World -> bool) returns (w: World, b: nat)
    requires Steady(ok) && ok(EMPTY)
    ensures ok(w) && Sized(w) && b < |w.g| && w.kinds[b] == PooledBuffer && w.t.counts[b] == 0
    ensures PoolShaped(w, b) && Live(w, w.g[b][2]) && w.roots[w.g[b][2]] > 0
  {
    var v := BuildDevice(ok);
    v, b := BuildPooled(ok, v, 3);
    var middle: World;
    middle, w := HoldThenRelease(ok, v, b);
  }

  lemma ReachableNext(w: World, c: Call)
    requires Reachable(w) && Legal(w, c) && Acyclic(w.g)
    ensures Reachable(Apply(w, c))
  {
    var calls :| Exec(calls) == At(w);
    assert (calls + [c])[..|calls|] == calls;
    assert Exec(calls + [c]) == At(Apply(w, c));
  }

  lemma ReachableSteady()
    ensures Steady(w => Reachable(w)) && Reachable(EMPTY)
  {
    assert Exec([]) == At(EMPTY);
    var ok := w => Reachable(w);
    forall w ensures SoundIf(ok, w) {
      if calls :| Exec(calls) == At(w) {
        ReachableSound(calls);
      }
    }
    forall w, c ensures Keeps(ok, w, c) {
      if ok(w) && Legal(w, c) && Acyclic(w.g) {
        ReachableNext(w, c);
      }
    }
  }

  /** The case is covered: a legal run from nothing reaches a world in which a stream-allocated buffer died
      by a client's release while a client holds the allocator. */
  lemma BufferDiesUnderHeldAllocator() returns (calls: seq<Call>, b: nat)
    ensures Exec(calls).At?
    ensures var w := Exec(calls).world;
            && Sized(w) && b < |w.g| && w.kinds[b] == PooledBuffer && w.t.counts[b] == 0
            && PoolShaped(w, b) && Live(w, w.g[b][2]) && w.roots[w.g[b][2]] > 0
  {
    ReachableSteady();
    var w: World;
    w, b := DeathUnderHeldAllocator(w => Reachable(w));
    calls :| Exec(calls) == At(w);
  }
}
