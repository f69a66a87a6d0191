/** The object kinds of the runtime, their field layouts, and every legal sequence of calls. */
module Objects {
  import opened Ownership

  datatype Kind =
    | HalAllocator | HalDeviceGroup | HalDevice | HalBuffer | HalNotification | HalPool | HalSemaphore
    | HalExecutable | HalExecutableCache | VmContext | HalVmModule | BytecodeVmModule
    | Device | Buffer | PooledBuffer | Semaphore | Stream | Executable | Module | Function

  /** A pool's allocator reference is to the allocator of its buffer's device. */
  predicate Shares(k: Kind, i: nat) {
    k == PooledBuffer && i == 2
  }

  /** The owning fields of each object, in declaration order, which is drop order.  The exact pool of a
      stream-allocated buffer has one reference, the buffer's, so what its destruction lets go of (the
      notification, an allocator reference of its own, its memory) stands at its place in the buffer. */
  function Layout(k: Kind): seq<Kind> {
    match k
    case Device => [HalAllocator, HalDeviceGroup, HalDevice]
    case Buffer => [HalBuffer, Device]
    case PooledBuffer => [HalBuffer, HalNotification, HalAllocator, HalPool, Device]
    case Semaphore => [HalSemaphore, Device]
    case Stream => [Semaphore, Device]
    case Executable => [HalExecutable, HalExecutableCache, Device]
    case Module => [VmContext, HalVmModule, BytecodeVmModule, Device]
    case Function => [Module]
    case _ => []
  }

  predicate IsHal(k: Kind) {
    Layout(k) == []
  }

  /** `roots` counts the references held outside the objects: by clients, by constructors in
      progress, and (the part in `table`) by the accelerator tables. */
  datatype World = World(g: Graph, kinds: seq<Kind>, t: Tally, roots: seq<nat>, table: seq<nat>)

  const EMPTY := World([], [], Tally([], [], []), [], [])

  datatype Call =
    | Create(k: Kind)                       // a HAL create call: the caller owns one reference
    | Wrap(k: Kind, fields: seq<nat>)       // into_handle: owned references move into the fields
    | Retain(x: nat)
    | Release(x: nat)
    | VirtualRelease(x: nat)                // the sole reference takes a buffer apart
    | RetainAllocator(x: nat)
    | ReleaseAllocator(x: nat)
    | Register(x: nat)                      // a device's creation reference moves into the table
    | Shutdown(x: nat)                      // and is released from it

  predicate Sized(w: World) {
    |w.kinds| == |w.g| && Fits(w.g, w.t) && |w.roots| == |w.g| && |w.table| == |w.g|
  }

  predicate Live(w: World, x: nat) {
    x < |w.g| && Sized(w) && w.t.counts[x] > 0
  }

  /** References a client owns. */
  function Clients(w: World, x: nat): int
    requires Sized(w) && x < |w.g|
  {
    w.roots[x] as int - w.table[x] as int
  }

  /** The client owns a reference to `x` beyond those that came with an allocator reference. */
  predicate Spare(w: World, x: nat)
    requires Sized(w) && x < |w.g|
  {
    && Clients(w, x) > 0
    && (forall i :: 0 <= i < |w.g[x]| && w.g[x][i] < |w.g| && Leaf(w.g, w.g[x][i]) && !Shares(w.kinds[x], i) ==>
          w.roots[w.g[x][i]] < Clients(w, x))
  }

  /** The constructor owns a reference for field `i` of the new object.  A HAL object is fresh, except for
      the allocator reference of a pool, which was retained together with one to the device. */
  predicate Owned(w: World, k: Kind, fields: seq<nat>, i: nat)
    requires Sized(w) && |fields| == |Layout(k)| && i < |fields|
  {
    && Live(w, fields[i]) && w.kinds[fields[i]] == Layout(k)[i]
    && if Shares(k, i) then
         fields[4] < |w.g| && |w.g[fields[4]]| == 3 && w.g[fields[4]][0] == fields[i] && w.roots[fields[i]] > 0
       else if k == PooledBuffer && i == 4 then Clients(w, fields[i]) > 0
       else Spare(w, fields[i]) && (Leaf(w.g, fields[i]) ==> w.t.counts[fields[i]] == 1)
  }

  /** Clients and constructors use only references they own. */
  predicate Legal(w: World, c: Call) {
    && Sized(w)
    && match c
       case Create(k) => IsHal(k)
       case Wrap(k, fields) =>
         && !IsHal(k) && |fields| == |Layout(k)|
         && (forall i :: 0 <= i < |fields| ==> Owned(w, k, fields, i))
       case Retain(x) => Live(w, x) && !IsHal(w.kinds[x])
       case Release(x) => Live(w, x) && Spare(w, x) && (Leaf(w.g, x) ==> w.t.counts[x] == w.roots[x])
       case VirtualRelease(x) => Live(w, x) && w.kinds[x] == Buffer && w.t.counts[x] == 1 && Spare(w, x)
       case RetainAllocator(x) => Live(w, x) && w.kinds[x] == Device && |w.g[x]| == 3 && Live(w, w.g[x][0])
       case ReleaseAllocator(x) =>
         && Live(w, x) && w.kinds[x] == Device && |w.g[x]| == 3 && Live(w, w.g[x][0])
         && w.roots[w.g[x][0]] > 0 && Clients(w, x) > 0
       case Register(x) => Live(w, x) && w.kinds[x] == Device && Spare(w, x)
       case Shutdown(x) => Live(w, x) && w.table[x] > 0
  }

  function Bump(counts: seq<nat>, x: nat): seq<nat>
    requires x < |counts|
  {
    counts[x := counts[x] + 1]
  }

  function Less(counts: seq<nat>, x: nat): seq<nat>
    requires x < |counts|
  {
    if counts[x] == 0 then counts else counts[x := counts[x] - 1]
  }

  /** The references that move into a new object leave the hands of its constructor. */
  function MoveOut(roots: seq<nat>, fields: seq<nat>): (r: seq<nat>)
    ensures |r| == |roots|
  {
    seq(|roots|, x requires 0 <= x < |roots| => if x in fields && roots[x] > 0 then roots[x] - 1 else roots[x])
  }

  function DropRef(w: World, x: nat): World
    requires Sized(w) && Acyclic(w.g) && x < |w.g|
  {
    w.(roots := Less(w.roots, x), t := Ownership.Release(w.g, w.t, x))
  }

  function Retained(w: World, x: nat): World
    requires Sized(w) && x < |w.g|
  {
    w.(roots := Bump(w.roots, x), t := w.t.(counts := Bump(w.t.counts, x)))
  }

  function AddNode(w: World, k: Kind, fields: seq<nat>): World
    requires Sized(w)
  {
    World(w.g + [fields], w.kinds + [k],
          Tally(w.t.counts + [1], w.t.dropped + [0], w.t.log),
          MoveOut(w.roots, fields) + [1], w.table + [0])
  }

  function Apply(w: World, c: Call): World
    requires Legal(w, c) && Acyclic(w.g)
  {
    match c
    case Create(k) => AddNode(w, k, [])
    case Wrap(k, fields) => AddNode(w, k, fields)
    case Retain(x) => Retained(w, x)
    case Release(x) => DropRef(w, x)
    case VirtualRelease(x) => DropRef(w, x)
    case RetainAllocator(x) => Retained(Retained(w, w.g[x][0]), x)
    case ReleaseAllocator(x) => DropRef(DropRef(w, w.g[x][0]), x)
    case Register(x) => w.(table := Bump(w.table, x))
    case Shutdown(x) => DropRef(w.(table := Less(w.table, x)), x)
  }

  datatype Outcome = Illegal | At(world: World)

  /** The world after a sequence of calls, if all of them were legal. */
  ghost function Exec(calls: seq<Call>): Outcome
    decreases |calls|
  {
    if calls == [] then At(EMPTY)
    else
      var last := calls[|calls| - 1];
      match Exec(calls[..|calls| - 1])
      case Illegal => Illegal
      case At(w) => if Legal(w, last) && Acyclic(w.g) then At(Apply(w, last)) else Illegal
  }

  // --- the invariant ---

  /** Between calls every dead object has dropped all its fields. */
  ghost predicate Settled(w: World)
    requires Sized(w)
  {
    forall a :: 0 <= a < |w.g| && w.t.counts[a] == 0 ==> w.t.dropped[a] == |w.g[a]|
  }

  ghost predicate Shaped(w: World)
    requires Sized(w)
  {
    forall a :: 0 <= a < |w.g| ==> HasLayout(w, a)
  }

  ghost predicate HasLayout(w: World, a: nat)
    requires Sized(w) && a < |w.g|
  {
    && |w.g[a]| == |Layout(w.kinds[a])|
    && (forall i :: 0 <= i < |w.g[a]| ==> w.g[a][i] < a && w.kinds[w.g[a][i]] == Layout(w.kinds[a])[i])
    && (w.kinds[a] == PooledBuffer ==> Slot(w.g, w.g[a][4], 0, w.g[a][2]))
  }

  /** The homes of HAL objects are all their fields but those of pools that share an allocator. */
  ghost predicate Housed(w: World)
    requires Sized(w)
  {
    forall a: nat, i: nat :: a < |w.g| && i < |w.g[a]| && Leaf(w.g, w.g[a][i]) ==> (Home(w.g, a, i) <==> !Shares(w.kinds[a], i))
  }

  function Allowed(w: World, a: nat, x: nat): int
    requires Sized(w) && a < |w.g| && x < |w.g|
  {
    if w.kinds[x] == HalAllocator then Clients(w, a) else 0
  }

  /** The only owned HAL objects clients can hold are allocators, and a client reference to one came
      with a client reference to its device. */
  ghost predicate ClientTied(w: World)
    requires Sized(w)
  {
    && (forall x :: 0 <= x < |w.g| ==> w.table[x] <= w.roots[x] && (w.table[x] > 0 ==> w.kinds[x] == Device))
    && (forall a: nat, i: nat :: Home(w.g, a, i) && w.g[a][i] < |w.g| ==> w.roots[w.g[a][i]] <= Allowed(w, a, w.g[a][i]))
  }

  ghost predicate Sound(w: World) {
    Sized(w) && Good(w.g, w.t, w.roots, -1) && Settled(w) && Shaped(w) && Housed(w) && ClientTied(w)
  }

  lemma RetainedSound(w: World, x: nat)
    requires Sized(w) && Good(w.g, w.t, w.roots, -1) && Settled(w) && x < |w.g| && w.t.counts[x] > 0
    requires Tied(w.g, Bump(w.roots, x))
    ensures Good(w.g, Retained(w, x).t, Retained(w, x).roots, -1) && Settled(Retained(w, x))
  {
    OrderedFrame(w.g, w.t, Retained(w, x).t);
  }

  lemma DropRefSound(w: World, x: nat)
    requires Sized(w) && Good(w.g, w.t, w.roots, -1) && Settled(w) && x < |w.g| && w.roots[x] > 0
    requires Tied(w.g, Less(w.roots, x))
    ensures Good(w.g, DropRef(w, x).t, DropRef(w, x).roots, -1) && Settled(DropRef(w, x))
  {
    TakeInHand(w.g, w.t, w.roots, x);
    ReleaseGood(w.g, w.t, x, Less(w.roots, x));
    ReleaseComplete(w.g, w.t, x);
  }

  // --- new objects ---

  lemma {:induction false} FromDistinct(fields: seq<nat>, k: nat, x: nat)
    requires forall i, j :: 0 <= i < j < |fields| ==> fields[i] != fields[j]
    ensures From(fields, k, x) == if exists i :: k <= i < |fields| && fields[i] == x then 1 else 0
    decreases |fields| - k
  {
    if k < |fields| {
      FromDistinct(fields, k + 1, x);
    }
  }

  ghost predicate Wrappable(w: World, k: Kind, fields: seq<nat>)
    requires Sized(w)
  {
    && |fields| == |Layout(k)| && (forall i, j :: 0 <= i < j < |fields| ==> fields[i] != fields[j])
    && (forall i :: 0 <= i < |fields| ==> Owned(w, k, fields, i))
  }

  /** Whoever wraps references owns each of them. */
  lemma FieldOwned(w: World, k: Kind, fields: seq<nat>, i: nat)
    requires Sound(w) && Wrappable(w, k, fields) && i < |fields|
    ensures Live(w, fields[i]) && w.roots[fields[i]] > 0
  {
    assert Owned(w, k, fields, i);
  }

  lemma NewAcyclic(w: World, k: Kind, fields: seq<nat>)
    requires Sound(w) && Wrappable(w, k, fields)
    ensures Acyclic(AddNode(w, k, fields).g)
    ensures forall i :: 0 <= i < |fields| ==> fields[i] < |w.g| && w.roots[fields[i]] > 0
  {
    forall i | 0 <= i < |fields| ensures fields[i] < |w.g| && w.roots[fields[i]] > 0 {
      FieldOwned(w, k, fields, i);
    }
  }

  /** The count of one object after a new one was built on it. */
  lemma NewCount(w: World, k: Kind, fields: seq<nat>, x: nat)
    requires Sized(w) && x < |w.g| && w.t.counts[x] == w.roots[x] + Held(w.g, w.t.dropped, |w.g|, x)
    requires forall i, j :: 0 <= i < j < |fields| ==> fields[i] != fields[j]
    requires x in fields ==> w.roots[x] > 0
    ensures var v := AddNode(w, k, fields); v.t.counts[x] == v.roots[x] + Held(v.g, v.t.dropped, |v.g|, x)
  {
    HeldNew(w.g, w.t.dropped, fields, x);
    FromDistinct(fields, 0, x);
  }

  lemma NewAccounted(w: World, k: Kind, fields: seq<nat>)
    requires Sized(w) && Acyclic(w.g) && Accounted(w.g, w.t, w.roots, -1)
    requires forall i, j :: 0 <= i < j < |fields| ==> fields[i] != fields[j]
    requires forall i :: 0 <= i < |fields| ==> fields[i] < |w.g| && w.roots[fields[i]] > 0
    ensures Accounted(AddNode(w, k, fields).g, AddNode(w, k, fields).t, AddNode(w, k, fields).roots, -1)
  {
    var v, n := AddNode(w, k, fields), |w.g|;
    HeldLater(w.g, w.t.dropped, fields);
    HeldNew(w.g, w.t.dropped, fields, n);
    forall x: nat | x < n
      ensures v.t.counts[x] == v.roots[x] + Held(v.g, v.t.dropped, |v.g|, x)
    {
      NewCount(w, k, fields, x);
    }
    assert v.t.counts[n] == v.roots[n] + Held(v.g, v.t.dropped, |v.g|, n);
  }

  /** A HAL object that only its creator holds is in no field. */
  lemma Unowned(w: World, x: nat, a: nat, i: nat)
    requires Sound(w) && Leaf(w.g, x) && w.t.counts[x] == 1 && w.roots[x] >= 1
    ensures !Slot(w.g, a, i, x)
    decreases a
  {
    if Slot(w.g, a, i, x) {
      assert HasLayout(w, a);
      if Shares(w.kinds[a], i) {
        assert HasLayout(w, w.g[a][4]);
        Unowned(w, x, w.g[a][4], 0);
      } else {
        assert Home(w.g, a, i);
        if w.t.counts[a] > 0 {
          HeldPositive(w.g, w.t.dropped, |w.g|, a, i);
        }
      }
    }
  }

  /** A HAL object moving into a field, other than a shared allocator, was in no field before. */
  lemma Fresh(w: World, k: Kind, fields: seq<nat>, j: nat, a: nat, i: nat)
    requires Sound(w) && Wrappable(w, k, fields) && j < |fields| && Leaf(w.g, fields[j]) && !Shares(k, j)
    ensures !Slot(w.g, a, i, fields[j])
    ensures w.roots[fields[j]] == 1
  {
    assert Owned(w, k, fields, j);
    NotLeaf(w, fields[j]);
    Unowned(w, fields[j], a, i);
  }

  lemma NotLeaf(w: World, x: nat)
    requires Sound(w) && x < |w.g|
    ensures w.kinds[x] == Device ==> !Leaf(w.g, x)
  {
    assert HasLayout(w, x);
  }

  /** The home of an allocator is its device's first field. */
  lemma DeviceHome(w: World, d: nat, a: nat, i: nat)
    requires Sized(w) && Shaped(w) && Home(w.g, a, i) && Slot(w.g, d, 0, w.g[a][i]) && w.kinds[d] == Device
    ensures a == d && i == 0
  {
    assert HasLayout(w, d);
    forall l: nat | 0 < l < |w.g[d]| ensures w.g[d][l] != a {
      assert HasLayout(w, w.g[d][l]);
    }
    assert !Within(w.g, d, 0, a);
  }

  /** Homes stay homes when an object is added. */
  lemma HomeStays(w: World, k: Kind, fields: seq<nat>, a: nat, i: nat)
    requires Sound(w) && Wrappable(w, k, fields) && Home(w.g, a, i)
    ensures Home(AddNode(w, k, fields).g, a, i)
  {
    var v, n := AddNode(w, k, fields), |w.g|;
    var x := w.g[a][i];
    assert Slot(w.g, a, i, x);
    forall b: nat, j: nat | Slot(v.g, b, j, x)
      ensures (b == a && j == i) || Within(v.g, b, j, a)
    {
      if b < n {
        assert Slot(w.g, b, j, x);
        if b != a || j != i {
          var l: nat :| j < l && Slot(w.g, b, l, a);
          assert Slot(v.g, b, l, a);
        }
      } else if Shares(k, j) {
        assert Owned(w, k, fields, j) && Owned(w, k, fields, 4);
        DeviceHome(w, fields[4], a, i);
        assert Slot(v.g, b, 4, a);
      } else {
        Fresh(w, k, fields, j, a, i);
      }
    }
  }

  /** And no other field of an old object becomes one. */
  lemma HomeWas(w: World, k: Kind, fields: seq<nat>, a: nat, i: nat)
    requires Sound(w) && a < |w.g| && Home(AddNode(w, k, fields).g, a, i) && w.g[a][i] < |w.g|
    ensures Home(w.g, a, i)
  {
    var v, n := AddNode(w, k, fields), |w.g|;
    var x := w.g[a][i];
    forall b: nat, j: nat | Slot(w.g, b, j, x)
      ensures (b == a && j == i) || Within(w.g, b, j, a)
    {
      assert Slot(v.g, b, j, x);
      if b != a || j != i {
        var l: nat :| j < l && Slot(v.g, b, l, a);
        assert Slot(w.g, b, l, a);
      }
    }
  }

  /** The new object's fields are homes, except for a shared allocator. */
  lemma NewHome(w: World, k: Kind, fields: seq<nat>, j: nat)
    requires Sound(w) && Wrappable(w, k, fields) && j < |fields| && Leaf(w.g, fields[j])
    ensures Home(AddNode(w, k, fields).g, |w.g|, j) <==> !Shares(k, j)
  {
    var v, n := AddNode(w, k, fields), |w.g|;
    var x := fields[j];
    if Shares(k, j) {
      assert Owned(w, k, fields, j);
      var d := fields[4];
      assert Slot(v.g, d, 0, x);
      assert HasLayout(w, d);
      assert !Within(v.g, d, 0, n);
    } else {
      forall b: nat, i: nat | Slot(v.g, b, i, x)
        ensures b == n && i == j
      {
        if b < n {
          assert Slot(w.g, b, i, x);
          Fresh(w, k, fields, j, b, i);
        }
      }
    }
  }

  lemma OldHome(w: World, k: Kind, fields: seq<nat>, a: nat, i: nat)
    requires Sound(w) && Wrappable(w, k, fields) && a < |w.g| && i < |w.g[a]| && Leaf(w.g, w.g[a][i])
    ensures Home(AddNode(w, k, fields).g, a, i) <==> Home(w.g, a, i)
  {
    if Home(w.g, a, i) {
      HomeStays(w, k, fields, a, i);
    } else if Home(AddNode(w, k, fields).g, a, i) {
      HomeWas(w, k, fields, a, i);
    }
  }

  lemma NewHoused(w: World, k: Kind, fields: seq<nat>)
    requires Sound(w) && Wrappable(w, k, fields)
    ensures Housed(AddNode(w, k, fields))
  {
    var v, n := AddNode(w, k, fields), |w.g|;
    NewAcyclic(w, k, fields);
    forall a: nat, i: nat | a < |v.g| && i < |v.g[a]| && Leaf(v.g, v.g[a][i])
      ensures Home(v.g, a, i) <==> !Shares(v.kinds[a], i)
    {
      if a < n {
        assert w.g[a][i] < a && Leaf(w.g, w.g[a][i]);
        OldHome(w, k, fields, a, i);
      } else {
        NewHome(w, k, fields, i);
      }
    }
  }

  lemma TiedSlot(w: World, k: Kind, fields: seq<nat>, a: nat, i: nat)
    requires Sound(w) && Wrappable(w, k, fields) && Home(AddNode(w, k, fields).g, a, i)
    ensures var v := AddNode(w, k, fields);
            v.g[a][i] < |w.g| && v.roots[v.g[a][i]] <= Allowed(v, a, v.g[a][i])
  {
    NewAcyclic(w, k, fields);
    if a < |w.g| {
      assert w.g[a][i] < a;
      HomeWas(w, k, fields, a, i);
      FieldTied(w, k, fields, a, i);
    } else {
      NewHome(w, k, fields, i);
      Fresh(w, k, fields, i, 0, 0);
    }
  }

  /** What clients hold of HAL objects is tied to what anyone outside holds. */
  lemma TiedByClients(w: World)
    requires Sized(w) && ClientTied(w)
    ensures Tied(w.g, w.roots)
  {
  }

  lemma NewTied(w: World, k: Kind, fields: seq<nat>)
    requires Sound(w) && Wrappable(w, k, fields)
    ensures ClientTied(AddNode(w, k, fields))
  {
    var v := AddNode(w, k, fields);
    NewTable(w, k, fields);
    forall a: nat, i: nat | Home(v.g, a, i)
      ensures v.g[a][i] < |v.g| && v.roots[v.g[a][i]] <= Allowed(v, a, v.g[a][i])
    {
      TiedSlot(w, k, fields, a, i);
    }
  }

  lemma NewTable(w: World, k: Kind, fields: seq<nat>)
    requires Sound(w) && Wrappable(w, k, fields)
    ensures var v := AddNode(w, k, fields);
            forall x :: 0 <= x < |v.g| ==> v.table[x] <= v.roots[x] && (v.table[x] > 0 ==> v.kinds[x] == Device)
  {
    var v := AddNode(w, k, fields);
    forall x | 0 <= x < |v.g|
      ensures v.table[x] <= v.roots[x] && (v.table[x] > 0 ==> v.kinds[x] == Device)
    {
      if j :| 0 <= j < |fields| && fields[j] == x {
        assert Owned(w, k, fields, j);
      }
    }
  }

  /** Moving a reference to an owner into a new object leaves enough of them behind. */
  lemma FieldTied(w: World, k: Kind, fields: seq<nat>, a: nat, i: nat)
    requires Sound(w) && Wrappable(w, k, fields) && Home(w.g, a, i)
    ensures w.g[a][i] < |w.g| && AddNode(w, k, fields).roots[w.g[a][i]] <= Allowed(AddNode(w, k, fields), a, w.g[a][i])
  {
    assert HasLayout(w, a) && w.roots[w.g[a][i]] <= Allowed(w, a, w.g[a][i]);
    if j :| 0 <= j < |fields| && fields[j] == a {
      assert Owned(w, k, fields, j);
      if k == PooledBuffer && j == 4 {
        assert Owned(w, k, fields, 2);
        assert w.kinds[w.g[a][i]] == HalAllocator ==> i == 0;
      }
    }
  }

  lemma NewOwnerFirst(w: World, k: Kind, fields: seq<nat>, a: nat, i: nat)
    requires Sound(w) && Wrappable(w, k, fields) && Acyclic(AddNode(w, k, fields).g)
    requires a < |AddNode(w, k, fields).g| && i < |AddNode(w, k, fields).g[a]|
    ensures OwnerFirst(AddNode(w, k, fields).g, AddNode(w, k, fields).t, a, i)
  {
    if a < |w.g| {
      assert OwnerFirst(w.g, w.t, a, i);
    } else {
      FieldOwned(w, k, fields, i);
    }
  }

  lemma NewHomeFirst(w: World, k: Kind, fields: seq<nat>, a: nat, i: nat, j: nat)
    requires Sound(w) && Wrappable(w, k, fields) && Acyclic(AddNode(w, k, fields).g)
    requires a < |AddNode(w, k, fields).g| && i < j < |AddNode(w, k, fields).g[a]|
    ensures HomeFirst(AddNode(w, k, fields).g, AddNode(w, k, fields).t, a, i, j)
  {
    if a < |w.g| {
      assert HomeFirst(w.g, w.t, a, i, j);
      if Home(AddNode(w, k, fields).g, a, i) {
        HomeWas(w, k, fields, a, i);
      }
    } else {
      FieldOwned(w, k, fields, j);
    }
  }

  lemma NewOrdered(w: World, k: Kind, fields: seq<nat>)
    requires Sound(w) && Wrappable(w, k, fields) && Acyclic(AddNode(w, k, fields).g)
    ensures Ordered(AddNode(w, k, fields).g, AddNode(w, k, fields).t)
  {
    var v := AddNode(w, k, fields);
    forall a: nat, i: nat | a < |v.g| && i < |v.g[a]| ensures OwnerFirst(v.g, v.t, a, i) {
      NewOwnerFirst(w, k, fields, a, i);
    }
    forall a: nat, i: nat, j: nat | a < |v.g| && i < j < |v.g[a]| ensures HomeFirst(v.g, v.t, a, i, j) {
      NewHomeFirst(w, k, fields, a, i, j);
    }
  }

  lemma NewShaped(w: World, k: Kind, fields: seq<nat>)
    requires Sound(w) && Wrappable(w, k, fields)
    ensures Shaped(AddNode(w, k, fields))
  {
    var v, n := AddNode(w, k, fields), |w.g|;
    forall a | 0 <= a < |v.g|
      ensures HasLayout(v, a)
    {
      if a < n {
        assert HasLayout(w, a);
      } else {
        forall i | 0 <= i < |fields| ensures fields[i] < n && w.kinds[fields[i]] == Layout(k)[i] {
          assert Owned(w, k, fields, i);
        }
        if k == PooledBuffer {
          assert Owned(w, k, fields, 2);
        }
      }
    }
  }

  lemma NewBuried(w: World, k: Kind, fields: seq<nat>)
    requires Sized(w) && Buried(w.g, w.t) && Settled(w)
    ensures var v := AddNode(w, k, fields); Sized(v) && Buried(v.g, v.t) && Settled(v)
  {
  }

  /** A new object's references come from its constructor's hands. */
  lemma NewBooks(w: World, k: Kind, fields: seq<nat>)
    requires Sound(w) && Wrappable(w, k, fields)
    ensures var v := AddNode(w, k, fields); Acyclic(v.g) && Sized(v) && Accounted(v.g, v.t, v.roots, -1)
  {
    NewAcyclic(w, k, fields);
    NewAccounted(w, k, fields);
  }

  lemma NewSound(w: World, k: Kind, fields: seq<nat>)
    requires Sound(w) && Wrappable(w, k, fields)
    ensures Sound(AddNode(w, k, fields))
  {
    NewBooks(w, k, fields);
    NewBuried(w, k, fields);
    NewHoused(w, k, fields);
    NewTied(w, k, fields);
    TiedByClients(AddNode(w, k, fields));
    NewOrdered(w, k, fields);
    NewShaped(w, k, fields);
  }

  // --- every call ---

  lemma DistinctFields(w: World, c: Call)
    requires Legal(w, c) && c.Wrap?
    ensures Wrappable(w, c.k, c.fields)
  {
    assert forall i, j :: 0 <= i < j < |Layout(c.k)| ==> Layout(c.k)[i] != Layout(c.k)[j];
    forall i, j | 0 <= i < j < |c.fields| ensures c.fields[i] != c.fields[j] {
      assert Owned(w, c.k, c.fields, i) && Owned(w, c.k, c.fields, j);
    }
  }

  lemma ReleaseKeepsTied(w: World, x: nat)
    requires Sound(w) && x < |w.g| && Spare(w, x) && (Leaf(w.g, x) ==> w.t.counts[x] == w.roots[x])
    ensures ClientTied(w.(roots := Less(w.roots, x)))
  {
    var v := w.(roots := Less(w.roots, x));
    forall a: nat, i: nat | Home(w.g, a, i) && w.g[a][i] < |w.g|
      ensures v.roots[w.g[a][i]] <= Allowed(v, a, w.g[a][i])
    {
      assert w.roots[w.g[a][i]] <= Allowed(w, a, w.g[a][i]);
    }
  }

  /** Whatever changes only counts and references, within the ties, keeps the rest. */
  lemma FrameSound(w: World, v: World)
    requires Sized(w) && Shaped(w) && Housed(w) && Sized(v) && v.g == w.g && v.kinds == w.kinds
    requires Good(v.g, v.t, v.roots, -1) && Settled(v) && ClientTied(v)
    ensures Sound(v)
  {
    forall a | 0 <= a < |v.g| ensures HasLayout(v, a) {
      assert HasLayout(w, a);
    }
  }

  lemma TiedFrame(v: World, u: World)
    requires Sized(v) && Sized(u) && u.g == v.g && u.kinds == v.kinds && u.roots == v.roots && u.table == v.table
    requires ClientTied(v)
    ensures ClientTied(u)
  {
    forall a: nat, i: nat | Home(u.g, a, i) && u.g[a][i] < |u.g|
      ensures u.roots[u.g[a][i]] <= Allowed(u, a, u.g[a][i])
    {
      assert v.roots[v.g[a][i]] <= Allowed(v, a, v.g[a][i]);
    }
  }

  /** Dropping a reference within the ties. */
  lemma DropSound(w: World, x: nat)
    requires Sound(w) && x < |w.g| && w.roots[x] > 0 && ClientTied(w.(roots := Less(w.roots, x)))
    ensures Sound(DropRef(w, x))
  {
    TiedByClients(w.(roots := Less(w.roots, x)));
    DropRefSound(w, x);
    TiedFrame(w.(roots := Less(w.roots, x)), DropRef(w, x));
    FrameSound(w, DropRef(w, x));
  }

  /** Taking one more within the ties. */
  lemma BumpSound(w: World, x: nat)
    requires Sound(w) && Live(w, x) && ClientTied(w.(roots := Bump(w.roots, x)))
    ensures Sound(Retained(w, x))
  {
    TiedByClients(w.(roots := Bump(w.roots, x)));
    RetainedSound(w, x);
    TiedFrame(w.(roots := Bump(w.roots, x)), Retained(w, x));
    FrameSound(w, Retained(w, x));
  }

  lemma ReleaseSound(w: World, x: nat)
    requires Sound(w) && x < |w.g| && Spare(w, x) && (Leaf(w.g, x) ==> w.t.counts[x] == w.roots[x])
    ensures Sound(DropRef(w, x))
  {
    ReleaseKeepsTied(w, x);
    DropSound(w, x);
  }

  /** A handle object is no HAL object, so more references to it loosen nothing. */
  lemma RetainSound(w: World, x: nat)
    requires Sound(w) && Live(w, x) && !IsHal(w.kinds[x])
    ensures Sound(Retained(w, x))
  {
    var v := w.(roots := Bump(w.roots, x));
    assert HasLayout(w, x);
    forall a: nat, i: nat | Home(w.g, a, i) && w.g[a][i] < |w.g|
      ensures v.roots[w.g[a][i]] <= Allowed(v, a, w.g[a][i])
    {
      assert w.roots[w.g[a][i]] <= Allowed(w, a, w.g[a][i]);
    }
    BumpSound(w, x);
  }

  /** One more allocator reference is fine while a client reference to the device is to spare. */
  lemma RetainLeafSound(w: World, x: nat, y: nat)
    requires Sound(w) && x < |w.g| && Live(w, y) && Slot(w.g, x, 0, y) && Leaf(w.g, y) && w.kinds[y] == HalAllocator
    requires w.kinds[x] == Device && w.roots[y] < Clients(w, x)
    ensures Sound(Retained(w, y))
  {
    LeafMoreTied(w, x, y);
    BumpSound(w, y);
  }

  lemma LeafMoreTied(w: World, x: nat, y: nat)
    requires Sized(w) && Shaped(w) && ClientTied(w) && Slot(w.g, x, 0, y) && Leaf(w.g, y) && w.kinds[y] == HalAllocator
    requires w.kinds[x] == Device && w.roots[y] < Clients(w, x)
    ensures ClientTied(w.(roots := Bump(w.roots, y)))
  {
    var v := w.(roots := Bump(w.roots, y));
    forall a: nat, i: nat | Home(w.g, a, i) && w.g[a][i] < |w.g|
      ensures v.roots[w.g[a][i]] <= Allowed(v, a, w.g[a][i])
    {
      assert w.roots[w.g[a][i]] <= Allowed(w, a, w.g[a][i]);
      if w.g[a][i] == y {
        DeviceHome(w, x, a, i);
      }
    }
  }

  /** What a live device's first field is, and what clients may hold of its HAL objects. */
  lemma DeviceSlots(w: World, x: nat)
    requires Sound(w) && x < |w.g| && w.kinds[x] == Device && |w.g[x]| == 3
    ensures w.g[x][0] != x && w.g[x][0] < |w.g|
    ensures var y := w.g[x][0];
            Slot(w.g, x, 0, y) && Leaf(w.g, y) && w.kinds[y] == HalAllocator && w.roots[y] <= Clients(w, x)
    ensures forall i :: 1 <= i < 3 ==> w.g[x][i] < |w.g| && w.roots[w.g[x][i]] == 0 && w.g[x][i] != w.g[x][0]
  {
    assert HasLayout(w, x);
    forall i | 0 <= i < 3
      ensures Slot(w.g, x, i, w.g[x][i]) && Leaf(w.g, w.g[x][i]) && w.roots[w.g[x][i]] <= Allowed(w, x, w.g[x][i])
    {
      assert HasLayout(w, w.g[x][i]);
      assert Slot(w.g, x, i, w.g[x][i]) && Leaf(w.g, w.g[x][i]);
    }
  }

  lemma RetainAllocatorSound(w: World, x: nat)
    requires Sound(w) && Legal(w, RetainAllocator(x))
    ensures Sound(Retained(Retained(w, w.g[x][0]), x))
  {
    var y := w.g[x][0];
    DeviceSlots(w, x);
    RetainSound(w, x);
    RetainLeafSound(Retained(w, x), x, y);
    RetainsCommute(w, x, y);
  }

  lemma RetainsCommute(w: World, x: nat, y: nat)
    requires Sized(w) && x < |w.g| && y < |w.g|
    ensures Retained(Retained(w, x), y) == Retained(Retained(w, y), x)
  {
  }

  lemma ReleaseLeafSound(w: World, x: nat, y: nat)
    requires Sound(w) && x < |w.g| && Slot(w.g, x, 0, y) && Leaf(w.g, y) && w.kinds[y] == HalAllocator && w.roots[y] > 0
    ensures Sound(DropRef(w, y))
  {
    LeafLessTied(w, y);
    DropSound(w, y);
  }

  lemma LeafLessTied(w: World, y: nat)
    requires Sized(w) && ClientTied(w) && Leaf(w.g, y) && w.kinds[y] == HalAllocator
    ensures ClientTied(w.(roots := Less(w.roots, y)))
  {
    var v := w.(roots := Less(w.roots, y));
    forall a: nat, i: nat | Home(w.g, a, i) && w.g[a][i] < |w.g|
      ensures v.roots[w.g[a][i]] <= Allowed(v, a, w.g[a][i])
    {
      assert w.roots[w.g[a][i]] <= Allowed(w, a, w.g[a][i]);
    }
  }

  /** Giving back an allocator reference frees the device reference that came with it. */
  lemma StillSpare(w: World, x: nat)
    requires Sound(w) && Legal(w, ReleaseAllocator(x))
    ensures Spare(DropRef(w, w.g[x][0]), x) && !Leaf(w.g, x)
  {
    DeviceSlots(w, x);
    var v := DropRef(w, w.g[x][0]);
    forall i | 0 <= i < |w.g[x]| ensures v.roots[w.g[x][i]] < Clients(v, x) {
      assert i == 0 || i == 1 || i == 2;
    }
  }

  lemma ReleaseAllocatorSound(w: World, x: nat)
    requires Sound(w) && Legal(w, ReleaseAllocator(x))
    ensures Sound(DropRef(DropRef(w, w.g[x][0]), x))
  {
    var y := w.g[x][0];
    DeviceSlots(w, x);
    ReleaseLeafSound(w, x, y);
    StillSpare(w, x);
    ReleaseSound(DropRef(w, y), x);
  }

  lemma TableSound(w: World, table: seq<nat>)
    requires Sound(w) && |table| == |w.g| && ClientTied(w.(table := table))
    ensures Sound(w.(table := table))
  {
    FrameSound(w, w.(table := table));
  }

  lemma RegisterSound(w: World, x: nat)
    requires Sound(w) && Legal(w, Register(x))
    ensures Sound(w.(table := Bump(w.table, x)))
  {
    var v := w.(table := Bump(w.table, x));
    forall a: nat, i: nat | Home(w.g, a, i) && w.g[a][i] < |w.g|
      ensures v.roots[w.g[a][i]] <= Allowed(v, a, w.g[a][i])
    {
      assert w.roots[w.g[a][i]] <= Allowed(w, a, w.g[a][i]);
    }
    TableSound(w, v.table);
  }

  /** A table entry goes together with its reference, so clients hold what they held. */
  lemma EntryLessTied(w: World, x: nat)
    requires Sized(w) && ClientTied(w) && x < |w.g| && w.table[x] > 0
    ensures var u := w.(table := Less(w.table, x)); ClientTied(u) && ClientTied(u.(roots := Less(u.roots, x)))
  {
    var u := w.(table := Less(w.table, x));
    var v := u.(roots := Less(u.roots, x));
    forall a: nat, i: nat | Home(w.g, a, i) && w.g[a][i] < |w.g|
      ensures v.roots[w.g[a][i]] <= Allowed(v, a, w.g[a][i]) && u.roots[w.g[a][i]] <= Allowed(u, a, w.g[a][i])
    {
      assert w.roots[w.g[a][i]] <= Allowed(w, a, w.g[a][i]);
    }
  }

  lemma ShutdownSound(w: World, x: nat)
    requires Sound(w) && Legal(w, Shutdown(x))
    ensures Sound(DropRef(w.(table := Less(w.table, x)), x))
  {
    var u := w.(table := Less(w.table, x));
    EntryLessTied(w, x);
    TableSound(w, u.table);
    DropSound(u, x);
  }

  /** Every legal call keeps the accounting, the layouts and the teardown order. */
  lemma StepSound(w: World, c: Call)
    requires Sound(w) && Legal(w, c)
    ensures Sound(Apply(w, c))
  {
    match c
    case Create(k) => NewSound(w, k, []);
    case Wrap(k, fields) =>
      DistinctFields(w, c);
      NewSound(w, k, fields);
    case Retain(x) => RetainSound(w, x);
    case Release(x) => ReleaseSound(w, x);
    case VirtualRelease(x) =>
      assert HasLayout(w, x);
      ReleaseSound(w, x);
    case RetainAllocator(x) => RetainAllocatorSound(w, x);
    case ReleaseAllocator(x) => ReleaseAllocatorSound(w, x);
    case Register(x) => RegisterSound(w, x);
    case Shutdown(x) => ShutdownSound(w, x);
  }

  lemma {:induction false} ReachableSound(calls: seq<Call>)
    requires Exec(calls).At?
    ensures Sound(Exec(calls).world)
    decreases |calls|
  {
    if calls != [] {
      var k := |calls| - 1;
      ReachableSound(calls[..k]);
      StepSound(Exec(calls[..k]).world, calls[k]);
    }
  }

  // --- theorems over whole runs ---

  /** References to `x` held by the live objects among the first `n`. */
  function Holders(w: World, n: nat, x: nat): nat
    requires Sized(w) && n <= |w.g|
  {
    if n == 0 then 0 else Holders(w, n - 1, x) + (if w.t.counts[n - 1] > 0 then From(w.g[n - 1], 0, x) else 0)
  }

  lemma {:induction false} HoldersHeld(w: World, n: nat, x: nat)
    requires Sized(w) && Settled(w) && Untouched(w.g, w.t) && n <= |w.g|
    ensures Holders(w, n, x) == Held(w.g, w.t.dropped, n, x)
  {
    if n > 0 {
      HoldersHeld(w, n - 1, x);
    }
  }

  /** Accounting: in every reachable world the strong count of every object, and the reference
      count of every HAL object, is the number of client references plus table entries plus
      fields of live objects that hold it. */
  lemma CountsExact(calls: seq<Call>, x: nat)
    requires Exec(calls).At? && x < |Exec(calls).world.g|
    ensures var w := Exec(calls).world;
            Sized(w) && w.t.counts[x] == Clients(w, x) + w.table[x] + Holders(w, |w.g|, x)
  {
    ReachableSound(calls);
    HoldersHeld(Exec(calls).world, |Exec(calls).world.g|, x);
  }

  /** With no reference left outside, the objects fall one after the other, youngest first. */
  lemma {:induction false} AllFall(w: World, x: nat)
    requires Sound(w) && (forall y :: 0 <= y < |w.g| ==> w.roots[y] == 0) && x < |w.g|
    ensures w.t.counts[x] == 0
    decreases |w.g| - x
  {
    forall a: nat, i: nat | a < |w.g| && w.t.dropped[a] <= i < |w.g[a]|
      ensures w.g[a][i] != x
    {
      if a > x {
        AllFall(w, a);
      }
    }
    HeldZero(w.g, w.t.dropped, |w.g|, x);
  }

  /** No leak and no double free: once the clients hold nothing and both tables are empty, every
      object and every HAL object that was ever created has died, each exactly once. */
  lemma NothingLeft(calls: seq<Call>)
    requires Exec(calls).At?
    requires Sized(Exec(calls).world) && forall y :: 0 <= y < |Exec(calls).world.g| ==> Exec(calls).world.roots[y] == 0
    ensures var w := Exec(calls).world;
            && (forall x :: 0 <= x < |w.g| ==> w.t.counts[x] == 0 && x in w.t.log)
            && |w.t.log| == |w.g|
            && (forall p, q :: 0 <= p < q < |w.t.log| ==> w.t.log[p] != w.t.log[q])
  {
    var w := Exec(calls).world;
    ReachableSound(calls);
    forall x: nat | x < |w.g|
      ensures w.t.counts[x] == 0
    {
      AllFall(w, x);
    }
    DistinctCover(w.t.log, |w.g|);
  }

  lemma {:induction false} DistinctCover(log: seq<nat>, n: nat)
    requires forall p, q :: 0 <= p < q < |log| ==> log[p] != log[q]
    requires forall p :: 0 <= p < |log| ==> log[p] < n
    requires forall x :: 0 <= x < n ==> x in log
    ensures |log| == n
  {
    if n > 0 {
      assert n - 1 in log;
      var p :| 0 <= p < |log| && log[p] == n - 1;
      var rest := log[..p] + log[p + 1..];
      forall x | 0 <= x < n - 1
        ensures x in rest
      {
        assert x in log;
        var q :| 0 <= q < |log| && log[q] == x;
        assert rest[if q < p then q else q - 1] == x;
      }
      DistinctCover(rest, n - 1);
    }
  }

  /** `x` died before `y`, and `y` before everything it owns, as far as they are dead. */
  ghost predicate DiesFirst(w: World, a: nat, x: nat, y: nat) {
    && y < |w.g| && Sized(w)
    && (w.t.counts[y] == 0 ==> Before(w.t.log, a, x) && Before(w.t.log, x, y))
    && (forall k :: 0 <= k < |w.g[y]| && w.g[y][k] < |w.g| && w.t.counts[w.g[y][k]] == 0 ==>
          Before(w.t.log, x, y) && Before(w.t.log, y, w.g[y][k]))
  }

  lemma TeardownIn(w: World, a: nat, i: nat, j: nat)
    requires Sound(w) && a < |w.g| && i < j < |w.g[a]| && Leaf(w.g, w.g[a][i]) && !Shares(w.kinds[a], i)
    ensures DiesFirst(w, a, w.g[a][i], w.g[a][j])
  {
    var y := w.g[a][j];
    assert HasLayout(w, a);
    assert HomeFirst(w.g, w.t, a, i, j) && OwnerFirst(w.g, w.t, a, i);
    forall k: nat | k < |w.g[y]| && w.t.counts[w.g[y][k]] == 0
      ensures Before(w.t.log, w.g[a][i], y) && Before(w.t.log, y, w.g[y][k])
    {
      assert OwnerFirst(w.g, w.t, y, k);
    }
  }

  /** Teardown order in every run: the HAL objects of `a` die in field order, before the device (or
      module) in a later field, and before everything that device owns. */
  lemma TeardownOrder(calls: seq<Call>, a: nat, i: nat, j: nat)
    requires Exec(calls).At?
    ensures var w := Exec(calls).world;
            && Sized(w)
            && (a < |w.g| && i < j < |w.g[a]| && Leaf(w.g, w.g[a][i]) && !Shares(w.kinds[a], i) ==>
                  DiesFirst(w, a, w.g[a][i], w.g[a][j]))
  {
    var w := Exec(calls).world;
    ReachableSound(calls);
    if a < |w.g| && i < j < |w.g[a]| && Leaf(w.g, w.g[a][i]) && !Shares(w.kinds[a], i) {
      TeardownIn(w, a, i, j);
    }
  }

  /** A pool's allocator is its device's, and outlives the pool. */
  ghost predicate PoolFirst(w: World, b: nat)
    requires Sized(w) && b < |w.g|
  {
    && |w.g[b]| == 5 && w.g[b][4] < |w.g| && |w.g[w.g[b][4]]| == 3 && w.g[w.g[b][4]][0] == w.g[b][2] < |w.g|
    && (w.t.counts[w.g[b][2]] == 0 ==>
          && Before(w.t.log, b, w.g[b][1]) && Before(w.t.log, w.g[b][1], w.g[b][3])
          && Before(w.t.log, w.g[b][3], w.g[b][4]) && Before(w.t.log, w.g[b][4], w.g[b][2]))
  }

  predicate PoolShaped(w: World, b: nat)
    requires b < |w.g|
  {
    && |w.g[b]| == 5 && w.g[b][4] < |w.g| && |w.g[w.g[b][4]]| == 3 && w.g[w.g[b][4]][0] == w.g[b][2] < |w.g|
    && Leaf(w.g, w.g[b][1]) && Leaf(w.g, w.g[b][3])
  }

  lemma PoolShape(w: World, b: nat)
    requires Sized(w) && Shaped(w) && b < |w.g| && w.kinds[b] == PooledBuffer
    ensures PoolShaped(w, b)
  {
    assert HasLayout(w, b) && HasLayout(w, w.g[b][4]) && HasLayout(w, w.g[b][1]) && HasLayout(w, w.g[b][3]);
  }

  lemma PoolFromOrder(w: World, b: nat)
    requires Sized(w) && Buried(w.g, w.t) && b < |w.g| && PoolShaped(w, b)
    requires DiesFirst(w, b, w.g[b][1], w.g[b][3]) && DiesFirst(w, b, w.g[b][3], w.g[b][4])
    ensures PoolFirst(w, b)
  {
    var d := w.g[b][4];
    assert w.g[d][0] == w.g[b][2];
    if w.t.counts[w.g[b][2]] == 0 {
      LoggedDead(w, w.g[b][3], d);
    }
  }

  lemma PoolFirstIn(w: World, b: nat)
    requires Sound(w) && b < |w.g| && w.kinds[b] == PooledBuffer
    ensures PoolFirst(w, b)
  {
    PoolShape(w, b);
    TeardownIn(w, b, 1, 3);
    TeardownIn(w, b, 3, 4);
    PoolFromOrder(w, b);
  }

  /** The allocator outlives every pool that holds it: in every run it is dead only if the buffer and its
      pool died before the device, and the device before the allocator. */
  lemma AllocatorOutlivesPools(calls: seq<Call>, b: nat)
    requires Exec(calls).At?
    ensures var w := Exec(calls).world; Sized(w) && (b < |w.g| && w.kinds[b] == PooledBuffer ==> PoolFirst(w, b))
  {
    var w := Exec(calls).world;
    ReachableSound(calls);
    if b < |w.g| && w.kinds[b] == PooledBuffer {
      PoolFirstIn(w, b);
    }
  }

  lemma LoggedDead(w: World, x: nat, y: nat)
    requires Sized(w) && Buried(w.g, w.t) && Before(w.t.log, x, y)
    ensures x < |w.g| && w.t.counts[x] == 0
  {
    assert x in w.t.log;
  }

  /** While an object lives, every HAL object it reaches through its fields lives: its own, and its
      device's allocator, group and device. */
  lemma LiveHoldsAll(calls: seq<Call>, a: nat, i: nat)
    requires Exec(calls).At?
    ensures var w := Exec(calls).world;
            Live(w, a) && i < |w.g[a]| ==>
              Live(w, w.g[a][i]) && (forall k :: 0 <= k < |w.g[w.g[a][i]]| ==> Live(w, w.g[w.g[a][i]][k]))
  {
    var w := Exec(calls).world;
    ReachableSound(calls);
    if Live(w, a) && i < |w.g[a]| {
      HeldPositive(w.g, w.t.dropped, |w.g|, a, i);
      var y := w.g[a][i];
      assert w.t.counts[y] > 0;
      forall k: nat | k < |w.g[y]|
        ensures Live(w, w.g[y][k])
      {
        HeldPositive(w.g, w.t.dropped, |w.g|, y, k);
      }
    }
  }
}
