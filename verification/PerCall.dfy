/** The per-call accounting that the owned model replaced.

    There, retaining an object also retains what some of its fields hold (for instance the HAL
    object and the device), again and again through them, and releasing undoes it; the remaining
    fields are held once, until the last release.  `policy` says which fields fan out.  Whatever it
    says, every object and every HAL object dies at the same call as in the owned model. */
module PerCall {
  import opened Ownership
  import opened Objects

  type Policy = (Kind, nat) -> bool

  /** What `count` references to an object put on one of its fields. */
  function Weight(fans: bool, count: nat): nat {
    if fans || count == 0 then count else 1
  }

  /** What an object with `count` references puts on `x` through its first `k` fields. */
  function Puts(p: Policy, kind: Kind, fields: seq<nat>, count: nat, k: nat, x: nat): nat
    requires k <= |fields|
  {
    if k == 0 then 0
    else Puts(p, kind, fields, count, k - 1, x) + (if fields[k - 1] == x then Weight(p(kind, k - 1), count) else 0)
  }

  function Load(p: Policy, w: World, c: seq<nat>, n: nat, x: nat): nat
    requires Sized(w) && n <= |w.g| && |c| == |w.g|
  {
    if n == 0 then 0 else Load(p, w, c, n - 1, x) + Puts(p, w.kinds[n - 1], w.g[n - 1], c[n - 1], |w.g[n - 1]|, x)
  }

  /** Every count is `refs` from outside plus what the objects put on it. */
  ghost predicate Explained(p: Policy, w: World, c: seq<nat>, refs: seq<int>) {
    && Sized(w) && |c| == |w.g| && |refs| == |w.g|
    && forall x: nat :: x < |w.g| ==> c[x] == refs[x] + Load(p, w, c, |w.g|, x)
  }

  /** Fields among the first `k` that a retain or release of the object touches. */
  function Touches(p: Policy, kind: Kind, fields: seq<nat>, all: bool, k: nat, x: nat): nat
    requires k <= |fields|
  {
    if k == 0 then 0
    else Touches(p, kind, fields, all, k - 1, x) + (if fields[k - 1] == x && (all || p(kind, k - 1)) then 1 else 0)
  }

  function RetainAll(p: Policy, w: World, c: seq<nat>, x: nat): (r: seq<nat>)
    requires Sized(w) && Acyclic(w.g) && |c| == |w.g| && x < |w.g|
    ensures |r| == |c|
    decreases x, |w.g[x]| + 1
  {
    RetainFields(p, w, c[x := c[x] + 1], x, |w.g[x]|)
  }

  function RetainFields(p: Policy, w: World, c: seq<nat>, x: nat, k: nat): (r: seq<nat>)
    requires Sized(w) && Acyclic(w.g) && |c| == |w.g| && x < |w.g| && k <= |w.g[x]|
    ensures |r| == |c|
    decreases x, k
  {
    if k == 0 then c
    else
      var d := RetainFields(p, w, c, x, k - 1);
      if p(w.kinds[x], k - 1) then RetainAll(p, w, d, w.g[x][k - 1]) else d
  }

  function ReleaseAll(p: Policy, w: World, c: seq<nat>, x: nat): (r: seq<nat>)
    requires Sized(w) && Acyclic(w.g) && |c| == |w.g| && x < |w.g|
    ensures |r| == |c|
    decreases x, |w.g[x]| + 1
  {
    if c[x] == 0 then c else ReleaseFields(p, w, c[x := c[x] - 1], x, c[x] == 1, |w.g[x]|)
  }

  /** Releases the fields that fan out, and on the last reference all of them. */
  function ReleaseFields(p: Policy, w: World, c: seq<nat>, x: nat, all: bool, k: nat): (r: seq<nat>)
    requires Sized(w) && Acyclic(w.g) && |c| == |w.g| && x < |w.g| && k <= |w.g[x]|
    ensures |r| == |c|
    decreases x, k
  {
    if k == 0 then c
    else
      var d := ReleaseFields(p, w, c, x, all, k - 1);
      if all || p(w.kinds[x], k - 1) then ReleaseAll(p, w, d, w.g[x][k - 1]) else d
  }

  // --- one count changes ---

  lemma {:induction false} PutsStep(p: Policy, kind: Kind, fields: seq<nat>, count: nat, k: nat, x: nat)
    requires k <= |fields|
    ensures Puts(p, kind, fields, count + 1, k, x) == Puts(p, kind, fields, count, k, x) + Touches(p, kind, fields, count == 0, k, x)
  {
    if k > 0 {
      PutsStep(p, kind, fields, count, k - 1, x);
    }
  }

  lemma {:induction false} LoadFrame(p: Policy, w: World, v: World, c: seq<nat>, d: seq<nat>, n: nat, x: nat)
    requires Sized(w) && Sized(v) && n <= |w.g| && n <= |v.g| && |c| == |w.g| && |d| == |v.g|
    requires forall a :: 0 <= a < n ==> w.g[a] == v.g[a] && w.kinds[a] == v.kinds[a] && c[a] == d[a]
    ensures Load(p, w, c, n, x) == Load(p, v, d, n, x)
  {
    if n > 0 {
      LoadFrame(p, w, v, c, d, n - 1, x);
    }
  }

  lemma {:induction false} LoadStep(p: Policy, w: World, c: seq<nat>, n: nat, a: nat, x: nat)
    requires Sized(w) && a < n <= |w.g| && |c| == |w.g|
    ensures Load(p, w, c[a := c[a] + 1], n, x) ==
            Load(p, w, c, n, x) + Touches(p, w.kinds[a], w.g[a], c[a] == 0, |w.g[a]|, x)
  {
    if a == n - 1 {
      LoadFrame(p, w, w, c[a := c[a] + 1], c, n - 1, x);
      PutsStep(p, w.kinds[a], w.g[a], c[a], |w.g[a]|, x);
    } else {
      LoadStep(p, w, c, n - 1, a, x);
    }
  }

  /** The outside references shifted by what the first `k` touched fields of `a` take (or give). */
  function Shift(p: Policy, w: World, refs: seq<int>, a: nat, all: bool, k: nat, sign: int): (r: seq<int>)
    requires Sized(w) && |refs| == |w.g| && a < |w.g| && k <= |w.g[a]|
    ensures |r| == |refs|
  {
    seq(|refs|, x requires 0 <= x < |refs| => refs[x] + sign * Touches(p, w.kinds[a], w.g[a], all, k, x))
  }

  // --- retain ---

  lemma {:induction false} RetainExplained(p: Policy, w: World, c: seq<nat>, refs: seq<int>, x: nat)
    requires Explained(p, w, c, refs) && Acyclic(w.g) && x < |w.g| && c[x] > 0
    requires forall a: nat, i: nat :: a < |w.g| && i < |w.g[a]| && c[a] > 0 ==> c[w.g[a][i]] > 0
    ensures Explained(p, w, RetainAll(p, w, c, x), refs[x := refs[x] + 1])
    ensures forall y :: 0 <= y < |c| ==> RetainAll(p, w, c, x)[y] >= c[y] && (c[y] == 0 ==> RetainAll(p, w, c, x)[y] == 0)
    decreases x, |w.g[x]| + 1
  {
    var n := |w.g[x]|;
    var c' := c[x := c[x] + 1];
    var owed := Shift(p, w, refs[x := refs[x] + 1], x, false, n, -1);
    forall y: nat | y < |w.g|
      ensures c'[y] == owed[y] + Load(p, w, c', |w.g|, y)
    {
      LoadStep(p, w, c, |w.g|, x, y);
    }
    RetainFieldsExplained(p, w, c', owed, x, n);
    assert Shift(p, w, owed, x, false, n, 1) == refs[x := refs[x] + 1];
  }

  lemma {:induction false} RetainFieldsExplained(p: Policy, w: World, c: seq<nat>, refs: seq<int>, x: nat, k: nat)
    requires Explained(p, w, c, refs) && Acyclic(w.g) && x < |w.g| && k <= |w.g[x]| && c[x] > 0
    requires forall a: nat, i: nat :: a < |w.g| && i < |w.g[a]| && c[a] > 0 ==> c[w.g[a][i]] > 0
    ensures Explained(p, w, RetainFields(p, w, c, x, k), Shift(p, w, refs, x, false, k, 1))
    ensures forall y :: 0 <= y < |c| ==> RetainFields(p, w, c, x, k)[y] >= c[y] && (c[y] == 0 ==> RetainFields(p, w, c, x, k)[y] == 0)
    decreases x, k
  {
    if k == 0 {
      assert Shift(p, w, refs, x, false, 0, 1) == refs;
    } else {
      RetainFieldsExplained(p, w, c, refs, x, k - 1);
      var d, f := RetainFields(p, w, c, x, k - 1), w.g[x][k - 1];
      var before, after := Shift(p, w, refs, x, false, k - 1, 1), Shift(p, w, refs, x, false, k, 1);
      if p(w.kinds[x], k - 1) {
        RetainExplained(p, w, d, before, f);
        assert after == before[f := before[f] + 1];
      } else {
        assert after == before;
      }
    }
  }

  // --- release ---

  ghost predicate NonNegative(refs: seq<int>) {
    forall x :: 0 <= x < |refs| ==> refs[x] >= 0
  }

  lemma {:induction false} ReleaseExplained(p: Policy, w: World, c: seq<nat>, refs: seq<int>, x: nat)
    requires Explained(p, w, c, refs) && Acyclic(w.g) && x < |w.g| && NonNegative(refs) && refs[x] > 0
    ensures Explained(p, w, ReleaseAll(p, w, c, x), refs[x := refs[x] - 1])
    decreases x, |w.g[x]| + 1
  {
    var n, all := |w.g[x]|, c[x] == 1;
    var c' := c[x := c[x] - 1];
    var held := Shift(p, w, refs[x := refs[x] - 1], x, all, n, 1);
    assert c'[x := c'[x] + 1] == c;
    forall y: nat | y < |w.g|
      ensures c'[y] == held[y] + Load(p, w, c', |w.g|, y)
    {
      LoadStep(p, w, c', |w.g|, x, y);
    }
    ReleaseFieldsExplained(p, w, c', refs[x := refs[x] - 1], x, all, n);
  }

  /** Before the first `k` fields are released, their references are in hand. */
  lemma {:induction false} ReleaseFieldsExplained(p: Policy, w: World, c: seq<nat>, refs: seq<int>, x: nat, all: bool, k: nat)
    requires Acyclic(w.g) && Sized(w) && |refs| == |w.g| && x < |w.g| && k <= |w.g[x]| && NonNegative(refs)
    requires Explained(p, w, c, Shift(p, w, refs, x, all, k, 1))
    ensures Explained(p, w, ReleaseFields(p, w, c, x, all, k), refs)
    decreases x, k
  {
    if k == 0 {
      assert Shift(p, w, refs, x, all, 0, 1) == refs;
    } else {
      var f := w.g[x][k - 1];
      if all || p(w.kinds[x], k - 1) {
        var more := refs[f := refs[f] + 1];
        assert Shift(p, w, refs, x, all, k, 1) == Shift(p, w, more, x, all, k - 1, 1);
        ReleaseFieldsExplained(p, w, c, more, x, all, k - 1);
        ReleaseExplained(p, w, ReleaseFields(p, w, c, x, all, k - 1), more, f);
        assert more[f := more[f] - 1] == refs;
      } else {
        assert Shift(p, w, refs, x, all, k, 1) == Shift(p, w, refs, x, all, k - 1, 1);
        ReleaseFieldsExplained(p, w, c, refs, x, all, k - 1);
      }
    }
  }

  // --- both models agree on who is alive ---

  lemma {:induction false} PutsZero(p: Policy, kind: Kind, fields: seq<nat>, count: nat, k: nat, x: nat)
    requires k <= |fields| && (count == 0 || forall i :: 0 <= i < k ==> fields[i] != x)
    ensures Puts(p, kind, fields, count, k, x) == 0
  {
    if k > 0 {
      PutsZero(p, kind, fields, count, k - 1, x);
    }
  }

  lemma {:induction false} PutsPositive(p: Policy, kind: Kind, fields: seq<nat>, count: nat, k: nat, i: nat)
    requires i < k <= |fields| && count > 0
    ensures Puts(p, kind, fields, count, k, fields[i]) > 0
  {
    if i < k - 1 {
      PutsPositive(p, kind, fields, count, k - 1, i);
    }
  }

  lemma {:induction false} LoadZero(p: Policy, w: World, c: seq<nat>, n: nat, x: nat)
    requires Sized(w) && n <= |w.g| && |c| == |w.g|
    requires forall a: nat, i: nat :: a < n && i < |w.g[a]| && w.g[a][i] == x ==> c[a] == 0
    ensures Load(p, w, c, n, x) == 0
  {
    if n > 0 {
      LoadZero(p, w, c, n - 1, x);
      PutsZero(p, w.kinds[n - 1], w.g[n - 1], c[n - 1], |w.g[n - 1]|, x);
    }
  }

  lemma {:induction false} LoadPositive(p: Policy, w: World, c: seq<nat>, n: nat, a: nat, i: nat)
    requires Sized(w) && a < n <= |w.g| && |c| == |w.g| && i < |w.g[a]| && c[a] > 0
    ensures Load(p, w, c, n, w.g[a][i]) > 0
  {
    if a == n - 1 {
      PutsPositive(p, w.kinds[a], w.g[a], c[a], |w.g[a]|, i);
    } else {
      LoadPositive(p, w, c, n - 1, a, i);
    }
  }

  /** The same references from outside keep the same nodes alive in both models. */
  lemma {:induction false} SameAlive(p: Policy, w: World, c: seq<nat>, x: nat)
    requires Sound(w) && Explained(p, w, c, w.roots) && x < |w.g|
    ensures w.t.counts[x] > 0 <==> c[x] > 0
    decreases |w.g| - x
  {
    forall a: nat, i: nat | a < |w.g| && i < |w.g[a]| && w.g[a][i] == x
      ensures w.t.counts[a] > 0 <==> c[a] > 0
    {
      SameAlive(p, w, c, a);
    }
    if a: nat, i: nat :| a < |w.g| && i < |w.g[a]| && w.g[a][i] == x && c[a] > 0 {
      LoadPositive(p, w, c, |w.g|, a, i);
      HeldPositive(w.g, w.t.dropped, |w.g|, a, i);
    } else {
      LoadZero(p, w, c, |w.g|, x);
      HeldZero(w.g, w.t.dropped, |w.g|, x);
    }
  }

  // --- whole runs ---

  /** One call in the per-call model.  `w` is the owned world before the call. */
  function Account(p: Policy, w: World, c: seq<nat>, call: Call): seq<nat>
    requires Legal(w, call) && Acyclic(w.g) && |c| == |w.g|
  {
    match call
    case Create(_) => c + [1]
    case Wrap(_, _) => c + [1]
    case Retain(x) => RetainAll(p, w, c, x)
    case Release(x) => ReleaseAll(p, w, c, x)
    case VirtualRelease(x) => ReleaseAll(p, w, c, x)
    case RetainAllocator(x) => RetainAll(p, w, RetainAll(p, w, c, w.g[x][0]), x)
    case ReleaseAllocator(x) => ReleaseAll(p, w, ReleaseAll(p, w, c, w.g[x][0]), x)
    case Register(_) => c
    case Shutdown(x) => ReleaseAll(p, w, c, x)
  }

  ghost function Counts(p: Policy, calls: seq<Call>): seq<nat>
    decreases |calls|
  {
    if calls == [] then []
    else
      var k := |calls| - 1;
      var before := Exec(calls[..k]);
      var c := Counts(p, calls[..k]);
      if before.At? && Legal(before.world, calls[k]) && Acyclic(before.world.g) && |c| == |before.world.g|
      then Account(p, before.world, c, calls[k]) else c
  }

  lemma ClosedAlive(p: Policy, w: World, c: seq<nat>)
    requires Sound(w) && Explained(p, w, c, w.roots)
    ensures forall a: nat, i: nat :: a < |w.g| && i < |w.g[a]| && c[a] > 0 ==> c[w.g[a][i]] > 0
  {
    forall a: nat, i: nat | a < |w.g| && i < |w.g[a]| && c[a] > 0
      ensures c[w.g[a][i]] > 0
    {
      LoadPositive(p, w, c, |w.g|, a, i);
    }
  }

  lemma {:induction false} PutsOnce(p: Policy, kind: Kind, fields: seq<nat>, k: nat, x: nat)
    requires k <= |fields| && forall i, j :: 0 <= i < j < |fields| ==> fields[i] != fields[j]
    ensures Puts(p, kind, fields, 1, k, x) == if exists i :: 0 <= i < k && fields[i] == x then 1 else 0
  {
    if k > 0 {
      PutsOnce(p, kind, fields, k - 1, x);
    }
  }

  lemma NewExplained(p: Policy, w: World, c: seq<nat>, kind: Kind, fields: seq<nat>)
    requires Sound(w) && Explained(p, w, c, w.roots) && Wrappable(w, kind, fields)
    ensures Explained(p, AddNode(w, kind, fields), c + [1], AddNode(w, kind, fields).roots)
  {
    var v, n, d := AddNode(w, kind, fields), |w.g|, c + [1];
    NewAcyclic(w, kind, fields);
    forall x: nat | x < |v.g|
      ensures d[x] == v.roots[x] + Load(p, v, d, |v.g|, x)
    {
      LoadFrame(p, v, w, d, c, n, x);
      PutsOnce(p, kind, fields, |fields|, x);
      if x == n {
        LoadZero(p, w, c, n, x);
      } else {
        assert c[x] == w.roots[x] + Load(p, w, c, n, x);
        if i :| 0 <= i < |fields| && fields[i] == x {
          FieldOwned(w, kind, fields, i);
          assert x in fields;
        }
      }
    }
  }

  /** Explained depends on the graph and the kinds only. */
  lemma SameGraph(p: Policy, w: World, v: World, c: seq<nat>, refs: seq<int>)
    requires Explained(p, w, c, refs) && Sized(v) && v.g == w.g && v.kinds == w.kinds
    ensures Explained(p, v, c, refs)
  {
    forall x: nat | x < |w.g|
      ensures c[x] == refs[x] + Load(p, v, c, |v.g|, x)
    {
      LoadFrame(p, w, v, c, c, |w.g|, x);
    }
  }

  lemma CountsRetain(p: Policy, w: World, c: seq<nat>, x: nat)
    requires Sound(w) && Explained(p, w, c, w.roots) && Live(w, x)
    ensures Explained(p, Retained(w, x), RetainAll(p, w, c, x), Retained(w, x).roots)
  {
    ClosedAlive(p, w, c);
    SameAlive(p, w, c, x);
    RetainExplained(p, w, c, w.roots, x);
    SameGraph(p, w, Retained(w, x), RetainAll(p, w, c, x), Bump(w.roots, x));
  }

  lemma CountsRelease(p: Policy, w: World, v: World, c: seq<nat>, x: nat)
    requires Explained(p, w, c, w.roots) && Acyclic(w.g) && x < |w.g| && w.roots[x] > 0
    requires Sized(v) && v.g == w.g && v.kinds == w.kinds && v.roots == Less(w.roots, x)
    ensures Explained(p, v, ReleaseAll(p, w, c, x), v.roots)
  {
    ReleaseExplained(p, w, c, w.roots, x);
    SameGraph(p, w, v, ReleaseAll(p, w, c, x), v.roots);
  }

  lemma StepExplained(p: Policy, w: World, c: seq<nat>, call: Call)
    requires Sound(w) && Legal(w, call) && Explained(p, w, c, w.roots)
    ensures Explained(p, Apply(w, call), Account(p, w, c, call), Apply(w, call).roots)
  {
    match call
    case Create(k) => NewExplained(p, w, c, k, []);
    case Wrap(k, fields) =>
      DistinctFields(w, call);
      NewExplained(p, w, c, k, fields);
    case Retain(x) => CountsRetain(p, w, c, x);
    case Release(x) => CountsRelease(p, w, DropRef(w, x), c, x);
    case VirtualRelease(x) => CountsRelease(p, w, DropRef(w, x), c, x);
    case RetainAllocator(x) => AllocatorRetain(p, w, c, x);
    case ReleaseAllocator(x) => AllocatorRelease(p, w, c, x);
    case Register(x) => SameGraph(p, w, Apply(w, call), c, w.roots);
    case Shutdown(x) => CountsRelease(p, w, Apply(w, call), c, x);
  }

  lemma AllocatorRetain(p: Policy, w: World, c: seq<nat>, x: nat)
    requires Sound(w) && Legal(w, RetainAllocator(x)) && Explained(p, w, c, w.roots)
    ensures Explained(p, Apply(w, RetainAllocator(x)), Account(p, w, c, RetainAllocator(x)), Apply(w, RetainAllocator(x)).roots)
  {
    var y := w.g[x][0];
    var d := RetainAll(p, w, c, y);
    ClosedAlive(p, w, c);
    SameAlive(p, w, c, x);
    SameAlive(p, w, c, y);
    RetainExplained(p, w, c, w.roots, y);
    RetainExplained(p, w, d, Bump(w.roots, y), x);
    SameGraph(p, w, Apply(w, RetainAllocator(x)), RetainAll(p, w, d, x), Bump(Bump(w.roots, y), x));
  }

  lemma AllocatorRelease(p: Policy, w: World, c: seq<nat>, x: nat)
    requires Sound(w) && Legal(w, ReleaseAllocator(x)) && Explained(p, w, c, w.roots)
    ensures Explained(p, Apply(w, ReleaseAllocator(x)), Account(p, w, c, ReleaseAllocator(x)), Apply(w, ReleaseAllocator(x)).roots)
  {
    var y := w.g[x][0];
    DeviceSlots(w, x);
    ReleaseExplained(p, w, c, w.roots, y);
    ReleaseExplained(p, w, ReleaseAll(p, w, c, y), Less(w.roots, y), x);
    SameGraph(p, w, Apply(w, ReleaseAllocator(x)), Account(p, w, c, ReleaseAllocator(x)), Less(Less(w.roots, y), x));
  }

  lemma {:induction false} ReachableExplained(p: Policy, calls: seq<Call>)
    requires Exec(calls).At?
    ensures Explained(p, Exec(calls).world, Counts(p, calls), Exec(calls).world.roots)
    decreases |calls|
  {
    if calls != [] {
      var k := |calls| - 1;
      ReachableExplained(p, calls[..k]);
      ReachableSound(calls[..k]);
      StepExplained(p, Exec(calls[..k]).world, Counts(p, calls[..k]), calls[k]);
    }
  }

  /** Simulation: after every legal sequence of calls, and so after every prefix of it, a node is
      dead in the owned model exactly when it is dead under per-call accounting, whichever fields
      the latter fans out to. */
  lemma SameDeaths(p: Policy, calls: seq<Call>, x: nat)
    requires Exec(calls).At?
    ensures Sized(Exec(calls).world) && |Counts(p, calls)| == |Exec(calls).world.g|
    ensures x < |Counts(p, calls)| ==> (Exec(calls).world.t.counts[x] == 0 <==> Counts(p, calls)[x] == 0)
  {
    ReachableSound(calls);
    ReachableExplained(p, calls);
    if x < |Counts(p, calls)| {
      SameAlive(p, Exec(calls).world, Counts(p, calls), x);
    }
  }
}
