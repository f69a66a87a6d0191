/** Reference counts, cascading release and teardown order.

    Every handle object (an `Arc`) and every HAL object is a node.  A node owns the nodes in its
    fields, in declaration order; a HAL object owns nothing.  A node can own only nodes that exist
    when it is built, so owned ids are smaller.  Dropping the last reference to a node drops its
    fields in declaration order, and so on down. */
module Ownership {

  /** The fields of each node. */
  type Graph = seq<seq<nat>>

  /** Strong counts, how many fields of each node have been dropped, and the order of deaths. */
  datatype Tally = Tally(counts: seq<nat>, dropped: seq<nat>, log: seq<nat>)

  ghost predicate Acyclic(g: Graph) {
    forall a: nat, i: nat :: a < |g| && i < |g[a]| ==> g[a][i] < a
  }

  predicate Fits(g: Graph, t: Tally) {
    |t.counts| == |g| && |t.dropped| == |g|
  }

  /** Drop one reference to `id`. */
  function Release(g: Graph, t: Tally, id: nat): (r: Tally)
    requires Acyclic(g) && Fits(g, t) && id < |g|
    ensures Fits(g, r)
    decreases id, |g[id]| + 1
  {
    if t.counts[id] == 0 then t
    else if t.counts[id] > 1 then t.(counts := t.counts[id := t.counts[id] - 1])
    else DropFields(g, t.(counts := t.counts[id := 0], log := t.log + [id]), id, |g[id]|)
  }

  /** Drop the first `k` fields of `id`, in declaration order. */
  function DropFields(g: Graph, t: Tally, id: nat, k: nat): (r: Tally)
    requires Acyclic(g) && Fits(g, t) && id < |g| && k <= |g[id]|
    ensures Fits(g, r)
    decreases id, k
  {
    if k == 0 then t
    else
      var u := DropFields(g, t, id, k - 1);
      Release(g, u.(dropped := u.dropped[id := k]), g[id][k - 1])
  }

  // --- accounting ---

  /** References to `x` among the fields from position `k` on. */
  function From(fields: seq<nat>, k: nat, x: nat): nat
    decreases |fields| - k
  {
    if k >= |fields| then 0 else (if fields[k] == x then 1 else 0) + From(fields, k + 1, x)
  }

  /** References to `x` still held by fields of the first `n` nodes. */
  function Held(g: Graph, dropped: seq<nat>, n: nat, x: nat): nat
    requires n <= |g| && n <= |dropped|
  {
    if n == 0 then 0 else Held(g, dropped, n - 1, x) + From(g[n - 1], dropped[n - 1], x)
  }

  /** Every count is explained: references outside the graph, references held by fields, and the
      one reference `hand` that is being released right now. */
  ghost predicate Accounted(g: Graph, t: Tally, roots: seq<nat>, hand: int)
    requires Fits(g, t) && |roots| == |g|
  {
    forall x: nat :: x < |g| ==> t.counts[x] == roots[x] + Held(g, t.dropped, |g|, x) + (if x == hand then 1 else 0)
  }

  /** The dead are exactly the logged ones, each once; only the dead have dropped fields. */
  ghost predicate Buried(g: Graph, t: Tally)
    requires Fits(g, t)
  {
    && (forall x: nat :: x < |g| ==> (t.counts[x] == 0 <==> x in t.log))
    && (forall p, q :: 0 <= p < q < |t.log| ==> t.log[p] != t.log[q])
    && (forall p :: 0 <= p < |t.log| ==> t.log[p] < |g|)
    && (forall x: nat :: x < |g| ==> t.dropped[x] <= |g[x]| && (t.dropped[x] > 0 ==> t.counts[x] == 0))
  }

  predicate Leaf(g: Graph, x: nat) {
    x < |g| && g[x] == []
  }

  /** Field `i` of node `a` holds `x`. */
  predicate Slot(g: Graph, a: nat, i: nat, x: nat) {
    a < |g| && i < |g[a]| && g[a][i] == x
  }

  /** A later field of `b` than `j` holds `a`. */
  ghost predicate Within(g: Graph, b: nat, j: nat, a: nat) {
    exists l: nat :: j < l && Slot(g, b, l, a)
  }

  /** Field `i` of `a` is the home of a HAL object: any other field that holds the object belongs to a
      node that holds `a` in a later field, and so lets go of the object before it lets go of `a`. */
  ghost predicate Home(g: Graph, a: nat, i: nat) {
    && a < |g| && i < |g[a]| && Leaf(g, g[a][i])
    && forall b: nat, j: nat :: Slot(g, b, j, g[a][i]) ==> (b == a && j == i) || Within(g, b, j, a)
  }

  /** A reference from outside to a HAL object with a home comes with one to its owner there. */
  ghost predicate Tied(g: Graph, roots: seq<nat>)
    requires |roots| == |g|
  {
    forall a: nat, i: nat :: Home(g, a, i) && g[a][i] < |g| ==> roots[g[a][i]] <= roots[a]
  }

  ghost predicate Before(log: seq<nat>, x: nat, y: nat) {
    exists p, q :: 0 <= p < q < |log| && log[p] == x && log[q] == y
  }

  /** If what field `i` of `a` holds is dead, `a` died before it. */
  ghost predicate OwnerFirst(g: Graph, t: Tally, a: nat, i: nat)
    requires Acyclic(g) && Fits(g, t) && a < |g| && i < |g[a]|
  {
    t.counts[g[a][i]] == 0 ==> Before(t.log, a, g[a][i])
  }

  /** If what field `j` of `a` holds is dead, a HAL object at home in the earlier field `i` died before it. */
  ghost predicate HomeFirst(g: Graph, t: Tally, a: nat, i: nat, j: nat)
    requires Acyclic(g) && Fits(g, t) && a < |g| && i < j < |g[a]|
  {
    Home(g, a, i) && t.counts[g[a][j]] == 0 ==> Before(t.log, g[a][i], g[a][j])
  }

  /** Teardown order: an owner dies before what it owns, and a HAL object at home in an earlier field
      dies before whatever sits in a later field. */
  ghost predicate Ordered(g: Graph, t: Tally)
    requires Acyclic(g) && Fits(g, t)
  {
    && (forall a: nat, i: nat :: a < |g| && i < |g[a]| ==> OwnerFirst(g, t, a, i))
    && (forall a: nat, i: nat, j: nat :: a < |g| && i < j < |g[a]| ==> HomeFirst(g, t, a, i, j))
  }

  ghost predicate Good(g: Graph, t: Tally, roots: seq<nat>, hand: int) {
    && Acyclic(g) && Fits(g, t) && |roots| == |g| && Tied(g, roots)
    && Accounted(g, t, roots, hand) && Buried(g, t) && Ordered(g, t)
  }

  lemma {:induction false} FromPositive(fields: seq<nat>, k: nat, i: nat)
    requires k <= i < |fields|
    ensures From(fields, k, fields[i]) >= 1
    decreases i - k
  {
    if k < i {
      FromPositive(fields, k + 1, i);
    }
  }

  lemma {:induction false} FromZero(fields: seq<nat>, k: nat, x: nat)
    requires forall i :: k <= i < |fields| ==> fields[i] != x
    ensures From(fields, k, x) == 0
    decreases |fields| - k
  {
    if k < |fields| {
      FromZero(fields, k + 1, x);
    }
  }

  lemma {:induction false} HeldPositive(g: Graph, dropped: seq<nat>, n: nat, a: nat, i: nat)
    requires a < n <= |g| && n <= |dropped| && dropped[a] <= i < |g[a]|
    ensures Held(g, dropped, n, g[a][i]) >= 1
  {
    if a == n - 1 {
      FromPositive(g[a], dropped[a], i);
    } else {
      HeldPositive(g, dropped, n - 1, a, i);
    }
  }

  lemma {:induction false} HeldZero(g: Graph, dropped: seq<nat>, n: nat, x: nat)
    requires n <= |g| && n <= |dropped|
    requires forall a: nat, i: nat :: a < n && dropped[a] <= i < |g[a]| ==> g[a][i] != x
    ensures Held(g, dropped, n, x) == 0
  {
    if n > 0 {
      HeldZero(g, dropped, n - 1, x);
      FromZero(g[n - 1], dropped[n - 1], x);
    }
  }

  lemma {:induction false} HeldFrame(g: Graph, h: Graph, dropped: seq<nat>, other: seq<nat>, n: nat, x: nat)
    requires n <= |g| && n <= |h| && n <= |dropped| && n <= |other|
    requires forall a :: 0 <= a < n ==> g[a] == h[a] && dropped[a] == other[a]
    ensures Held(g, dropped, n, x) == Held(h, other, n, x)
  {
    if n > 0 {
      HeldFrame(g, h, dropped, other, n - 1, x);
    }
  }

  /** What a new node's fields hold comes on top. */
  lemma HeldNew(g: Graph, dropped: seq<nat>, fields: seq<nat>, x: nat)
    requires |dropped| == |g|
    ensures Held(g + [fields], dropped + [0], |g| + 1, x) == Held(g, dropped, |g|, x) + From(fields, 0, x)
  {
    HeldFrame(g + [fields], g, dropped + [0], dropped, |g|, x);
  }

  /** Nobody holds a node that is not there yet. */
  lemma HeldLater(g: Graph, dropped: seq<nat>, fields: seq<nat>)
    requires Acyclic(g) && |dropped| == |g| && forall i :: 0 <= i < |fields| ==> fields[i] < |g|
    ensures Held(g, dropped, |g|, |g|) == 0 && From(fields, 0, |g|) == 0
  {
    HeldZero(g, dropped, |g|, |g|);
    FromZero(fields, 0, |g|);
  }

  /** Dropping one more field moves one reference out of the graph. */
  lemma {:induction false} HeldDrop(g: Graph, dropped: seq<nat>, n: nat, id: nat, x: nat)
    requires id < n <= |g| && n <= |dropped| && dropped[id] < |g[id]|
    ensures Held(g, dropped, n, x) ==
            Held(g, dropped[id := dropped[id] + 1], n, x) + (if g[id][dropped[id]] == x then 1 else 0)
  {
    if id == n - 1 {
      HeldFrame(g, g, dropped, dropped[id := dropped[id] + 1], n - 1, x);
    } else {
      HeldDrop(g, dropped, n - 1, id, x);
    }
  }

  // --- one death ---

  /** When the last reference to `y` goes, no field that owns it still holds it. */
  lemma OwnersDropped(g: Graph, t: Tally, roots: seq<nat>, y: nat, a: nat, j: nat)
    requires Good(g, t, roots, y) && y < |g| && t.counts[y] == 1
    requires a < |g| && j < |g[a]| && g[a][j] == y
    ensures t.dropped[a] > j && t.counts[a] == 0 && roots[y] == 0
  {
    if t.dropped[a] <= j {
      HeldPositive(g, t.dropped, |g|, a, j);
    }
  }

  /** A HAL object whose home field was dropped is dead: whoever else held it held the owner longer. */
  lemma DroppedLeafDead(g: Graph, t: Tally, roots: seq<nat>, hand: int, a: nat, i: nat)
    requires Good(g, t, roots, hand) && Home(g, a, i) && i < t.dropped[a]
    requires g[a][i] != hand && a != hand
    ensures t.counts[g[a][i]] == 0
  {
    var x := g[a][i];
    assert t.counts[a] == roots[a] + Held(g, t.dropped, |g|, a);
    forall b: nat, k: nat | b < |g| && t.dropped[b] <= k < |g[b]|
      ensures g[b][k] != x
    {
      assert Slot(g, b, k, g[b][k]);
      if g[b][k] == x {
        var l: nat :| k < l && Slot(g, b, l, a);
        HeldPositive(g, t.dropped, |g|, b, l);
      }
    }
    HeldZero(g, t.dropped, |g|, x);
  }

  lemma BeforeLast(log: seq<nat>, x: nat, y: nat)
    requires x in log
    ensures Before(log + [y], x, y)
  {
    var p :| 0 <= p < |log| && log[p] == x;
    assert (log + [y])[p] == x && (log + [y])[|log|] == y;
  }

  lemma BeforeGrows(log: seq<nat>, z: nat, x: nat, y: nat)
    requires Before(log, x, y)
    ensures Before(log + [z], x, y)
  {
    var p, q :| 0 <= p < q < |log| && log[p] == x && log[q] == y;
    assert (log + [z])[p] == x && (log + [z])[q] == y;
  }

  function Died(t: Tally, y: nat): Tally
    requires y < |t.counts|
  {
    t.(counts := t.counts[y := 0], log := t.log + [y])
  }

  lemma DeathOrdered(g: Graph, t: Tally, roots: seq<nat>, y: nat)
    requires Good(g, t, roots, y) && y < |g| && t.counts[y] == 1
    ensures Ordered(g, Died(t, y))
  {
    var u := Died(t, y);
    forall a: nat, i: nat | a < |g| && i < |g[a]|
      ensures OwnerFirst(g, u, a, i)
    {
      if g[a][i] == y {
        OwnersDropped(g, t, roots, y, a, i);
        BeforeLast(t.log, a, y);
      } else if u.counts[g[a][i]] == 0 {
        assert OwnerFirst(g, t, a, i);
        BeforeGrows(t.log, y, a, g[a][i]);
      }
    }
    forall a: nat, i: nat, j: nat | a < |g| && i < j < |g[a]|
      ensures HomeFirst(g, u, a, i, j)
    {
      if Home(g, a, i) && u.counts[g[a][j]] == 0 {
        if g[a][j] == y {
          OwnersDropped(g, t, roots, y, a, j);
          assert Slot(g, a, i, g[a][i]) && Slot(g, a, j, y);
          DroppedLeafDead(g, t, roots, y, a, i);
          BeforeLast(t.log, g[a][i], y);
        } else {
          assert HomeFirst(g, t, a, i, j);
          BeforeGrows(t.log, y, g[a][i], g[a][j]);
        }
      }
    }
  }

  lemma DeathGood(g: Graph, t: Tally, roots: seq<nat>, y: nat)
    requires Good(g, t, roots, y) && y < |g| && t.counts[y] == 1
    ensures Good(g, Died(t, y), roots, -1)
  {
    DeathOrdered(g, t, roots, y);
    assert forall x :: x in Died(t, y).log <==> x == y || x in t.log;
  }

  /** An outside reference about to be dropped is the one in hand. */
  lemma TakeInHand(g: Graph, t: Tally, roots: seq<nat>, h: nat)
    requires Good(g, t, roots, -1) && h < |g| && roots[h] > 0 && Tied(g, roots[h := roots[h] - 1])
    ensures Good(g, t, roots[h := roots[h] - 1], h)
  {
    var less := roots[h := roots[h] - 1];
    forall x: nat | x < |g|
      ensures t.counts[x] == less[x] + Held(g, t.dropped, |g|, x) + (if x == h then 1 else 0)
    {
      assert t.counts[x] == roots[x] + Held(g, t.dropped, |g|, x);
    }
  }

  // --- the cascade ---

  /** Nodes that were dead keep their dropped fields; nodes that died dropped all of them. */
  ghost predicate Complete(g: Graph, t: Tally, u: Tally)
    requires Fits(g, t) && Fits(g, u)
  {
    forall a: nat :: a < |g| ==>
      && (t.counts[a] == 0 ==> u.counts[a] == 0 && u.dropped[a] == t.dropped[a])
      && (t.counts[a] > 0 && u.counts[a] == 0 ==> u.dropped[a] == |g[a]|)
      && u.counts[a] <= t.counts[a]
  }

  lemma OrderedFrame(g: Graph, t: Tally, u: Tally)
    requires Acyclic(g) && Fits(g, t) && Fits(g, u) && Ordered(g, t) && u.log == t.log
    requires forall x :: 0 <= x < |g| && u.counts[x] == 0 ==> t.counts[x] == 0
    ensures Ordered(g, u)
  {
    forall a: nat, i: nat | a < |g| && i < |g[a]| ensures OwnerFirst(g, u, a, i) {
      assert OwnerFirst(g, t, a, i);
    }
    forall a: nat, i: nat, j: nat | a < |g| && i < j < |g[a]| ensures HomeFirst(g, u, a, i, j) {
      assert HomeFirst(g, t, a, i, j);
    }
  }

  lemma DecrementGood(g: Graph, t: Tally, roots: seq<nat>, id: nat)
    requires Good(g, t, roots, id) && id < |g| && t.counts[id] > 1
    ensures Good(g, t.(counts := t.counts[id := t.counts[id] - 1]), roots, -1)
  {
    OrderedFrame(g, t, t.(counts := t.counts[id := t.counts[id] - 1]));
  }

  lemma FieldInHand(g: Graph, t: Tally, roots: seq<nat>, id: nat, k: nat)
    requires Good(g, t, roots, -1) && id < |g| && t.counts[id] == 0 && t.dropped[id] == k < |g[id]|
    ensures Good(g, t.(dropped := t.dropped[id := k + 1]), roots, g[id][k])
  {
    var u := t.(dropped := t.dropped[id := k + 1]);
    OrderedFrame(g, t, u);
    forall x: nat | x < |g|
      ensures u.counts[x] == roots[x] + Held(g, u.dropped, |g|, x) + (if x == g[id][k] then 1 else 0)
    {
      HeldDrop(g, t.dropped, |g|, id, x);
    }
  }

  ghost predicate Untouched(g: Graph, t: Tally)
    requires Fits(g, t)
  {
    forall a: nat :: a < |g| && t.counts[a] > 0 ==> t.dropped[a] == 0
  }

  lemma {:induction false} ReleaseComplete(g: Graph, t: Tally, id: nat)
    requires Acyclic(g) && Fits(g, t) && id < |g| && Untouched(g, t)
    ensures Complete(g, t, Release(g, t, id)) && Untouched(g, Release(g, t, id))
    decreases id, |g[id]| + 1
  {
    if t.counts[id] == 1 {
      DropFieldsComplete(g, Died(t, id), id, |g[id]|);
    }
  }

  lemma {:induction false} DropFieldsComplete(g: Graph, t: Tally, id: nat, k: nat)
    requires Acyclic(g) && Fits(g, t) && id < |g| && k <= |g[id]| && Untouched(g, t)
    requires t.counts[id] == 0 && t.dropped[id] == 0
    ensures var u := DropFields(g, t, id, k);
            Complete(g, t.(dropped := t.dropped[id := k]), u) && Untouched(g, u)
    decreases id, k
  {
    if k > 0 {
      DropFieldsComplete(g, t, id, k - 1);
      var u := DropFields(g, t, id, k - 1);
      ReleaseComplete(g, u.(dropped := u.dropped[id := k]), g[id][k - 1]);
    }
  }

  lemma FieldsDropped(g: Graph, t: Tally, id: nat, k: nat, roots: seq<nat>)
    requires Good(g, t, roots, -1) && id < |g| && k <= |g[id]| && t.counts[id] == 0 && t.dropped[id] == 0
    ensures DropFields(g, t, id, k).counts[id] == 0 && DropFields(g, t, id, k).dropped[id] == k
  {
    DropFieldsComplete(g, t, id, k);
  }

  /** Releasing a reference keeps every invariant, however far it cascades. */
  lemma {:induction false} ReleaseGood(g: Graph, t: Tally, id: nat, roots: seq<nat>)
    requires Good(g, t, roots, id) && id < |g|
    ensures Good(g, Release(g, t, id), roots, -1)
    decreases id, |g[id]| + 1
  {
    if t.counts[id] == 1 {
      DeathGood(g, t, roots, id);
      DropFieldsGood(g, Died(t, id), id, |g[id]|, roots);
    } else {
      DecrementGood(g, t, roots, id);
    }
  }

  lemma {:induction false} DropFieldsGood(g: Graph, t: Tally, id: nat, k: nat, roots: seq<nat>)
    requires Good(g, t, roots, -1) && id < |g| && k <= |g[id]| && t.counts[id] == 0 && t.dropped[id] == 0
    ensures Good(g, DropFields(g, t, id, k), roots, -1)
    decreases id, k
  {
    if k > 0 {
      DropFieldsGood(g, t, id, k - 1, roots);
      FieldsDropped(g, t, id, k - 1, roots);
      var u := DropFields(g, t, id, k - 1);
      FieldInHand(g, u, roots, id, k - 1);
      ReleaseGood(g, u.(dropped := u.dropped[id := k]), g[id][k - 1], roots);
    }
  }
}
