/** The handle boundary of handle.rs: objects behind `Arc` data pointers, updated in place. */
module Handles {
  import opened Wrappers
  import opened Ownership

  class Registry {
    /** The owning fields of every allocation, in declaration order; a handle is an index. */
    var fields: seq<seq<nat>>
    var strong: seq<nat>
    var dropped: seq<nat>
    var log: seq<nat>
    /** The references held outside the objects. */
    ghost var roots: seq<nat>

    constructor ()
      ensures Valid() && fields == [] && Model() == Tally([], [], []) && roots == []
    {
      fields, strong, dropped, log, roots := [], [], [], [], [];
    }

    /** Every strong count is explained, and everything died in order. */
    ghost predicate Valid()
      reads this
    {
      Good(fields, Model(), roots, -1)
    }

    function Model(): Tally
      reads this
    {
      Tally(strong, dropped, log)
    }

    /** into_handle: the object moves in with the references its fields own, which the caller owned;
        one strong reference. */
    method IntoHandle(value: seq<nat>) returns (h: nat)
      requires Valid() && (forall i :: 0 <= i < |value| ==> value[i] < |fields|)
      requires Affords(roots, value)
      requires Tied(fields + [value], Left(roots, value))
      modifies this
      ensures Valid() && h == |old(fields)|
      ensures fields == old(fields) + [value] && roots == Left(old(roots), value)
      ensures Model() == Tally(old(strong) + [1], old(dropped) + [0], old(log))
    {
      NewGood(fields, Model(), roots, value);
      h := |fields|;
      roots := Left(roots, value);
      fields := fields + [value];
      strong := strong + [1];
      dropped := dropped + [0];
    }

    /** handle_retain: one more strong reference, nothing else. */
    method Retain(h: nat)
      requires Valid() && h < |fields| && strong[h] > 0 && Tied(fields, roots[h := roots[h] + 1])
      modifies this`strong, this`roots
      ensures Valid() && strong == old(strong)[h := old(strong)[h] + 1] && roots == old(roots)[h := old(roots)[h] + 1]
    {
      OrderedFrame(fields, Model(), Model().(counts := strong[h := strong[h] + 1]));
      strong := strong[h := strong[h] + 1];
      roots := roots[h := roots[h] + 1];
    }

    /** handle_release of a reference the caller owns. */
    method Release(h: nat)
      requires Valid() && h < |fields| && roots[h] > 0 && Tied(fields, roots[h := roots[h] - 1])
      modifies this`strong, this`dropped, this`log, this`roots
      ensures Valid() && Model() == Ownership.Release(fields, old(Model()), h)
      ensures roots == old(roots)[h := old(roots)[h] - 1]
    {
      TakeInHand(fields, Model(), roots, h);
      roots := roots[h := roots[h] - 1];
      ReleaseGood(fields, Model(), h, roots);
      DropReference(h);
    }

    /** Drops the reference in hand: on the last one the fields drop in declaration order, each of them a
        release in turn.  With every count explained, the count released is never zero. */
    method DropReference(h: nat)
      requires h < |fields| && Good(fields, Model(), roots, h)
      modifies this`strong, this`dropped, this`log
      ensures Fits(fields, Model()) && Model() == Ownership.Release(fields, old(Model()), h)
      decreases h, |fields[h]| + 1
    {
      assert strong[h] > 0;
      if strong[h] > 1 {
        strong := strong[h := strong[h] - 1];
        return;
      }
      DeathGood(fields, Model(), roots, h);
      strong := strong[h := 0];
      log := log + [h];
      DropOwned(h);
    }

    /** The drop glue of one object. */
    method DropOwned(h: nat)
      requires h < |fields| && Valid() && strong[h] == 0 && dropped[h] == 0
      modifies this`strong, this`dropped, this`log
      ensures Fits(fields, Model()) && Model() == DropFields(fields, old(Model()), h, |fields[h]|)
      decreases h, |fields[h]|
    {
      var i := 0;
      while i < |fields[h]|
        invariant 0 <= i <= |fields[h]| && Fits(fields, Model())
        invariant Model() == DropFields(fields, old(Model()), h, i)
      {
        NextField(fields, old(Model()), h, i, roots);
        NextDrop(fields, old(Model()), h, i);
        dropped := dropped[h := i + 1];
        DropReference(fields[h][i]);
        i := i + 1;
      }
    }

    /** Gives up a reference that is not the last. */
    method DropShared(h: nat)
      requires Valid() && h < |fields| && roots[h] > 0 && strong[h] > 1 && Tied(fields, roots[h := roots[h] - 1])
      modifies this`strong, this`roots
      ensures Valid() && strong == old(strong)[h := old(strong)[h] - 1] && roots == old(roots)[h := old(roots)[h] - 1]
    {
      TakeInHand(fields, Model(), roots, h);
      DecrementGood(fields, Model(), roots[h := roots[h] - 1], h);
      roots := roots[h := roots[h] - 1];
      strong := strong[h := strong[h] - 1];
    }

    /** into_inner_handle of a reference the caller owns: the sole reference yields the object with its
        fields intact; what they hold stays accounted to it until the caller drops them.  With other
        references outstanding only the caller's is dropped. */
    method IntoInner(h: nat) returns (inner: Option<seq<nat>>)
      requires Valid() && h < |fields| && roots[h] > 0 && Tied(fields, roots[h := roots[h] - 1])
      modifies this`strong, this`log, this`roots
      ensures Valid() && roots == old(roots)[h := old(roots)[h] - 1]
      ensures inner.Some? <==> old(strong)[h] == 1
      ensures inner.Some? ==> inner.value == fields[h] && dropped[h] == 0 && Model() == Died(old(Model()), h)
      ensures inner.None? ==> Model() == old(Model()).(counts := old(strong)[h := old(strong)[h] - 1])
    {
      if strong[h] > 1 {
        DropShared(h);
        return None;
      }
      assert strong[h] == roots[h] + Held(fields, dropped, |fields|, h);
      TakeInHand(fields, Model(), roots, h);
      DeathGood(fields, Model(), roots[h := roots[h] - 1], h);
      roots := roots[h := roots[h] - 1];
      strong := strong[h := 0];
      log := log + [h];
      return Some(fields[h]);
    }

    /** The owner of a taken-apart object drops its next field. */
    method DropField(h: nat)
      requires Valid() && h < |fields| && strong[h] == 0 && dropped[h] < |fields[h]|
      modifies this`strong, this`dropped, this`log
      ensures Valid() && strong[h] == 0 && dropped[h] == old(dropped)[h] + 1
      ensures var t := old(Model()); var k := t.dropped[h];
              Model() == Ownership.Release(fields, t.(dropped := t.dropped[h := k + 1]), fields[h][k])
    {
      var x := fields[h][dropped[h]];
      ghost var t := Model();
      ghost var u := t.(dropped := dropped[h := dropped[h] + 1]);
      FieldGone(fields, t, roots, h, dropped[h]);
      dropped := dropped[h := dropped[h] + 1];
      assert Model() == u;
      DropReference(x);
      assert Model() == Ownership.Release(fields, u, x);
    }

    /** The destructive release: the sole owner takes the object apart and drops its fields in order.  In
        the end it is what a release is; with other owners it gives up its own reference only. */
    method TakeApart(h: nat) returns (ok: bool)
      requires Valid() && h < |fields| && roots[h] > 0 && Tied(fields, roots[h := roots[h] - 1])
      modifies this`strong, this`dropped, this`log, this`roots
      ensures Valid() && roots == old(roots)[h := old(roots)[h] - 1] && ok == (old(strong)[h] == 1)
      ensures Model() == Ownership.Release(fields, old(Model()), h)
    {
      var inner := IntoInner(h);
      if inner.None? {
        return false;
      }
      DropFieldsGood(fields, Model(), h, |fields[h]|, roots);
      DropOwned(h);
      return true;
    }
  }

  /** The references to `x` that a new object's fields need are there. */
  predicate Covered(roots: seq<nat>, value: seq<nat>, x: nat) {
    x < |roots| ==> From(value, 0, x) <= roots[x]
  }

  ghost predicate Affords(roots: seq<nat>, value: seq<nat>) {
    forall x: nat :: Covered(roots, value, x)
  }

  /** The tally and the outside references after a new object was built. */
  function Grown(t: Tally): Tally {
    Tally(t.counts + [1], t.dropped + [0], t.log)
  }

  ghost function Left(roots: seq<nat>, value: seq<nat>): (r: seq<nat>)
    ensures |r| == |roots| + 1 && r[|roots|] == 1
  {
    seq(|roots|, x requires 0 <= x < |roots| => if Covered(roots, value, x) then roots[x] - From(value, 0, x) else 0) + [1]
  }

  /** The count of one object after a new one was built on it. */
  lemma NewCount(g: Graph, t: Tally, roots: seq<nat>, value: seq<nat>, x: nat)
    requires Fits(g, t) && |roots| == |g| && x < |g| && t.counts[x] == roots[x] + Held(g, t.dropped, |g|, x)
    requires Covered(roots, value, x)
    ensures Grown(t).counts[x] == Left(roots, value)[x] + Held(g + [value], Grown(t).dropped, |g + [value]|, x)
  {
    HeldNew(g, t.dropped, value, x);
  }

  lemma NewAccounted(g: Graph, t: Tally, roots: seq<nat>, value: seq<nat>)
    requires Fits(g, t) && |roots| == |g| && Accounted(g, t, roots, -1) && Acyclic(g)
    requires forall i :: 0 <= i < |value| ==> value[i] < |g|
    requires Affords(roots, value)
    ensures Accounted(g + [value], Grown(t), Left(roots, value), -1)
  {
    HeldLater(g, t.dropped, value);
    HeldNew(g, t.dropped, value, |g|);
    var g' := g + [value];
    forall x: nat | x < |g|
      ensures Grown(t).counts[x] == Left(roots, value)[x] + Held(g', Grown(t).dropped, |g'|, x)
    {
      assert Covered(roots, value, x);
      NewCount(g, t, roots, value, x);
    }
    assert Grown(t).counts[|g|] == Left(roots, value)[|g|] + Held(g', Grown(t).dropped, |g'|, |g|);
  }

  /** Building an object from owned references keeps every invariant. */
  lemma NewGood(g: Graph, t: Tally, roots: seq<nat>, value: seq<nat>)
    requires Good(g, t, roots, -1) && (forall i :: 0 <= i < |value| ==> value[i] < |g|)
    requires Affords(roots, value)
    requires Tied(g + [value], Left(roots, value))
    ensures Good(g + [value], Grown(t), Left(roots, value), -1)
  {
    NewAccounted(g, t, roots, value);
    NewOrder(g, t, roots, value);
    NewBuried(g, t, value);
  }

  lemma NewBuried(g: Graph, t: Tally, value: seq<nat>)
    requires Fits(g, t) && Buried(g, t)
    ensures Buried(g + [value], Grown(t))
  {
  }

  lemma NewOrder(g: Graph, t: Tally, roots: seq<nat>, value: seq<nat>)
    requires Good(g, t, roots, -1) && (forall i :: 0 <= i < |value| ==> value[i] < |g|)
    requires Affords(roots, value)
    ensures Acyclic(g + [value]) && Ordered(g + [value], Grown(t))
  {
    var n, g', t' := |g|, g + [value], Grown(t);
    forall a: nat, i: nat | a < |g'| && i < |g'[a]| ensures OwnerFirst(g', t', a, i) {
      if a < n {
        assert OwnerFirst(g, t, a, i);
      } else {
        FromPositive(value, 0, i);
        assert Covered(roots, value, value[i]);
      }
    }
    forall a: nat, i: nat, j: nat | a < |g'| && i < j < |g'[a]| ensures HomeFirst(g', t', a, i, j) {
      if a < n {
        assert HomeFirst(g, t, a, i, j);
        if Home(g', a, i) {
          HomeBefore(g, value, a, i);
        }
      } else {
        FromPositive(value, 0, j);
        assert Covered(roots, value, value[j]);
      }
    }
  }

  lemma HomeBefore(g: Graph, value: seq<nat>, a: nat, i: nat)
    requires Acyclic(g) && a < |g| && Home(g + [value], a, i)
    ensures Home(g, a, i)
  {
    var x := g[a][i];
    forall b: nat, j: nat | Slot(g, b, j, x)
      ensures (b == a && j == i) || Within(g, b, j, a)
    {
      assert Slot(g + [value], b, j, x);
      if b != a || j != i {
        var l: nat :| j < l && Slot(g + [value], b, l, a);
        assert Slot(g, b, l, a);
      }
    }
  }

  lemma NextDrop(g: Graph, t: Tally, h: nat, i: nat)
    requires Acyclic(g) && Fits(g, t) && h < |g| && i < |g[h]|
    ensures var u := DropFields(g, t, h, i);
            DropFields(g, t, h, i + 1) == Ownership.Release(g, u.(dropped := u.dropped[h := i + 1]), g[h][i])
  {
  }

  /** The next field to drop is a reference that the accounting knows about. */
  lemma NextField(g: Graph, t: Tally, h: nat, i: nat, roots: seq<nat>)
    requires Good(g, t, roots, -1) && h < |g| && i < |g[h]| && t.counts[h] == 0 && t.dropped[h] == 0
    ensures var u := DropFields(g, t, h, i);
            Good(g, u.(dropped := u.dropped[h := i + 1]), roots, g[h][i])
  {
    DropFieldsGood(g, t, h, i, roots);
    FieldsDropped(g, t, h, i, roots);
    FieldInHand(g, DropFields(g, t, h, i), roots, h, i);
  }

  /** Dropping the next field of a dead object keeps every invariant and leaves the object dead. */
  lemma FieldGone(g: Graph, t: Tally, roots: seq<nat>, h: nat, k: nat)
    requires Good(g, t, roots, -1) && h < |g| && t.counts[h] == 0 && t.dropped[h] == k < |g[h]|
    ensures var u := Ownership.Release(g, t.(dropped := t.dropped[h := k + 1]), g[h][k]);
            Good(g, u, roots, -1) && u.counts[h] == 0 && u.dropped[h] == k + 1
    ensures Good(g, t.(dropped := t.dropped[h := k + 1]), roots, g[h][k])
  {
    FieldInHand(g, t, roots, h, k);
    ReleaseGood(g, t.(dropped := t.dropped[h := k + 1]), g[h][k], roots);
    ReleaseComplete(g, t.(dropped := t.dropped[h := k + 1]), g[h][k]);
  }

  /** Taking an object apart keeps the accounting and the order of deaths: its fields' references pass to
      the caller. */
  lemma IntoInnerGood(g: Graph, t: Tally, roots: seq<nat>, roots': seq<nat>, h: nat)
    requires Good(g, t, roots, -1) && h < |g| && t.counts[h] == 1 && roots[h] == 1 && Tied(g, roots[h := 0])
    requires |roots'| == |g| && forall x: nat :: x < |g| ==> roots'[x] == (if x == h then 0 else roots[x] + From(g[h], 0, x))
    ensures Accounted(g, Tally(t.counts[h := 0], t.dropped[h := |g[h]|], t.log + [h]), roots', -1)
    ensures Buried(g, Tally(t.counts[h := 0], t.dropped[h := |g[h]|], t.log + [h]))
    ensures Ordered(g, Tally(t.counts[h := 0], t.dropped[h := |g[h]|], t.log + [h]))
  {
    forall x: nat | x < |g|
      ensures Held(g, t.dropped, |g|, x) == Held(g, t.dropped[h := |g[h]|], |g|, x) + From(g[h], 0, x)
    {
      HeldEmptied(g, t.dropped, |g|, h, x);
    }
    FromZero(g[h], 0, h);
    assert forall x :: x in t.log + [h] <==> x == h || x in t.log;
    LastOrdered(g, t, roots, h);
  }

  /** The death of an object that only a client holds keeps the order of deaths. */
  lemma LastOrdered(g: Graph, t: Tally, roots: seq<nat>, h: nat)
    requires Good(g, t, roots, -1) && h < |g| && t.counts[h] == 1 && roots[h] == 1 && Tied(g, roots[h := 0])
    ensures Ordered(g, Tally(t.counts[h := 0], t.dropped[h := |g[h]|], t.log + [h]))
  {
    var less := roots[h := 0];
    TakeInHand(g, t, roots, h);
    DeathOrdered(g, t, less, h);
    OrderedFrame(g, Died(t, h), Tally(t.counts[h := 0], t.dropped[h := |g[h]|], t.log + [h]));
  }

  lemma {:induction false} HeldEmptied(g: Graph, dropped: seq<nat>, n: nat, h: nat, x: nat)
    requires h < n <= |g| && n <= |dropped| && dropped[h] == 0
    ensures Held(g, dropped, n, x) == Held(g, dropped[h := |g[h]|], n, x) + From(g[h], 0, x)
  {
    if h == n - 1 {
      HeldFrame(g, g, dropped, dropped[h := |g[h]|], n - 1, x);
    } else {
      HeldEmptied(g, dropped, n - 1, h, x);
    }
  }
}
