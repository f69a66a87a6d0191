/** The timeline chain of one stream: its k-th submission signals k and waits for k-1, so an
    out-of-order device still runs the stream's submissions one after the other. */
module Chain {
  import opened Wrappers
  import opened Timeline

  /** How many of the first `n` submissions belong to stream `s`. */
  function Owned(tasks: seq<Task>, n: nat, s: nat): nat
    requires n <= |tasks|
  {
    if n == 0 then 0 else Owned(tasks, n - 1, s) + (if tasks[n - 1].owner == s then 1 else 0)
  }

  lemma {:induction false} OwnedGrows(tasks: seq<Task>, i: nat, j: nat, s: nat)
    requires i < j <= |tasks|
    ensures Owned(tasks, j, s) >= Owned(tasks, i, s) + (if tasks[i].owner == s then 1 else 0)
    decreases j
  {
    if i < j - 1 {
      OwnedGrows(tasks, i, j - 1, s);
    }
  }

  lemma {:induction false} OwnedFrame(tasks: seq<Task>, other: seq<Task>, n: nat, s: nat)
    requires n <= |tasks| && n <= |other| && forall i :: 0 <= i < n ==> tasks[i].owner == other[i].owner
    ensures Owned(tasks, n, s) == Owned(other, n, s)
  {
    if n > 0 {
      OwnedFrame(tasks, other, n - 1, s);
    }
  }

  /** The chain: `cur` is the semaphore payload, `top` the last value submitted. */
  ghost predicate ChainOf(tasks: seq<Task>, s: nat, sem: nat, cur: nat, top: nat) {
    && Owned(tasks, |tasks|, s) == top && cur <= top
    && (forall i :: 0 <= i < |tasks| && tasks[i].owner == s ==> Link(tasks[i], Owned(tasks, i, s) + 1, sem, cur))
  }

  ghost predicate Link(t: Task, rank: nat, sem: nat, cur: nat)
    requires rank > 0
  {
    && t.signal == Point(sem, rank)
    && (t.finished <==> rank <= cur)
    && (t.order != [] && !t.finished ==> rank == cur + 1)
    && (rank > cur + 1 ==> Guarded(t, sem, rank - 1))
  }

  /** The submission waits for value `v` of the semaphore, or for a later one. */
  ghost predicate Guarded(t: Task, sem: nat, v: nat) {
    exists k :: 0 <= k < |t.waits| && t.waits[k].sem == sem && t.waits[k].value >= v
  }

  function Top(s: Stream): nat {
    if s.phase.Allocating? then s.timepoint + 1 else s.timepoint
  }

  ghost predicate Chained(m: Machine, s: nat) {
    && s < |m.streams| && m.streams[s].sem < |m.hal.sems|
    && ChainOf(m.hal.tasks, s, m.streams[s].sem, m.hal.sems[m.streams[s].sem], Top(m.streams[s]))
  }

  /** The semaphore has caught up with the timepoint: hrx_stream_query reports completion. */
  predicate Idle(m: Machine, s: nat) {
    s < |m.streams| && m.streams[s].sem < |m.hal.sems| && m.hal.sems[m.streams[s].sem] == m.streams[s].timepoint
  }

  /** The steps that stay on stream `s`'s chain.  `wait_on` stays on it from an idle stream, or when it
      names the stream's own timepoint or a later value. */
  ghost predicate Orderly(m: Machine, a: Action, s: nat)
    requires s < |m.streams|
  {
    match a
    case Advance(x) => x != s
    case AllocEnd(x, waited) => x == s ==> waited
    case Signal(p) => p.sem != m.streams[s].sem
    case WaitOn(x, p) => x == s ==> Idle(m, s) || (p.sem == m.streams[s].sem && p.value >= m.streams[s].timepoint)
    case _ => true
  }

  lemma AppendTask(tasks: seq<Task>, t: Task, s: nat, sem: nat, cur: nat, top: nat)
    requires ChainOf(tasks, s, sem, cur, top)
    requires t.owner == s ==>
               t.signal == Point(sem, top + 1) && !t.finished && t.order == [] && (top > cur ==> Guarded(t, sem, top))
    ensures ChainOf(tasks + [t], s, sem, cur, if t.owner == s then top + 1 else top)
  {
    var all := tasks + [t];
    OwnedFrame(all, tasks, |tasks|, s);
    forall i | 0 <= i < |all| && all[i].owner == s
      ensures Link(all[i], Owned(all, i, s) + 1, sem, cur)
    {
      OwnedFrame(all, tasks, i, s);
    }
  }

  /** A task whose waits are met and that has not signalled is the next link. */
  lemma NextLink(h: Hal, i: nat, s: nat, sem: nat, top: nat)
    requires sem < |h.sems| && ChainOf(h.tasks, s, sem, h.sems[sem], top)
    requires i < |h.tasks| && h.tasks[i].owner == s && !h.tasks[i].finished && WaitsMet(h, h.tasks[i])
    ensures h.tasks[i].signal == Point(sem, h.sems[sem] + 1)
    ensures Owned(h.tasks, i, s) == h.sems[sem]
  {
    var rank := Owned(h.tasks, i, s) + 1;
    assert Link(h.tasks[i], rank, sem, h.sems[sem]);
    if Guarded(h.tasks[i], sem, rank - 1) {
      var k :| 0 <= k < |h.tasks[i].waits| && h.tasks[i].waits[k].sem == sem && h.tasks[i].waits[k].value >= rank - 1;
      assert Met(h, h.tasks[i].waits[k]);
    }
  }

  /** The links before and after the next one do not notice its progress. */
  lemma OtherLink(t: Task, rank: nat, sem: nat, cur: nat, cur': nat)
    requires rank > 0 && rank != cur + 1 && cur <= cur' <= cur + 1 && Link(t, rank, sem, cur)
    ensures Link(t, rank, sem, cur')
  {
  }

  lemma LinkAfterUpdate(tasks: seq<Task>, i: nat, k: nat, s: nat, sem: nat, cur: nat, cur': nat)
    requires i < |tasks| && k < |tasks| && i != k && tasks[i].owner == tasks[k].owner == s
    requires Owned(tasks, i, s) == cur && cur <= cur' <= cur + 1 && Link(tasks[k], Owned(tasks, k, s) + 1, sem, cur)
    ensures Link(tasks[k], Owned(tasks, k, s) + 1, sem, cur')
  {
    if k < i {
      OwnedGrows(tasks, k, i, s);
    } else {
      OwnedGrows(tasks, i, k, s);
    }
    OtherLink(tasks[k], Owned(tasks, k, s) + 1, sem, cur, cur');
  }

  lemma UpdateTask(tasks: seq<Task>, i: nat, t: Task, s: nat, sem: nat, cur: nat, cur': nat, top: nat)
    requires ChainOf(tasks, s, sem, cur, top) && i < |tasks| && t.owner == tasks[i].owner == s
    requires Owned(tasks, i, s) == cur && cur <= cur' <= cur + 1 && Link(t, cur + 1, sem, cur')
    ensures ChainOf(tasks[i := t], s, sem, cur', top)
  {
    var all := tasks[i := t];
    OwnedFrame(all, tasks, |tasks|, s);
    OwnedGrows(tasks, i, |tasks|, s);
    forall k: nat | k < |all| && all[k].owner == s
      ensures Link(all[k], Owned(all, k, s) + 1, sem, cur')
    {
      OwnedFrame(all, tasks, k, s);
      if k != i {
        LinkAfterUpdate(tasks, i, k, s, sem, cur, cur');
      }
    }
  }

  lemma UpdateForeign(tasks: seq<Task>, i: nat, t: Task, s: nat, sem: nat, cur: nat, top: nat)
    requires ChainOf(tasks, s, sem, cur, top) && i < |tasks| && t.owner == tasks[i].owner != s
    ensures ChainOf(tasks[i := t], s, sem, cur, top)
  {
    var all := tasks[i := t];
    OwnedFrame(all, tasks, |tasks|, s);
    forall k | 0 <= k < |all| && all[k].owner == s
      ensures Link(all[k], Owned(all, k, s) + 1, sem, cur)
    {
      OwnedFrame(all, tasks, k, s);
      assert all[k] == tasks[k];
    }
  }

  lemma RunKeepsChain(m: Machine, a: Action, s: nat)
    requires Chained(m, s) && a.Run? && Enabled(m, a)
    ensures Chained(Next(m, a), s)
  {
    var task := m.hal.tasks[a.t];
    var sem, top := m.streams[s].sem, Top(m.streams[s]);
    var cur, t := m.hal.sems[sem], task.(order := task.order + [a.j]);
    if task.owner == s {
      NextLink(m.hal, a.t, s, sem, top);
      assert Link(task, cur + 1, sem, cur);
      UpdateTask(m.hal.tasks, a.t, t, s, sem, cur, cur, top);
    } else {
      UpdateForeign(m.hal.tasks, a.t, t, s, sem, cur, top);
    }
  }

  lemma FinishKeepsChain(m: Machine, a: Action, s: nat)
    requires WellFormed(m) && Chained(m, s) && a.Finish? && Enabled(m, a)
    ensures Chained(Next(m, a), s)
  {
    var task := m.hal.tasks[a.t];
    var sem, top := m.streams[s].sem, Top(m.streams[s]);
    var cur, t := m.hal.sems[sem], task.(finished := true);
    assert TaskWellFormed(m, task);
    if task.owner == s {
      NextLink(m.hal, a.t, s, sem, top);
      assert Link(task, cur + 1, sem, cur);
      UpdateTask(m.hal.tasks, a.t, t, s, sem, cur, cur + 1, top);
    } else {
      UpdateForeign(m.hal.tasks, a.t, t, s, sem, cur, top);
    }
  }

  lemma HostKeepsChain(m: Machine, a: Action, s: nat)
    requires WellFormed(m) && Chained(m, s) && !IsDevice(a) && Enabled(m, a) && Orderly(m, a, s)
    ensures Chained(Next(m, a), s)
  {
    HostTasks(m, a);
    var n := Next(m, a);
    var sem := m.streams[s].sem;
    assert n.hal.sems[sem] == m.hal.sems[sem] && n.streams[s].sem == sem;
    if n.hal.tasks != m.hal.tasks {
      var t: Task :| n.hal.tasks == m.hal.tasks + [t] && NewTask(m, a, t);
      assert t.waits != [] ==> Guarded(t, t.waits[0].sem, t.waits[0].value);
      AppendTask(m.hal.tasks, t, s, sem, m.hal.sems[sem], Top(m.streams[s]));
    }
  }

  lemma StepKeepsChain(m: Machine, a: Action, s: nat)
    requires WellFormed(m) && Chained(m, s) && Enabled(m, a) && Orderly(m, a, s)
    ensures Chained(Next(m, a), s)
  {
    if a.Run? {
      RunKeepsChain(m, a, s);
    } else if a.Finish? {
      FinishKeepsChain(m, a, s);
    } else {
      HostKeepsChain(m, a, s);
    }
  }

  // --- whole runs ---

  /** Every step of the run, from the creation of stream `s` on, stays on its chain. */
  ghost predicate OrderlyRun(actions: seq<Action>, s: nat)
    decreases |actions|
  {
    actions == [] ||
    (var k := |actions| - 1;
     && OrderlyRun(actions[..k], s)
     && (var before := Exec(START, actions[..k]);
         before.Some? && s < |before.value.streams| ==> Orderly(before.value, actions[k], s)))
  }

  lemma {:induction false} NoneOwned(tasks: seq<Task>, n: nat, s: nat)
    requires n <= |tasks| && forall i :: 0 <= i < n ==> tasks[i].owner < s
    ensures Owned(tasks, n, s) == 0
  {
    if n > 0 {
      NoneOwned(tasks, n - 1, s);
    }
  }

  lemma {:induction false} RankExists(tasks: seq<Task>, n: nat, s: nat, v: nat) returns (i: nat)
    requires n <= |tasks| && 1 <= v <= Owned(tasks, n, s)
    ensures i < n && tasks[i].owner == s && Owned(tasks, i, s) + 1 == v
    decreases n
  {
    if v <= Owned(tasks, n - 1, s) {
      i := RankExists(tasks, n - 1, s, v);
    } else {
      i := n - 1;
    }
  }

  /** A signal on the stream's semaphore carries the submission's rank. */
  lemma SignalRank(m: Machine, s: nat, i: nat)
    requires WellFormed(m) && Chained(m, s)
    requires i < |m.hal.tasks| && m.hal.tasks[i].signal.sem == m.streams[s].sem
    ensures m.hal.tasks[i].owner == s && m.hal.tasks[i].signal.value == Owned(m.hal.tasks, i, s) + 1
    ensures m.hal.tasks[i].signal.value <= Top(m.streams[s])
  {
    assert TaskWellFormed(m, m.hal.tasks[i]);
    assert m.hal.tasks[i].owner == s;
    OwnedGrows(m.hal.tasks, i, |m.hal.tasks|, s);
  }

  ghost predicate Signals(m: Machine, i: nat, p: Point) {
    i < |m.hal.tasks| && m.hal.tasks[i].signal == p
  }

  /** Exactly the values 1 .. Top are signalled on the stream's semaphore, each by one submission. */
  lemma SignalsExact(m: Machine, s: nat, v: nat)
    requires WellFormed(m) && Chained(m, s)
    ensures 1 <= v <= Top(m.streams[s]) <==> exists i: nat :: Signals(m, i, Point(m.streams[s].sem, v))
    ensures forall i: nat, j: nat :: Signals(m, i, Point(m.streams[s].sem, v)) && Signals(m, j, Point(m.streams[s].sem, v)) ==> i == j
  {
    var tasks, p := m.hal.tasks, Point(m.streams[s].sem, v);
    forall i: nat | Signals(m, i, p)
      ensures 1 <= v <= Top(m.streams[s]) && tasks[i].owner == s && v == Owned(tasks, i, s) + 1
    {
      SignalRank(m, s, i);
    }
    forall i: nat, j: nat | Signals(m, i, p) && Signals(m, j, p)
      ensures i == j
    {
      if i < j {
        OwnedGrows(tasks, i, j, s);
      } else if j < i {
        OwnedGrows(tasks, j, i, s);
      }
    }
    if 1 <= v <= Top(m.streams[s]) {
      var i := RankExists(tasks, |tasks|, s, v);
      assert Signals(m, i, p);
    }
  }

  /** In every orderly run the chain of every stream holds: the values signalled on its semaphore
      are exactly 1 .. Top, once each, and the k-th submission waits for k-1 unless k-1 was already
      reached when it was submitted. */
  lemma {:induction false} ReachableChained(actions: seq<Action>, s: nat)
    requires Exec(START, actions).Some? && OrderlyRun(actions, s)
    requires s < |Exec(START, actions).value.streams|
    ensures Chained(Exec(START, actions).value, s)
    decreases |actions|
  {
    var k := |actions| - 1;
    var m, a := Exec(START, actions[..k]).value, actions[k];
    ReachableWellFormed(actions[..k]);
    if s < |m.streams| {
      ReachableChained(actions[..k], s);
      StepKeepsChain(m, a, s);
    } else {
      assert forall i :: 0 <= i < |m.hal.tasks| ==> TaskWellFormed(m, m.hal.tasks[i]);
      NoneOwned(m.hal.tasks, |m.hal.tasks|, s);
    }
  }

  predicate Begun(t: Task) {
    t.order != [] || t.finished
  }

  /** Submissions `i` and `j` are stream `s`'s, `i` the earlier. */
  predicate Earlier(m: Machine, s: nat, i: nat, j: nat) {
    i < j < |m.hal.tasks| && m.hal.tasks[i].owner == s && m.hal.tasks[j].owner == s
  }

  /** Submissions of stream `s` execute in submission order: one that ran a command or signalled
      has every earlier one behind it. */
  ghost predicate InOrder(m: Machine, s: nat) {
    forall i: nat, j: nat :: Earlier(m, s, i, j) && Begun(m.hal.tasks[j]) ==> m.hal.tasks[i].finished
  }

  lemma ChainedInOrder(m: Machine, s: nat)
    requires Chained(m, s)
    ensures InOrder(m, s)
  {
    var tasks, sem := m.hal.tasks, m.streams[s].sem;
    forall i: nat, j: nat | Earlier(m, s, i, j) && Begun(tasks[j])
      ensures tasks[i].finished
    {
      OwnedGrows(tasks, i, j, s);
      assert Link(tasks[i], Owned(tasks, i, s) + 1, sem, m.hal.sems[sem]);
      assert Link(tasks[j], Owned(tasks, j, s) + 1, sem, m.hal.sems[sem]);
    }
  }

  /** Whatever order the device picks, an orderly run executes each stream in submission order, and
      a submission after a `wait_on` barrier starts only once the awaited point was reached. */
  lemma OrderlyRunsInOrder(actions: seq<Action>, s: nat)
    requires Exec(START, actions).Some? && OrderlyRun(actions, s)
    requires s < |Exec(START, actions).value.streams|
    ensures var m := Exec(START, actions).value;
            && InOrder(m, s)
            && (forall i: nat, j: nat, w :: Earlier(m, s, i, j) && Begun(m.hal.tasks[j]) && w in m.hal.tasks[i].waits ==> Met(m.hal, w))
  {
    var m := Exec(START, actions).value;
    ReachableChained(actions, s);
    ReachableWellFormed(actions);
    ChainedInOrder(m, s);
    forall i: nat, j: nat, w | Earlier(m, s, i, j) && Begun(m.hal.tasks[j]) && w in m.hal.tasks[i].waits
      ensures Met(m.hal, w)
    {
      assert TaskWellFormed(m, m.hal.tasks[i]);
    }
  }

  // --- without wait_on ---

  /** The wait list of the submission that follows `k` others of its stream. */
  function After(sem: nat, k: nat): seq<Point> {
    if k == 0 then [] else [Point(sem, k)]
  }

  ghost predicate Linked(tasks: seq<Task>, s: nat, sem: nat) {
    forall i: nat :: i < |tasks| && tasks[i].owner == s ==> tasks[i].waits == After(sem, Owned(tasks, i, s))
  }

  lemma LinkedAppend(tasks: seq<Task>, t: Task, s: nat, sem: nat)
    requires Linked(tasks, s, sem) && (t.owner == s ==> t.waits == After(sem, Owned(tasks, |tasks|, s)))
    ensures Linked(tasks + [t], s, sem)
  {
    var all := tasks + [t];
    forall i: nat | i < |all| && all[i].owner == s
      ensures all[i].waits == After(sem, Owned(all, i, s))
    {
      OwnedFrame(all, tasks, i, s);
    }
  }

  lemma LinkedUpdate(tasks: seq<Task>, i: nat, t: Task, s: nat, sem: nat)
    requires Linked(tasks, s, sem) && i < |tasks| && t.owner == tasks[i].owner && t.waits == tasks[i].waits
    ensures Linked(tasks[i := t], s, sem)
  {
    var all := tasks[i := t];
    forall k: nat | k < |all| && all[k].owner == s
      ensures all[k].waits == After(sem, Owned(all, k, s))
    {
      OwnedFrame(all, tasks, k, s);
    }
  }

  lemma StepKeepsLinked(m: Machine, a: Action, s: nat)
    requires WellFormed(m) && Chained(m, s) && Linked(m.hal.tasks, s, m.streams[s].sem)
    requires Enabled(m, a) && !(a.WaitOn? && a.s == s)
    ensures Linked(Next(m, a).hal.tasks, s, m.streams[s].sem)
  {
    var n, sem := Next(m, a), m.streams[s].sem;
    if IsDevice(a) {
      LinkedUpdate(m.hal.tasks, a.t, n.hal.tasks[a.t], s, sem);
    } else {
      HostTasks(m, a);
      if n.hal.tasks != m.hal.tasks {
        var t: Task :| n.hal.tasks == m.hal.tasks + [t] && NewTask(m, a, t);
        LinkedAppend(m.hal.tasks, t, s, sem);
      }
    }
  }

  /** In an orderly run in which the stream makes no `wait_on` call, its first submission waits on
      nothing and its k-th on exactly k-1; with `SignalsExact`, the whole chain. */
  lemma {:induction false} ReachableLinked(actions: seq<Action>, s: nat)
    requires Exec(START, actions).Some? && OrderlyRun(actions, s)
    requires s < |Exec(START, actions).value.streams|
    requires forall k :: 0 <= k < |actions| ==> !(actions[k].WaitOn? && actions[k].s == s)
    ensures var m := Exec(START, actions).value; Linked(m.hal.tasks, s, m.streams[s].sem)
    decreases |actions|
  {
    var k := |actions| - 1;
    var m, a := Exec(START, actions[..k]).value, actions[k];
    ReachableWellFormed(actions[..k]);
    if s < |m.streams| {
      ReachableLinked(actions[..k], s);
      ReachableChained(actions[..k], s);
      StepMonotone(m, a);
      StepKeepsLinked(m, a, s);
    } else {
      assert forall i :: 0 <= i < |m.hal.tasks| ==> TaskWellFormed(m, m.hal.tasks[i]);
    }
  }
}
