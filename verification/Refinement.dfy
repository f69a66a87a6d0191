/** Asynchronous, batched, out-of-order execution of a stream refines immediate execution. */
module Refinement {
  import opened Wrappers
  import opened Timeline
  import opened Chain

  /** `acc` followed by the operations among the first `n` commands, in recorded order. */
  function AddOps(acc: seq<Op>, cmds: seq<Cmd>, n: nat): seq<Op>
    requires n <= |cmds|
  {
    if n == 0 then acc
    else match cmds[n - 1]
      case Fence => AddOps(acc, cmds, n - 1)
      case Do(op) => AddOps(acc, cmds, n - 1) + [op]
  }

  /** `acc` followed by the operations of the first `n` steps of a submission, in the order the
      device chose. */
  function AddRan(acc: seq<Op>, cmds: seq<Cmd>, order: seq<nat>, n: nat): seq<Op>
    requires n <= |order|
  {
    if n == 0 then acc
    else if order[n - 1] >= |cmds| || cmds[order[n - 1]].Fence? then AddRan(acc, cmds, order, n - 1)
    else AddRan(acc, cmds, order, n - 1) + [cmds[order[n - 1]].op]
  }

  /** The operations stream `s` put into the first `n` submissions. */
  function OwnOps(tasks: seq<Task>, n: nat, s: nat): seq<Op>
    requires n <= |tasks|
  {
    if n == 0 then []
    else if tasks[n - 1].owner != s then OwnOps(tasks, n - 1, s)
    else AddOps(OwnOps(tasks, n - 1, s), tasks[n - 1].cmds, |tasks[n - 1].cmds|)
  }

  /** The operations the first `n` submissions executed for stream `s`. */
  function OwnRan(tasks: seq<Task>, n: nat, s: nat): seq<Op>
    requires n <= |tasks|
  {
    if n == 0 then []
    else if tasks[n - 1].owner != s then OwnRan(tasks, n - 1, s)
    else AddRan(OwnRan(tasks, n - 1, s), tasks[n - 1].cmds, tasks[n - 1].order, |tasks[n - 1].order|)
  }

  /** What the device executed on behalf of stream `s` in its first `n` operations. */
  function ProjectTo(log: seq<Executed>, n: nat, s: nat): seq<Op>
    requires n <= |log|
  {
    if n == 0 then []
    else if log[n - 1].owner != s then ProjectTo(log, n - 1, s)
    else ProjectTo(log, n - 1, s) + [log[n - 1].op]
  }

  /** What the device executed on behalf of stream `s`, in execution order. */
  function Project(log: seq<Executed>, s: nat): seq<Op> {
    ProjectTo(log, |log|, s)
  }

  /** A call that succeeded adds its operation to the program order of its stream. */
  function Accept(acc: seq<Op>, a: Action, s: nat): seq<Op> {
    match a
    case Record(x, op, r) => if x == s && r.Recorded? then acc + [op] else acc
    case AllocBegin(x, op) => if x == s then acc + [op] else acc
    case _ => acc
  }

  /** The operations of stream `s` whose calls succeeded, in program order. */
  function Accepted(actions: seq<Action>, s: nat): seq<Op> {
    if actions == [] then []
    else Accept(Accepted(actions[..|actions| - 1], s), actions[|actions| - 1], s)
  }

  /** No recorded operation of stream `s` was left without its ordering barrier. */
  ghost predicate FencedRun(actions: seq<Action>, s: nat) {
    forall k :: 0 <= k < |actions| ==> !(actions[k].Record? && actions[k].s == s && actions[k].r.FenceFailed?)
  }

  predicate Separated(cmds: seq<Cmd>, i: nat)
    requires i < |cmds|
  {
    cmds[i].Fence? || i == 0 || cmds[i - 1].Fence?
  }

  /** Consecutive operations have a fence between them. */
  ghost predicate Fenced(cmds: seq<Cmd>) {
    forall i: nat :: i < |cmds| ==> Separated(cmds, i)
  }

  ghost predicate Sealed(cmds: seq<Cmd>) {
    Fenced(cmds) && (cmds == [] || cmds[|cmds| - 1].Fence?)
  }

  function PendingCmds(s: Stream): seq<Cmd> {
    match s.pending case None => [] case Some(cb) => cb.cmds
  }

  /** The commands ran so far are a prefix, in recorded order. */
  ghost predicate InCommandOrder(t: Task) {
    |t.order| <= |t.cmds| && forall k :: 0 <= k < |t.order| ==> t.order[k] == k
  }

  ghost predicate Straight(tasks: seq<Task>, s: nat) {
    forall i :: 0 <= i < |tasks| && tasks[i].owner == s ==> Fenced(tasks[i].cmds) && InCommandOrder(tasks[i])
  }

  ghost predicate NoOps(cmds: seq<Cmd>) {
    forall i :: 0 <= i < |cmds| ==> cmds[i].Fence?
  }

  /** Host side: the accepted operations are the submitted ones followed by the pending ones. */
  ghost predicate Intake(st: Stream, tasks: seq<Task>, s: nat, accepted: seq<Op>) {
    && Sealed(PendingCmds(st))
    && (!st.hasWork ==> NoOps(PendingCmds(st)))
    && (st.phase.Closed? || AddOps(OwnOps(tasks, |tasks|, s), PendingCmds(st), |PendingCmds(st)|) == accepted)
  }

  /** Device side: what was executed is what the submissions ran, each one in recorded order. */
  ghost predicate Outflow(tasks: seq<Task>, log: seq<Executed>, s: nat) {
    Straight(tasks, s) && Project(log, s) == OwnRan(tasks, |tasks|, s)
  }

  ghost predicate Pipeline(m: Machine, s: nat, accepted: seq<Op>) {
    && s < |m.streams|
    && Intake(m.streams[s], m.hal.tasks, s, accepted)
    && Outflow(m.hal.tasks, m.hal.log, s)
  }

  // --- small facts ---

  lemma {:induction false} AddOpsFrame(acc: seq<Op>, cmds: seq<Cmd>, other: seq<Cmd>, n: nat)
    requires n <= |cmds| && n <= |other| && forall i :: 0 <= i < n ==> cmds[i] == other[i]
    ensures AddOps(acc, cmds, n) == AddOps(acc, other, n)
  {
    if n > 0 {
      AddOpsFrame(acc, cmds, other, n - 1);
    }
  }

  lemma {:induction false} AddNoOps(acc: seq<Op>, cmds: seq<Cmd>, n: nat)
    requires n <= |cmds| && NoOps(cmds)
    ensures AddOps(acc, cmds, n) == acc
  {
    if n > 0 {
      AddNoOps(acc, cmds, n - 1);
    }
  }

  /** Recording an operation and its fence, or a fence alone. */
  lemma AddOpsAppend(acc: seq<Op>, cmds: seq<Cmd>, op: Op)
    ensures AddOps(acc, cmds + [Fence], |cmds| + 1) == AddOps(acc, cmds, |cmds|)
    ensures AddOps(acc, cmds + [Do(op), Fence], |cmds| + 2) == AddOps(acc, cmds, |cmds|) + [op]
  {
    AddOpsFrame(acc, cmds + [Fence], cmds, |cmds|);
    AddOpsFrame(acc, cmds + [Do(op), Fence], cmds, |cmds|);
    assert AddOps(acc, cmds + [Do(op), Fence], |cmds| + 1) == AddOps(acc, cmds, |cmds|) + [op];
  }

  lemma SealedAppend(cmds: seq<Cmd>, more: seq<Cmd>)
    requires Sealed(cmds) && Sealed(more)
    ensures Sealed(cmds + more)
  {
    forall i: nat | i < |cmds + more|
      ensures Separated(cmds + more, i)
    {
      if i < |cmds| {
        assert Separated(cmds, i);
      } else {
        assert Separated(more, i - |cmds|);
      }
    }
  }

  lemma {:induction false} OwnOpsFrame(tasks: seq<Task>, other: seq<Task>, n: nat, s: nat)
    requires n <= |tasks| && n <= |other|
    requires forall i :: 0 <= i < n ==> tasks[i].owner == other[i].owner && tasks[i].cmds == other[i].cmds
    ensures OwnOps(tasks, n, s) == OwnOps(other, n, s)
  {
    if n > 0 {
      OwnOpsFrame(tasks, other, n - 1, s);
    }
  }

  lemma {:induction false} OwnRanFrame(tasks: seq<Task>, other: seq<Task>, n: nat, s: nat)
    requires n <= |tasks| && n <= |other|
    requires forall i :: 0 <= i < n ==>
               tasks[i].owner == other[i].owner && tasks[i].cmds == other[i].cmds &&
               (tasks[i].owner == s ==> tasks[i].order == other[i].order)
    ensures OwnRan(tasks, n, s) == OwnRan(other, n, s)
  {
    if n > 0 {
      OwnRanFrame(tasks, other, n - 1, s);
    }
  }

  lemma {:induction false} AddRanFrame(acc: seq<Op>, cmds: seq<Cmd>, order: seq<nat>, other: seq<nat>, n: nat)
    requires n <= |order| && n <= |other| && forall i :: 0 <= i < n ==> order[i] == other[i]
    ensures AddRan(acc, cmds, order, n) == AddRan(acc, cmds, other, n)
  {
    if n > 0 {
      AddRanFrame(acc, cmds, order, other, n - 1);
    }
  }

  /** Running one more command of the last submission that has begun extends what the stream ran. */
  lemma {:induction false} OwnRanExtends(tasks: seq<Task>, i: nat, j: nat, n: nat, s: nat)
    requires i < n <= |tasks| && tasks[i].owner == s && j < |tasks[i].cmds|
    requires forall k :: i < k < n && tasks[k].owner == s ==> tasks[k].order == []
    ensures var all := tasks[i := tasks[i].(order := tasks[i].order + [j])];
            OwnRan(all, n, s) == match tasks[i].cmds[j]
                                 case Fence => OwnRan(tasks, n, s)
                                 case Do(op) => OwnRan(tasks, n, s) + [op]
  {
    var t := tasks[i].(order := tasks[i].order + [j]);
    if i == n - 1 {
      OwnRanFrame(tasks[i := t], tasks, i, s);
      AddRanFrame(OwnRan(tasks, i, s), t.cmds, t.order, tasks[i].order, |tasks[i].order|);
    } else {
      OwnRanExtends(tasks, i, j, n - 1, s);
    }
  }

  /** With a fence between operations only the next command is ready. */
  lemma FencedReadyIsNext(t: Task, j: nat)
    requires Fenced(t.cmds) && InCommandOrder(t) && Ready(t.cmds, t.order, j)
    ensures j == |t.order|
  {
    forall k | 0 <= k < |t.order| ensures k in t.order {
      assert t.order[k] == k;
    }
    assert Separated(t.cmds, j);
    assert j > 0 ==> j - 1 in t.order;
  }

  /** A straight run executes the recorded operations. */
  lemma {:induction false} InOrderOps(acc: seq<Op>, cmds: seq<Cmd>, order: seq<nat>, n: nat)
    requires n <= |order| <= |cmds| && forall k :: 0 <= k < |order| ==> order[k] == k
    ensures AddRan(acc, cmds, order, n) == AddOps(acc, cmds, n)
  {
    if n > 0 {
      InOrderOps(acc, cmds, order, n - 1);
    }
  }

  lemma {:induction false} AllRanOps(tasks: seq<Task>, n: nat, s: nat)
    requires n <= |tasks| && Straight(tasks, s)
    requires forall i :: 0 <= i < n && tasks[i].owner == s ==> AllRan(tasks[i])
    ensures OwnRan(tasks, n, s) == OwnOps(tasks, n, s)
  {
    if n > 0 {
      AllRanOps(tasks, n - 1, s);
      var t := tasks[n - 1];
      if t.owner == s {
        assert |t.order| < |t.cmds| ==> |t.order| in t.order;
        InOrderOps(OwnRan(tasks, n - 1, s), t.cmds, t.order, |t.order|);
      }
    }
  }

  // --- every step keeps the pipeline ---

  lemma {:induction false} ProjectFrame(log: seq<Executed>, other: seq<Executed>, n: nat, s: nat)
    requires n <= |log| && n <= |other| && forall i :: 0 <= i < n ==> log[i] == other[i]
    ensures ProjectTo(log, n, s) == ProjectTo(other, n, s)
  {
    if n > 0 {
      ProjectFrame(log, other, n - 1, s);
    }
  }

  lemma OutflowRun(tasks: seq<Task>, log: seq<Executed>, s: nat, i: nat, j: nat)
    requires Outflow(tasks, log, s) && i < |tasks| && Ready(tasks[i].cmds, tasks[i].order, j)
    requires forall k :: tasks[i].owner == s && i < k < |tasks| && tasks[k].owner == s ==> tasks[k].order == []
    ensures var t := tasks[i].(order := tasks[i].order + [j]);
            && Outflow(tasks[i := t], if t.cmds[j].Do? then log + [Executed(t.owner, t.cmds[j].op)] else log, s)
  {
    var t := tasks[i].(order := tasks[i].order + [j]);
    if t.cmds[j].Do? {
      ProjectFrame(log + [Executed(t.owner, t.cmds[j].op)], log, |log|, s);
    }
    if t.owner == s {
      FencedReadyIsNext(tasks[i], j);
      OwnRanExtends(tasks, i, j, |tasks|, s);
    } else {
      OwnRanFrame(tasks[i := t], tasks, |tasks|, s);
    }
  }

  /** While a submission of the chain can run, none behind it has begun. */
  lemma LaterNotBegun(m: Machine, i: nat, j: nat, s: nat)
    requires Chained(m, s) && CanRun(m.hal, i, j) && m.hal.tasks[i].owner == s
    ensures forall k :: i < k < |m.hal.tasks| && m.hal.tasks[k].owner == s ==> m.hal.tasks[k].order == []
  {
    var tasks, sem := m.hal.tasks, m.streams[s].sem;
    NextLink(m.hal, i, s, sem, Top(m.streams[s]));
    forall k | i < k < |tasks| && tasks[k].owner == s
      ensures tasks[k].order == []
    {
      OwnedGrows(tasks, i, k, s);
      assert Link(tasks[k], Owned(tasks, k, s) + 1, sem, m.hal.sems[sem]);
    }
  }

  lemma RunKeepsPipeline(m: Machine, t: nat, j: nat, s: nat, accepted: seq<Op>)
    requires Chained(m, s) && Pipeline(m, s, accepted) && CanRun(m.hal, t, j)
    ensures Pipeline(m.(hal := DoRun(m.hal, t, j)), s, accepted)
  {
    if m.hal.tasks[t].owner == s {
      LaterNotBegun(m, t, j, s);
    }
    OutflowRun(m.hal.tasks, m.hal.log, s, t, j);
    OwnOpsFrame(DoRun(m.hal, t, j).tasks, m.hal.tasks, |m.hal.tasks|, s);
  }

  lemma FinishKeepsPipeline(m: Machine, t: nat, s: nat, accepted: seq<Op>)
    requires Pipeline(m, s, accepted) && CanFinish(m.hal, t)
    ensures Pipeline(m.(hal := DoFinish(m.hal, t)), s, accepted)
  {
    OwnOpsFrame(DoFinish(m.hal, t).tasks, m.hal.tasks, |m.hal.tasks|, s);
    OwnRanFrame(DoFinish(m.hal, t).tasks, m.hal.tasks, |m.hal.tasks|, s);
  }

  lemma SubmitOutflow(tasks: seq<Task>, log: seq<Executed>, t: Task, s: nat)
    requires Outflow(tasks, log, s) && t.order == [] && (t.owner == s ==> Fenced(t.cmds))
    ensures Outflow(tasks + [t], log, s)
  {
    OwnRanFrame(tasks + [t], tasks, |tasks|, s);
  }

  /** A call on another stream submits nothing of stream `s`. */
  lemma ForeignKeepsPipeline(m: Machine, x: nat, r: (Stream, Hal), s: nat, accepted: seq<Op>)
    requires Pipeline(m, s, accepted) && x < |m.streams| && x != s && r.1.log == m.hal.log
    requires r.1.tasks == m.hal.tasks ||
             exists t: Task :: r.1.tasks == m.hal.tasks + [t] && t.owner != s && t.order == []
    ensures Pipeline(Put(m, x, r), s, accepted)
  {
    if r.1.tasks != m.hal.tasks {
      var t: Task :| r.1.tasks == m.hal.tasks + [t] && t.owner != s && t.order == [];
      OwnOpsFrame(r.1.tasks, m.hal.tasks, |m.hal.tasks|, s);
      SubmitOutflow(m.hal.tasks, m.hal.log, t, s);
    }
  }

  /** A flush moves the pending operations behind the submitted ones. */
  lemma FlushKeepsPipeline(m: Machine, s: nat, f: FlushOutcome, accepted: seq<Op>)
    requires Pipeline(m, s, accepted) && m.streams[s].id == s && FlushFits(m.streams[s], f)
    ensures Pipeline(Put(m, s, FlushInner(m.streams[s], m.hal, f)), s, accepted)
  {
    var st := m.streams[s];
    if f.Submitted? {
      var t := Task(s, OwnWait(st), Point(st.sem, st.timepoint + 1), st.pending.value.cmds, [], false);
      OwnOpsFrame(m.hal.tasks + [t], m.hal.tasks, |m.hal.tasks|, s);
      SubmitOutflow(m.hal.tasks, m.hal.log, t, s);
    }
  }

  /** A direct submission on a flushed stream carries the operations it is accepted with. */
  lemma DirectKeepsPipeline(m: Machine, s: nat, st: Stream, waits: seq<Point>, cmds: seq<Cmd>, accepted: seq<Op>)
    requires Pipeline(m, s, accepted) && m.streams[s].id == s
    requires !HasPending(m.streams[s]) && !m.streams[s].phase.Closed? && |cmds| <= 1
    requires st.pending == m.streams[s].pending && st.hasWork == m.streams[s].hasWork
    ensures Pipeline(Put(m, s, (st, Submit(m.streams[s], m.hal, waits, cmds))), s, AddOps(accepted, cmds, |cmds|))
  {
    var before, tasks := m.streams[s], m.hal.tasks;
    var t := Task(s, waits, Point(before.sem, before.timepoint + 1), cmds, [], false);
    OwnOpsFrame(tasks + [t], tasks, |tasks|, s);
    SubmitOutflow(tasks, m.hal.log, t, s);
    AddNoOps(OwnOps(tasks, |tasks|, s), PendingCmds(before), |PendingCmds(before)|);
    AddNoOps(AddOps(accepted, cmds, |cmds|), PendingCmds(before), |PendingCmds(before)|);
  }

  lemma RecordedPending(st: Stream, h: Hal, op: Op, r: RecordOutcome)
    requires RecordFits(st, r) && !r.FenceFailed?
    ensures var cmds, after, fence := PendingCmds(st), RecordOp(st, h, op, r), RecordFence(st, h, r);
            && PendingCmds(after.0) == (if r.Recorded? then cmds + [Do(op), Fence] else cmds)
            && PendingCmds(fence.0) == (if r.Recorded? then cmds + [Fence] else cmds)
            && after.1.tasks == fence.1.tasks == h.tasks && after.1.log == fence.1.log == h.log
            && after.0.hasWork == fence.0.hasWork == (st.hasWork || r.Recorded?)
            && after.0.phase == fence.0.phase == st.phase
  {
  }

  lemma RecordKeepsPipeline(m: Machine, s: nat, op: Op, r: RecordOutcome, accepted: seq<Op>)
    requires Pipeline(m, s, accepted) && RecordFits(m.streams[s], r) && !r.FenceFailed?
    ensures Pipeline(Put(m, s, RecordOp(m.streams[s], m.hal, op, r)), s, if r.Recorded? then accepted + [op] else accepted)
    ensures Pipeline(Put(m, s, RecordFence(m.streams[s], m.hal, r)), s, accepted)
  {
    var cmds := PendingCmds(m.streams[s]);
    RecordedPending(m.streams[s], m.hal, op, r);
    AddOpsAppend(OwnOps(m.hal.tasks, |m.hal.tasks|, s), cmds, op);
    SealedAppend(cmds, [Fence]);
    SealedAppend(cmds, [Do(op), Fence]);
  }

  lemma OwnCallKeepsPipeline(m: Machine, a: Action, s: nat, accepted: seq<Op>)
    requires Pipeline(m, s, accepted) && m.streams[s].id == s && Enabled(m, a)
    requires a.Flush? || a.WaitOn? || a.AllocBegin? || a.Record? || a.Barrier?
    requires a.s == s && (a.Record? ==> !a.r.FenceFailed?)
    ensures Pipeline(Next(m, a), s, Accept(accepted, a, s))
  {
    var st := m.streams[s];
    match a
    case Flush(_, f) => FlushKeepsPipeline(m, s, f, accepted);
    case WaitOn(_, p) => DirectKeepsPipeline(m, s, st.(timepoint := st.timepoint + 1), [p], [], accepted);
    case AllocBegin(_, op) =>
      assert AddOps(accepted, [Do(op)], 1) == accepted + [op];
      DirectKeepsPipeline(m, s, st.(phase := Allocating), OwnWait(st), [Do(op)], accepted);
    case Record(_, op, r) => RecordKeepsPipeline(m, s, op, r, accepted);
    case Barrier(_, r) => RecordKeepsPipeline(m, s, Alloca(0), r, accepted);
  }

  lemma ForeignCallKeepsPipeline(m: Machine, a: Action, s: nat, accepted: seq<Op>)
    requires WellFormed(m) && Pipeline(m, s, accepted) && Enabled(m, a)
    requires a.Flush? || a.WaitOn? || a.AllocBegin? || a.Record? || a.Barrier?
    requires a.s != s
    ensures Pipeline(Next(m, a), s, accepted)
  {
    HostTasks(m, a);
    var n := Next(m, a);
    ForeignKeepsPipeline(m, a.s, (n.streams[a.s], n.hal), s, accepted);
  }

  lemma DeviceKeepsPipeline(m: Machine, a: Action, s: nat, accepted: seq<Op>)
    requires Chained(m, s) && Pipeline(m, s, accepted) && Enabled(m, a) && IsDevice(a)
    ensures Pipeline(Next(m, a), s, accepted)
  {
    match a
    case Run(t, j) => RunKeepsPipeline(m, t, j, s, accepted);
    case Finish(t) => FinishKeepsPipeline(m, t, s, accepted);
  }

  lemma StepKeepsPipeline(m: Machine, a: Action, s: nat, accepted: seq<Op>)
    requires WellFormed(m) && Chained(m, s) && Pipeline(m, s, accepted) && Enabled(m, a)
    requires !(a.Record? && a.s == s && a.r.FenceFailed?)
    ensures Pipeline(Next(m, a), s, Accept(accepted, a, s))
  {
    if IsDevice(a) {
      DeviceKeepsPipeline(m, a, s, accepted);
    } else if a.Flush? || a.WaitOn? || a.AllocBegin? || a.Record? || a.Barrier? {
      if a.s == s {
        OwnCallKeepsPipeline(m, a, s, accepted);
      } else {
        ForeignCallKeepsPipeline(m, a, s, accepted);
      }
    }
  }

  // --- whole runs ---

  lemma {:induction false} NothingOwned(tasks: seq<Task>, n: nat, s: nat)
    requires n <= |tasks| && forall i :: 0 <= i < n ==> tasks[i].owner < s
    ensures OwnOps(tasks, n, s) == [] && OwnRan(tasks, n, s) == []
  {
    if n > 0 {
      NothingOwned(tasks, n - 1, s);
    }
  }

  lemma {:induction false} NothingProjected(log: seq<Executed>, n: nat, s: nat)
    requires n <= |log| && forall i :: 0 <= i < n ==> log[i].owner < s
    ensures ProjectTo(log, n, s) == []
  {
    if n > 0 {
      NothingProjected(log, n - 1, s);
    }
  }

  lemma {:induction false} NothingAccepted(actions: seq<Action>, s: nat)
    requires Exec(START, actions).Some? && |Exec(START, actions).value.streams| <= s
    ensures Accepted(actions, s) == []
    decreases |actions|
  {
    if actions != [] {
      var k := |actions| - 1;
      StepMonotone(Exec(START, actions[..k]).value, actions[k]);
      NothingAccepted(actions[..k], s);
    }
  }

  lemma NewPipeline(m: Machine, s: nat)
    requires WellFormed(m) && s == |m.streams|
    ensures Pipeline(Next(m, CreateStream), s, [])
  {
    assert forall i :: 0 <= i < |m.hal.tasks| ==> TaskWellFormed(m, m.hal.tasks[i]);
    NothingOwned(m.hal.tasks, |m.hal.tasks|, s);
    NothingProjected(m.hal.log, |m.hal.log|, s);
  }

  lemma {:induction false} ReachablePipeline(actions: seq<Action>, s: nat)
    requires Exec(START, actions).Some? && OrderlyRun(actions, s) && FencedRun(actions, s)
    requires s < |Exec(START, actions).value.streams|
    ensures Pipeline(Exec(START, actions).value, s, Accepted(actions, s))
    decreases |actions|
  {
    var k := |actions| - 1;
    var m, a := Exec(START, actions[..k]).value, actions[k];
    ReachableWellFormed(actions[..k]);
    if s < |m.streams| {
      ReachablePipeline(actions[..k], s);
      ReachableChained(actions[..k], s);
      StepKeepsPipeline(m, a, s, Accepted(actions[..k], s));
    } else {
      NothingAccepted(actions[..k], s);
      NewPipeline(m, s);
    }
  }

  /** The state in which hrx_stream_synchronize returns success. */
  predicate Synchronized(m: Machine, s: nat) {
    IsOpen(m, s) && !HasPending(m.streams[s]) && Reached(m, s)
  }

  /** When a synchronize succeeds, every submission of the stream has run completely. */
  lemma SynchronizedAllRan(actions: seq<Action>, s: nat)
    requires Exec(START, actions).Some? && OrderlyRun(actions, s)
    requires Synchronized(Exec(START, actions).value, s)
    ensures var tasks := Exec(START, actions).value.hal.tasks;
            forall i :: 0 <= i < |tasks| && tasks[i].owner == s ==> AllRan(tasks[i])
  {
    var m := Exec(START, actions).value;
    var tasks, sem := m.hal.tasks, m.streams[s].sem;
    ReachableWellFormed(actions);
    ReachableChained(actions, s);
    forall i | 0 <= i < |tasks| && tasks[i].owner == s
      ensures AllRan(tasks[i])
    {
      OwnedGrows(tasks, i, |tasks|, s);
      assert Link(tasks[i], Owned(tasks, i, s) + 1, sem, m.hal.sems[sem]);
      assert TaskWellFormed(m, tasks[i]);
    }
  }

  /** Whatever the device did in between, a successful synchronize finds every accepted operation
      of the stream executed, in program order, and nothing else of that stream. */
  lemma SynchronizeExecutesAll(actions: seq<Action>, s: nat)
    requires Exec(START, actions).Some? && OrderlyRun(actions, s) && FencedRun(actions, s)
    requires Synchronized(Exec(START, actions).value, s)
    ensures Project(Exec(START, actions).value.hal.log, s) == Accepted(actions, s)
  {
    var m := Exec(START, actions).value;
    ReachablePipeline(actions, s);
    SynchronizedAllRan(actions, s);
    AllRanOps(m.hal.tasks, |m.hal.tasks|, s);
    var cmds := PendingCmds(m.streams[s]);
    AddNoOps(OwnOps(m.hal.tasks, |m.hal.tasks|, s), cmds, |cmds|);
  }

  /** hrx_stream_synchronize: a successful flush, any device steps, and a wait that returns. */
  lemma SynchronizeReturns(m: Machine, s: nat, f: FlushOutcome, device: seq<Action>)
    requires FlushOk(f) && forall k :: 0 <= k < |device| ==> IsDevice(device[k])
    requires Exec(m, [Flush(s, f)] + device + [Wait(s)]).Some?
    ensures Synchronized(Exec(m, [Flush(s, f)] + device + [Wait(s)]).value, s)
  {
    ExecSnoc(m, [Flush(s, f)] + device, Wait(s));
    ExecAppend(m, [Flush(s, f)], device);
    ExecSnoc(m, [], Flush(s, f));
    assert [] + [Flush(s, f)] == [Flush(s, f)];
    DeviceKeepsStreams(Exec(m, [Flush(s, f)]).value, device);
  }

  lemma {:induction false} DeviceKeepsStreams(m: Machine, device: seq<Action>)
    requires forall k :: 0 <= k < |device| ==> IsDevice(device[k])
    requires Exec(m, device).Some?
    ensures Exec(m, device).value.streams == m.streams
    decreases |device|
  {
    if device != [] {
      DeviceKeepsStreams(m, device[..|device| - 1]);
    }
  }

  // --- memory ---

  /** Device memory: each operation takes effect when the device executes it. */
  function Memory<M>(apply: (M, Op) -> M, start: M, log: seq<Executed>): M {
    if log == [] then start
    else apply(Memory(apply, start, log[..|log| - 1]), log[|log| - 1].op)
  }

  /** The reference: a stream that executes every accepted operation inside the call. */
  function Eager<M>(apply: (M, Op) -> M, start: M, actions: seq<Action>): M {
    if actions == [] then start
    else
      var before := Eager(apply, start, actions[..|actions| - 1]);
      match actions[|actions| - 1]
      case Record(_, op, Recorded) => apply(before, op)
      case AllocBegin(_, op) => apply(before, op)
      case _ => before
  }

  function Fold<M>(apply: (M, Op) -> M, start: M, ops: seq<Op>): M {
    if ops == [] then start else apply(Fold(apply, start, ops[..|ops| - 1]), ops[|ops| - 1])
  }

  lemma {:induction false} MemoryIsFold<M>(apply: (M, Op) -> M, start: M, log: seq<Executed>)
    requires forall k :: 0 <= k < |log| ==> log[k].owner == 0
    ensures Memory(apply, start, log) == Fold(apply, start, Project(log, 0))
    decreases |log|
  {
    if log != [] {
      var k := |log| - 1;
      MemoryIsFold(apply, start, log[..k]);
      ProjectFrame(log, log[..k], k, 0);
      assert (Project(log[..k], 0) + [log[k].op])[..|Project(log[..k], 0)|] == Project(log[..k], 0);
    }
  }

  lemma AcceptFolds<M>(apply: (M, Op) -> M, start: M, acc: seq<Op>, a: Action)
    ensures Fold(apply, start, Accept(acc, a, 0)) ==
            if Accept(acc, a, 0) == acc then Fold(apply, start, acc) else apply(Fold(apply, start, acc), a.op)
    ensures Accept(acc, a, 0) != acc <==> (a.Record? && a.s == 0 && a.r.Recorded?) || (a.AllocBegin? && a.s == 0)
  {
    if (a.Record? && a.s == 0 && a.r.Recorded?) || (a.AllocBegin? && a.s == 0) {
      assert |acc + [a.op]| != |acc| && (acc + [a.op])[..|acc|] == acc;
    }
  }

  lemma {:induction false} EagerIsFold<M>(apply: (M, Op) -> M, start: M, actions: seq<Action>)
    requires Exec(START, actions).Some? && |Exec(START, actions).value.streams| <= 1
    ensures Eager(apply, start, actions) == Fold(apply, start, Accepted(actions, 0))
    decreases |actions|
  {
    if actions != [] {
      var k := |actions| - 1;
      StepMonotone(Exec(START, actions[..k]).value, actions[k]);
      EagerIsFold(apply, start, actions[..k]);
      AcceptFolds(apply, start, Accepted(actions[..k], 0), actions[k]);
    }
  }

  /** Refinement: with one stream, whatever the operations do to memory and whatever order the
      device picks, memory after a successful synchronize is the memory of immediate execution. */
  lemma AsyncRefinesEager<M>(apply: (M, Op) -> M, start: M, actions: seq<Action>)
    requires Exec(START, actions).Some? && OrderlyRun(actions, 0) && FencedRun(actions, 0)
    requires |Exec(START, actions).value.streams| == 1 && Synchronized(Exec(START, actions).value, 0)
    ensures Memory(apply, start, Exec(START, actions).value.hal.log) == Eager(apply, start, actions)
  {
    ReachableWellFormed(actions);
    SynchronizeExecutesAll(actions, 0);
    MemoryIsFold(apply, start, Exec(START, actions).value.hal.log);
    EagerIsFold(apply, start, actions);
  }
}
