/** Two failures that the chain does not survive, and exactly what they break. */
module Failures {
  import opened Wrappers
  import opened Timeline
  import opened Chain
  import opened Refinement
  import opened Schedule

  // --- an operation recorded without its ordering barrier ---

  function UnfencedBy(a: Action, s: nat): nat {
    if a.Record? && a.s == s && a.r.FenceFailed? then 1 else 0
  }

  /** Recording calls of stream `s` that failed after their operation was recorded. */
  function Unfenced(actions: seq<Action>, s: nat): nat {
    if actions == [] then 0 else Unfenced(actions[..|actions| - 1], s) + UnfencedBy(actions[|actions| - 1], s)
  }

  lemma {:induction false} UnfencedIsFailure(actions: seq<Action>, s: nat)
    ensures Unfenced(actions, s) == 0 <==> FencedRun(actions, s)
    decreases |actions|
  {
    if actions != [] {
      var k := |actions| - 1;
      UnfencedIsFailure(actions[..k], s);
      assert actions == actions[..k] + [actions[k]];
    }
  }

  function One(c: Cmd): nat {
    if c.Do? then 1 else 0
  }

  /** Number of operations among the first `n` commands. */
  function Ops(cmds: seq<Cmd>, n: nat): nat
    requires n <= |cmds|
  {
    if n == 0 then 0 else Ops(cmds, n - 1) + One(cmds[n - 1])
  }

  /** Number of operations executed in the first `n` steps of a submission. */
  function Ran(cmds: seq<Cmd>, order: seq<nat>, n: nat): nat
    requires n <= |order|
  {
    if n == 0 then 0
    else Ran(cmds, order, n - 1) + (if order[n - 1] < |cmds| then One(cmds[order[n - 1]]) else 0)
  }

  /** Operations of stream `s` in the first `n` submissions. */
  function Held(tasks: seq<Task>, n: nat, s: nat): nat
    requires n <= |tasks|
  {
    if n == 0 then 0 else Held(tasks, n - 1, s) + (if tasks[n - 1].owner == s then Ops(tasks[n - 1].cmds, |tasks[n - 1].cmds|) else 0)
  }

  /** Operations of stream `s` that the first `n` submissions executed. */
  function Done(tasks: seq<Task>, n: nat, s: nat): nat
    requires n <= |tasks|
  {
    if n == 0 then 0
    else Done(tasks, n - 1, s) + (if tasks[n - 1].owner == s then Ran(tasks[n - 1].cmds, tasks[n - 1].order, |tasks[n - 1].order|) else 0)
  }

  /** Operations entered = operations reported successful + operations left unfenced. */
  ghost predicate Entered(st: Stream, tasks: seq<Task>, s: nat, total: nat) {
    st.phase.Closed? || Held(tasks, |tasks|, s) + Ops(PendingCmds(st), |PendingCmds(st)|) == total
  }

  ghost predicate Counted(m: Machine, s: nat, total: nat) {
    && s < |m.streams|
    && Entered(m.streams[s], m.hal.tasks, s, total)
    && |Project(m.hal.log, s)| == Done(m.hal.tasks, |m.hal.tasks|, s)
  }

  lemma {:induction false} OpsFrame(cmds: seq<Cmd>, other: seq<Cmd>, n: nat)
    requires n <= |cmds| && n <= |other| && forall i :: 0 <= i < n ==> cmds[i] == other[i]
    ensures Ops(cmds, n) == Ops(other, n)
  {
    if n > 0 {
      OpsFrame(cmds, other, n - 1);
    }
  }

  lemma {:induction false} RanFrame(cmds: seq<Cmd>, order: seq<nat>, other: seq<nat>, n: nat)
    requires n <= |order| && n <= |other| && forall i :: 0 <= i < n ==> order[i] == other[i]
    ensures Ran(cmds, order, n) == Ran(cmds, other, n)
  {
    if n > 0 {
      RanFrame(cmds, order, other, n - 1);
    }
  }

  lemma {:induction false} HeldFrame(tasks: seq<Task>, other: seq<Task>, n: nat, s: nat)
    requires n <= |tasks| && n <= |other|
    requires forall i :: 0 <= i < n ==> tasks[i].owner == other[i].owner && tasks[i].cmds == other[i].cmds
    ensures Held(tasks, n, s) == Held(other, n, s)
  {
    if n > 0 {
      HeldFrame(tasks, other, n - 1, s);
    }
  }

  lemma {:induction false} DoneFrame(tasks: seq<Task>, other: seq<Task>, n: nat, s: nat)
    requires n <= |tasks| && n <= |other|
    requires forall i :: 0 <= i < n ==>
               tasks[i].owner == other[i].owner && tasks[i].cmds == other[i].cmds && tasks[i].order == other[i].order
    ensures Done(tasks, n, s) == Done(other, n, s)
  {
    if n > 0 {
      DoneFrame(tasks, other, n - 1, s);
    }
  }

  lemma {:induction false} DoneExtends(tasks: seq<Task>, i: nat, j: nat, n: nat, s: nat)
    requires i < n <= |tasks| && j < |tasks[i].cmds|
    ensures Done(tasks[i := tasks[i].(order := tasks[i].order + [j])], n, s)
            == Done(tasks, n, s) + (if tasks[i].owner == s then One(tasks[i].cmds[j]) else 0)
  {
    var t := tasks[i].(order := tasks[i].order + [j]);
    if i == n - 1 {
      DoneFrame(tasks[i := t], tasks, i, s);
      RanFrame(t.cmds, t.order, tasks[i].order, |tasks[i].order|);
    } else {
      DoneExtends(tasks, i, j, n - 1, s);
    }
  }

  lemma DeviceCounts(m: Machine, a: Action, s: nat, total: nat)
    requires Counted(m, s, total) && IsDevice(a) && Enabled(m, a)
    ensures Counted(Next(m, a), s, total)
  {
    var n, t := Next(m, a), m.hal.tasks[a.t];
    HeldFrame(n.hal.tasks, m.hal.tasks, |m.hal.tasks|, s);
    if a.Run? {
      DoneExtends(m.hal.tasks, a.t, a.j, |m.hal.tasks|, s);
      ProjectFrame(n.hal.log, m.hal.log, |m.hal.log|, s);
    } else {
      DoneFrame(n.hal.tasks, m.hal.tasks, |m.hal.tasks|, s);
    }
  }

  /** What a recording call of stream `s` adds to the operations entered. */
  function Adds(a: Action, s: nat): nat {
    match a
    case Record(x, _, r) => if x == s && (r.Recorded? || r.FenceFailed?) then 1 else 0
    case AllocBegin(x, _) => if x == s then 1 else 0
    case _ => 0
  }

  lemma AddedCounts(cmds: seq<Cmd>, op: Op)
    ensures Ops(cmds + [Fence], |cmds| + 1) == Ops(cmds, |cmds|)
    ensures Ops(cmds + [Do(op)], |cmds| + 1) == Ops(cmds, |cmds|) + 1
    ensures Ops(cmds + [Do(op), Fence], |cmds| + 2) == Ops(cmds, |cmds|) + 1
  {
    OpsFrame(cmds + [Fence], cmds, |cmds|);
    OpsFrame(cmds + [Do(op)], cmds, |cmds|);
    OpsFrame(cmds + [Do(op), Fence], cmds, |cmds|);
    assert Ops(cmds + [Do(op), Fence], |cmds| + 1) == Ops(cmds, |cmds|) + 1;
  }

  lemma RecordCounts(st: Stream, h: Hal, op: Op, r: RecordOutcome)
    requires RecordFits(st, r)
    ensures var cmds, after, fence := PendingCmds(st), PendingCmds(RecordOp(st, h, op, r).0), PendingCmds(RecordFence(st, h, r).0);
            && Ops(after, |after|) == Ops(cmds, |cmds|) + (if r.Recorded? || r.FenceFailed? then 1 else 0)
            && Ops(fence, |fence|) == Ops(cmds, |cmds|)
  {
    AddedCounts(PendingCmds(st), op);
  }

  /** A submission adds its operations to those held, and executed nothing yet. */
  lemma NewTaskCounts(tasks: seq<Task>, t: Task, s: nat)
    requires t.order == []
    ensures Held(tasks + [t], |tasks| + 1, s) == Held(tasks, |tasks|, s) + (if t.owner == s then Ops(t.cmds, |t.cmds|) else 0)
    ensures Done(tasks + [t], |tasks| + 1, s) == Done(tasks, |tasks|, s)
  {
    HeldFrame(tasks + [t], tasks, |tasks|, s);
    DoneFrame(tasks + [t], tasks, |tasks|, s);
  }

  /** What a submitting call does to its own stream's side of the count. */
  lemma SubmitPending(st: Stream, h: Hal, f: FlushOutcome)
    requires FlushFits(st, f)
    ensures var after := FlushInner(st, h, f);
            && after.0.phase == st.phase && after.1.log == h.log
            && if f.Submitted?
               then PendingCmds(after.0) == [] && after.1.tasks == h.tasks + [Task(st.id, OwnWait(st), Point(st.sem, st.timepoint + 1), PendingCmds(st), [], false)]
               else PendingCmds(after.0) == PendingCmds(st) && after.1.tasks == h.tasks
  {
  }

  lemma FlushCounts(m: Machine, x: nat, f: FlushOutcome, s: nat, total: nat)
    requires WellFormed(m) && Counted(m, s, total) && Enabled(m, Flush(x, f))
    ensures Counted(Next(m, Flush(x, f)), s, total)
  {
    var st := m.streams[x];
    SubmitPending(st, m.hal, f);
    NewTaskCounts(m.hal.tasks, Task(st.id, OwnWait(st), Point(st.sem, st.timepoint + 1), PendingCmds(st), [], false), s);
  }

  lemma WaitOnCounts(m: Machine, x: nat, p: Point, s: nat, total: nat)
    requires WellFormed(m) && Counted(m, s, total) && Enabled(m, WaitOn(x, p))
    ensures Counted(Next(m, WaitOn(x, p)), s, total)
  {
    var st := m.streams[x];
    NewTaskCounts(m.hal.tasks, Task(st.id, [p], Point(st.sem, st.timepoint + 1), [], [], false), s);
  }

  lemma AllocCounts(m: Machine, x: nat, op: Op, s: nat, total: nat)
    requires WellFormed(m) && Counted(m, s, total) && Enabled(m, AllocBegin(x, op))
    ensures Counted(Next(m, AllocBegin(x, op)), s, total + Adds(AllocBegin(x, op), s))
  {
    var st := m.streams[x];
    assert Ops([Do(op)], 1) == 1;
    NewTaskCounts(m.hal.tasks, Task(st.id, OwnWait(st), Point(st.sem, st.timepoint + 1), [Do(op)], [], false), s);
  }

  lemma RecordingCounts(m: Machine, a: Action, s: nat, total: nat)
    requires Counted(m, s, total) && Enabled(m, a) && (a.Record? || a.Barrier?)
    ensures Counted(Next(m, a), s, total + Adds(a, s))
  {
    RecordCounts(m.streams[a.s], m.hal, if a.Record? then a.op else Alloca(0), a.r);
  }

  lemma StepCounts(m: Machine, a: Action, s: nat, total: nat)
    requires WellFormed(m) && Counted(m, s, total) && Enabled(m, a)
    ensures Counted(Next(m, a), s, total + Adds(a, s))
  {
    if IsDevice(a) {
      DeviceCounts(m, a, s, total);
    } else if a.Record? || a.Barrier? {
      RecordingCounts(m, a, s, total);
    } else if a.Flush? {
      FlushCounts(m, a.s, a.f, s, total);
    } else if a.WaitOn? {
      WaitOnCounts(m, a.s, a.p, s, total);
    } else if a.AllocBegin? {
      AllocCounts(m, a.s, a.op, s, total);
    }
  }

  lemma {:induction false} NothingCounted(tasks: seq<Task>, n: nat, s: nat)
    requires n <= |tasks| && forall i :: 0 <= i < n ==> tasks[i].owner < s
    ensures Held(tasks, n, s) == 0 && Done(tasks, n, s) == 0
  {
    if n > 0 {
      NothingCounted(tasks, n - 1, s);
    }
  }

  lemma {:induction false} ReachableCounted(actions: seq<Action>, s: nat)
    requires Exec(START, actions).Some? && s < |Exec(START, actions).value.streams|
    ensures Counted(Exec(START, actions).value, s, |Accepted(actions, s)| + Unfenced(actions, s))
    decreases |actions|
  {
    var k := |actions| - 1;
    var m, a := Exec(START, actions[..k]).value, actions[k];
    ReachableWellFormed(actions[..k]);
    if s < |m.streams| {
      ReachableCounted(actions[..k], s);
      StepCounts(m, a, s, |Accepted(actions[..k], s)| + Unfenced(actions[..k], s));
    } else {
      assert forall i :: 0 <= i < |m.hal.tasks| ==> TaskWellFormed(m, m.hal.tasks[i]);
      NothingCounted(m.hal.tasks, |m.hal.tasks|, s);
      NothingProjected(m.hal.log, |m.hal.log|, s);
      NothingAccepted(actions[..k], s);
      NothingUnfenced(actions[..k], s);
    }
  }

  lemma {:induction false} NothingUnfenced(actions: seq<Action>, s: nat)
    requires Exec(START, actions).Some? && |Exec(START, actions).value.streams| <= s
    ensures Unfenced(actions, s) == 0
    decreases |actions|
  {
    if actions != [] {
      var k := |actions| - 1;
      StepMonotone(Exec(START, actions[..k]).value, actions[k]);
      NothingUnfenced(actions[..k], s);
    }
  }

  /** A command list that ran completely executed at least its operations, in whatever order. */
  lemma {:induction false} RanAtLeast(cmds: seq<Cmd>, order: seq<nat>, n: nat)
    requires n <= |cmds| && forall j :: 0 <= j < n ==> j in order
    ensures Ran(cmds[..n], order, |order|) >= Ops(cmds, n)
  {
    if n > 0 {
      RanAtLeast(cmds, order, n - 1);
      RanLast(cmds, n, order, |order|);
      assert order[..|order|] == order;
    }
  }

  lemma {:induction false} RanLast(cmds: seq<Cmd>, n: nat, order: seq<nat>, k: nat)
    requires 0 < n <= |cmds| && k <= |order|
    ensures Ran(cmds[..n], order, k) >= Ran(cmds[..n - 1], order, k) + (if n - 1 in order[..k] then One(cmds[n - 1]) else 0)
  {
    if k > 0 {
      RanLast(cmds, n, order, k - 1);
      assert order[..k] == order[..k - 1] + [order[k - 1]];
    } else {
      assert order[..k] == [];
    }
  }

  lemma {:induction false} DoneAtLeast(tasks: seq<Task>, n: nat, s: nat)
    requires n <= |tasks| && forall i :: 0 <= i < n && tasks[i].owner == s ==> AllRan(tasks[i])
    ensures Done(tasks, n, s) >= Held(tasks, n, s)
  {
    if n > 0 {
      DoneAtLeast(tasks, n - 1, s);
      var t := tasks[n - 1];
      if t.owner == s {
        RanAtLeast(t.cmds, t.order, |t.cmds|);
        assert t.cmds[..|t.cmds|] == t.cmds && t.order[..|t.order|] == t.order;
      }
    }
  }

  function UnfencedCalls(x: Op, y: Op): seq<Action> {
    [CreateStream] + [Record(0, x, FenceFailed)] + [Record(0, y, Recorded)] + [Flush(0, Submitted)]
  }

  lemma UnfencedSubmission(x: Op, y: Op)
    ensures Exec(START, UnfencedCalls(x, y)) ==
            Some(Machine([Stream(0, 0, 1, None, false, Open)],
                         Hal([0], [Task(0, [], Point(0, 1), [Do(x), Do(y), Fence], [], false)], [], 1, [0])))
  {
    var a, b, c, d := CreateStream, Record(0, x, FenceFailed), Record(0, y, Recorded), Flush(0, Submitted);
    ExecCons(START, a, []);
    assert [a] + [] == [a];
    ExecSnoc(START, [a], b);
    ExecSnoc(START, [a] + [b], c);
    ExecSnoc(START, [a] + [b] + [c], d);
    var m := Next(Next(START, a), b);
    assert m.streams[0].pending.value.cmds == [Do(x)];
    assert Next(m, c).streams[0].pending.value.cmds == [Do(x), Do(y), Fence];
    var o := Next(Next(m, c), d);
    assert o.hal.tasks == [Task(0, [], Point(0, 1), [Do(x), Do(y), Fence], [], false)];
    assert o.streams == [Stream(0, 0, 1, None, false, Open)] && o.hal.sems == [0] && o.hal.released == [0];
  }

  lemma UnfencedAccepted(x: Op, y: Op)
    ensures Accepted(UnfencedCalls(x, y) + [Run(0, 1)] + [Run(0, 0)], 0) == [y]
  {
    var a, b, c, d := CreateStream, Record(0, x, FenceFailed), Record(0, y, Recorded), Flush(0, Submitted);
    var all := UnfencedCalls(x, y) + [Run(0, 1)] + [Run(0, 0)];
    assert all[..5] == UnfencedCalls(x, y) + [Run(0, 1)] && all[..5][..4] == UnfencedCalls(x, y);
    assert UnfencedCalls(x, y)[..3] == [a] + [b] + [c] && ([a] + [b] + [c])[..2] == [a] + [b] && ([a] + [b])[..1] == [a];
    assert Accepted([a], 0) == [] && Accepted([a] + [b], 0) == [] && Accepted([a] + [b] + [c], 0) == [y];
    assert Accepted(UnfencedCalls(x, y), 0) == [y] && Accepted(all[..5], 0) == [y];
  }

  /** An operation whose call failed at its barrier still executes, and after its successor. */
  lemma UnfencedOpRuns(x: Op, y: Op)
    ensures var actions := UnfencedCalls(x, y) + [Run(0, 1)] + [Run(0, 0)];
            && Exec(START, actions).Some? && Accepted(actions, 0) == [y]
            && Exec(START, actions).value.hal.log == [Executed(0, y), Executed(0, x)]
  {
    UnfencedSubmission(x, y);
    UnfencedAccepted(x, y);
    ExecSnoc(START, UnfencedCalls(x, y), Run(0, 1));
    ExecSnoc(START, UnfencedCalls(x, y) + [Run(0, 1)], Run(0, 0));
  }

  // --- an allocation whose wait failed ---

  /** The end of an allocation keeps the chain if and only if its wait succeeded. */
  lemma AllocEndExact(m: Machine, s: nat, waited: bool)
    requires WellFormed(m) && Chained(m, s) && Enabled(m, AllocEnd(s, waited))
    ensures Chained(Next(m, AllocEnd(s, waited)), s) <==> waited
  {
    if waited {
      StepKeepsChain(m, AllocEnd(s, waited), s);
    }
  }

  /** What follows a failed wait: the next recorded operation is submitted behind the same timepoint as
      the allocation, and signals the same value again. */
  lemma AfterFailedAlloc(m: Machine, s: nat, op: Op) returns (calls: seq<Action>, n: Machine, t: Task)
    requires WellFormed(m) && s < |m.streams| && m.streams[s].phase.Allocating?
    ensures calls == [AllocEnd(s, false)] + ([Record(s, op, Recorded)] + [Flush(s, Submitted)])
    ensures Exec(m, calls) == Some(n) && Extends(m, n, [t]) && IsOpen(n, s) && n.streams[s].pending.None?
    ensures n.streams[s].timepoint == m.streams[s].timepoint + 1 && n.streams[s].sem == m.streams[s].sem
    ensures t.owner == s && t.waits == OwnWait(m.streams[s]) && t.signal == Point(m.streams[s].sem, m.streams[s].timepoint + 1)
    ensures t.cmds != [] && !Begun(t)
  {
    var a := AllocEnd(s, false);
    var o := Next(m, a);
    StepWellFormed(m, a);
    var more: seq<Action>;
    more, n, t := RecordFlush(o, s, op);
    ExecCons(m, a, more);
    calls := [a] + more;
  }

  /** The timepoint is not advanced although the allocation signals the next value: the chain is broken,
      and the next submission signals that value again and waits for no more than the allocation did. */
  lemma FailedAllocWaitBreaksChain(m: Machine, s: nat, op: Op)
    requires WellFormed(m) && Chained(m, s) && m.streams[s].phase.Allocating?
    ensures var calls := [AllocEnd(s, false)] + ([Record(s, op, Recorded)] + [Flush(s, Submitted)]);
            var p := Point(m.streams[s].sem, m.streams[s].timepoint + 1);
            && !Chained(Next(m, AllocEnd(s, false)), s) && (exists i: nat :: Signals(m, i, p)) && Exec(m, calls).Some?
            && exists t: Task :: t.signal == p && t.waits == OwnWait(m.streams[s]) && Exec(m, calls).value.hal.tasks == m.hal.tasks + [t]
  {
    SignalsExact(m, s, m.streams[s].timepoint + 1);
    AllocEndExact(m, s, false);
    var calls, n, t := AfterFailedAlloc(m, s, op);
  }

  /** If the allocation had signalled, the stream then counts as synchronized although its last
      submission has not run, and its value was signalled before it was submitted. */
  lemma FailedAllocSynchronizesEarly(m: Machine, s: nat, op: Op)
    requires WellFormed(m) && Chained(m, s) && m.streams[s].phase.Allocating?
    requires Met(m.hal, Point(m.streams[s].sem, m.streams[s].timepoint + 1))
    ensures var calls := [AllocEnd(s, false)] + ([Record(s, op, Recorded)] + [Flush(s, Submitted)]);
            && Exec(m, calls).Some?
            && var n := Exec(m, calls).value;
               && Synchronized(n, s) && |n.hal.tasks| == |m.hal.tasks| + 1
               && n.hal.tasks[|m.hal.tasks|].owner == s && !AllRan(n.hal.tasks[|m.hal.tasks|])
  {
    var calls, n, t := AfterFailedAlloc(m, s, op);
    assert n.hal.tasks[|m.hal.tasks|] == t;
    assert 0 !in t.order;
  }

  /** If it had not, the device can reach the timepoint that both wait for and run the later one first. */
  lemma FailedAllocOvertakes(m: Machine, s: nat, op: Op) returns (rest: seq<Action>)
    requires WellFormed(m) && Chained(m, s) && m.streams[s].phase.Allocating?
    requires !Met(m.hal, Point(m.streams[s].sem, m.streams[s].timepoint + 1)) && !Blocked(m, s, m.streams[s].timepoint)
    ensures AllForeign(rest, m.streams[s].sem)
    ensures var calls := [AllocEnd(s, false)] + ([Record(s, op, Recorded)] + [Flush(s, Submitted)]);
            Exec(m, calls + rest).Some? && !InOrder(Exec(m, calls + rest).value, s)
  {
    var tp, c := m.streams[s].timepoint, |m.hal.tasks|;
    var calls, n, t := AfterFailedAlloc(m, s, op);
    var early := DriveTo(m, s, tp);
    Lift(m, n, [t], early, m.streams[s].sem);
    ForeignCount(m, early, m.streams[s].sem);
    var o, o' := Exec(m, early).value, Exec(n, early).value;
    assert o'.hal.tasks[c] == t;
    RunFirst(o', c);
    ExecSnoc(n, early, Run(c, 0));
    rest := early + [Run(c, 0)];
    ExecAppend(m, calls, rest);
    var last := Next(o', Run(c, 0));
    var i := RankExists(o.hal.tasks, c, s, tp + 1);
    assert Link(o.hal.tasks[i], tp + 1, m.streams[s].sem, tp);
    assert Earlier(last, s, i, c) && Begun(last.hal.tasks[c]) && last.hal.tasks[i] == o.hal.tasks[i];
  }

  /** Whatever the device does and others signal after the failed wait, the stream stays in order. */
  ghost predicate FailureHarmless(m: Machine, s: nat, op: Op)
    requires s < |m.streams|
  {
    var calls := [AllocEnd(s, false)] + ([Record(s, op, Recorded)] + [Flush(s, Submitted)]);
    forall rest :: AllForeign(rest, m.streams[s].sem) && Exec(m, calls + rest).Some? ==> InOrder(Exec(m, calls + rest).value, s)
  }

  /** Exact condition: after a failed wait, order survives the next submission if and only if the
      allocation had already signalled (and then a synchronize returns too early), or nothing of the
      stream can ever reach the timepoint. */
  lemma FailedAllocExact(m: Machine, s: nat, op: Op)
    requires WellFormed(m) && Chained(m, s) && m.streams[s].phase.Allocating?
    ensures FailureHarmless(m, s, op) <==>
              Met(m.hal, Point(m.streams[s].sem, m.streams[s].timepoint + 1)) || Blocked(m, s, m.streams[s].timepoint)
  {
    var tp, sem := m.streams[s].timepoint, m.streams[s].sem;
    if Met(m.hal, Point(sem, tp + 1)) || Blocked(m, s, tp) {
      var calls, n, t := AfterFailedAlloc(m, s, op);
      forall rest | AllForeign(rest, sem) && Exec(m, calls + rest).Some?
        ensures InOrder(Exec(m, calls + rest).value, s)
      {
        ExecAppend(m, calls, rest);
        if Met(m.hal, Point(sem, tp + 1)) {
          AllBefore(m, s);
          FinishedStays(m, n, t, rest, s);
        } else {
          assert t.waits[0] == Point(sem, tp) && Parked(m, n, t, s, tp);
          StaysParked(m, n, t, rest, s, tp);
          StillInOrder(Exec(m, rest).value, Exec(n, rest).value, t, s);
        }
      }
    } else {
      var rest := FailedAllocOvertakes(m, s, op);
    }
  }

  ghost predicate OwnFinished(tasks: seq<Task>, n: nat, s: nat) {
    n <= |tasks| && forall i :: 0 <= i < n && tasks[i].owner == s ==> tasks[i].finished
  }

  lemma AllBefore(m: Machine, s: nat)
    requires Chained(m, s) && Met(m.hal, Point(m.streams[s].sem, Top(m.streams[s])))
    ensures OwnFinished(m.hal.tasks, |m.hal.tasks|, s)
  {
    forall i | 0 <= i < |m.hal.tasks| && m.hal.tasks[i].owner == s ensures m.hal.tasks[i].finished {
      OwnedGrows(m.hal.tasks, i, |m.hal.tasks|, s);
      assert Link(m.hal.tasks[i], Owned(m.hal.tasks, i, s) + 1, m.streams[s].sem, m.hal.sems[m.streams[s].sem]);
    }
  }

  lemma {:induction false} FinishedStays(m: Machine, n: Machine, t: Task, rest: seq<Action>, s: nat)
    requires Extends(m, n, [t]) && OwnFinished(m.hal.tasks, |m.hal.tasks|, s) && s < |m.streams|
    requires AllForeign(rest, m.streams[s].sem) && Exec(n, rest).Some?
    ensures var o := Exec(n, rest).value;
            OwnFinished(o.hal.tasks, |m.hal.tasks|, s) && |o.hal.tasks| == |m.hal.tasks| + 1 && InOrder(o, s)
    decreases |rest|
  {
    if rest != [] {
      var k := |rest| - 1;
      FinishedStays(m, n, t, rest[..k], s);
      ForeignTasks(Exec(n, rest[..k]).value, rest[k], m.streams[s].sem);
    }
  }
}
