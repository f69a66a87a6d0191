/** Deadlock freedom over any number of streams that wait on each other's timeline positions. */
module Liveness {
  import opened Wrappers
  import opened Timeline
  import opened Chain

  /** The point is reached, or one of the first `n` submissions will reach it. */
  ghost predicate Backed(h: Hal, n: nat, p: Point) {
    Met(h, p) || (p.sem < |h.sems| && exists j :: 0 <= j < n && j < |h.tasks| && Provides(h.tasks[j], p))
  }

  predicate Provides(t: Task, p: Point) {
    t.signal.sem == p.sem && t.signal.value >= p.value
  }

  /** Every wait is backed by earlier submissions, and so is the value every stream may block on. */
  ghost predicate Live(m: Machine) {
    && (forall i: nat, k: nat :: i < |m.hal.tasks| && k < |m.hal.tasks[i].waits| ==> Backed(m.hal, i, m.hal.tasks[i].waits[k]))
    && (forall s: nat :: s < |m.streams| ==> Backed(m.hal, |m.hal.tasks|, Target(m.streams[s])))
  }

  /** What a blocking call of the stream waits for: its timepoint, or the value that its allocation in
      progress will signal. */
  function Target(s: Stream): Point {
    Point(s.sem, Top(s))
  }

  function Position(s: Stream): Point {
    Point(s.sem, s.timepoint)
  }

  lemma BackedGrows(h: Hal, h': Hal, n: nat, n': nat, p: Point)
    requires Backed(h, n, p) && n <= n' && |h.tasks| <= |h'.tasks|
    requires forall q :: Met(h, q) ==> Met(h', q)
    requires |h.sems| <= |h'.sems|
    requires forall j :: 0 <= j < |h.tasks| ==> h'.tasks[j].signal == h.tasks[j].signal
    ensures Backed(h', n', p)
  {
    if !Met(h, p) {
      var j :| 0 <= j < n && j < |h.tasks| && Provides(h.tasks[j], p);
      assert Provides(h'.tasks[j], p);
    }
  }

  /** Submissions keep their wait lists and signals. */
  lemma TasksKept(m: Machine, a: Action)
    requires Enabled(m, a)
    ensures forall j :: 0 <= j < |m.hal.tasks| ==>
              && Next(m, a).hal.tasks[j].signal == m.hal.tasks[j].signal
              && Next(m, a).hal.tasks[j].waits == m.hal.tasks[j].waits
  {
    if !IsDevice(a) {
      HostTasks(m, a);
    }
  }

  lemma SmallerBacked(h: Hal, n: nat, p: Point, q: Point)
    requires Backed(h, n, p) && q.sem == p.sem && q.value <= p.value
    ensures Backed(h, n, q)
  {
    if !Met(h, q) {
      var j :| 0 <= j < n && j < |h.tasks| && Provides(h.tasks[j], p);
      assert Provides(h.tasks[j], q);
    }
  }

  lemma StreamsBacked(m: Machine, a: Action)
    requires WellFormed(m) && Live(m) && Enabled(m, a) && !a.Advance?
    ensures forall s: nat :: s < |Next(m, a).streams| ==>
              Backed(Next(m, a).hal, |Next(m, a).hal.tasks|, Target(Next(m, a).streams[s]))
  {
    var n := Next(m, a);
    StepMonotone(m, a);
    TasksKept(m, a);
    forall s: nat | s < |n.streams|
      ensures Backed(n.hal, |n.hal.tasks|, Target(n.streams[s]))
    {
      if s < |m.streams| {
        BackedGrows(m.hal, n.hal, |m.hal.tasks|, |n.hal.tasks|, Target(m.streams[s]));
        if Top(n.streams[s]) <= Top(m.streams[s]) {
          SmallerBacked(n.hal, |n.hal.tasks|, Target(m.streams[s]), Target(n.streams[s]));
        } else {
          assert Provides(n.hal.tasks[|m.hal.tasks|], Target(n.streams[s]));
        }
      }
    }
  }

  lemma StepKeepsLive(m: Machine, a: Action)
    requires WellFormed(m) && Live(m) && Enabled(m, a) && !a.Advance?
    requires a.WaitOn? ==> Backed(m.hal, |m.hal.tasks|, a.p)
    ensures Live(Next(m, a))
  {
    var n := Next(m, a);
    StepMonotone(m, a);
    TasksKept(m, a);
    StreamsBacked(m, a);
    forall i: nat, k: nat | i < |n.hal.tasks| && k < |n.hal.tasks[i].waits|
      ensures Backed(n.hal, i, n.hal.tasks[i].waits[k])
    {
      if i < |m.hal.tasks| {
        BackedGrows(m.hal, n.hal, i, i, m.hal.tasks[i].waits[k]);
      } else {
        HostTasks(m, a);
        var w := if a.WaitOn? then a.p else Position(m.streams[a.s]);
        assert n.hal.tasks[i].waits[k] == w;
        assert a.WaitOn? || w == Target(m.streams[a.s]);
        BackedGrows(m.hal, n.hal, |m.hal.tasks|, i, w);
      }
    }
  }

  // --- progress ---

  ghost predicate Drained(h: Hal) {
    forall i :: 0 <= i < |h.tasks| ==> h.tasks[i].finished
  }

  /** Whatever the stream may be blocked in returns: a wait for its timepoint, or the wait inside an
      allocation, successfully. */
  predicate Returns(m: Machine, s: nat)
    requires s < |m.streams|
  {
    && Met(m.hal, Target(m.streams[s]))
    && (m.streams[s].phase.Open? ==> Enabled(m, Wait(s)))
    && (m.streams[s].phase.Allocating? ==> Enabled(m, AllocEnd(s, true)))
  }

  ghost predicate AllReturn(m: Machine) {
    forall s: nat :: s < |m.streams| ==> Returns(m, s)
  }

  ghost predicate Earliest(h: Hal, i: nat) {
    i < |h.tasks| && !h.tasks[i].finished && forall j :: 0 <= j < i ==> h.tasks[j].finished
  }

  /** The least command that has not run is never held back by a fence. */
  lemma {:induction false} ReadyCommand(t: Task, n: nat) returns (j: nat)
    requires !AllRan(t) && n <= |t.cmds| && forall i :: 0 <= i < n ==> i in t.order
    ensures Ready(t.cmds, t.order, j)
    decreases |t.cmds| - n
  {
    if n < |t.cmds| && n in t.order {
      j := ReadyCommand(t, n + 1);
    } else {
      j := n;
    }
  }

  lemma FinishedMeets(m: Machine, n: nat, p: Point)
    requires WellFormed(m) && Backed(m.hal, n, p) && n <= |m.hal.tasks|
    requires forall j :: 0 <= j < n ==> m.hal.tasks[j].finished
    ensures Met(m.hal, p)
  {
    if j :| 0 <= j < n && Provides(m.hal.tasks[j], p) {
      assert TaskWellFormed(m, m.hal.tasks[j]);
    }
  }

  lemma DrainedMeetsAll(m: Machine)
    requires WellFormed(m) && Live(m) && Drained(m.hal)
    ensures AllReturn(m)
  {
    forall s: nat | s < |m.streams|
      ensures Returns(m, s)
    {
      FinishedMeets(m, |m.hal.tasks|, Target(m.streams[s]));
    }
  }

  /** The earliest unfinished submission can always take a device step. */
  lemma EarliestRunnable(m: Machine, i: nat) returns (a: Action)
    requires WellFormed(m) && Live(m) && Earliest(m.hal, i)
    ensures IsDevice(a) && a.t == i && Enabled(m, a)
  {
    var t := m.hal.tasks[i];
    forall k | 0 <= k < |t.waits|
      ensures Met(m.hal, t.waits[k])
    {
      FinishedMeets(m, i, t.waits[k]);
    }
    assert TaskWellFormed(m, t);
    if AllRan(t) {
      a := Finish(i);
    } else {
      var j := ReadyCommand(t, 0);
      a := Run(i, j);
    }
  }

  lemma {:induction false} FindEarliest(h: Hal, n: nat) returns (i: nat)
    requires !Drained(h) && n <= |h.tasks| && forall j :: 0 <= j < n ==> h.tasks[j].finished
    ensures Earliest(h, i)
    decreases |h.tasks| - n
  {
    if h.tasks[n].finished {
      i := FindEarliest(h, n + 1);
    } else {
      i := n;
    }
  }

  function Left(tasks: seq<Task>): nat {
    if tasks == [] then 0
    else
      var t := tasks[|tasks| - 1];
      Left(tasks[..|tasks| - 1]) + (if t.finished then 0 else 1 + Missing(t.cmds, t.order))
  }

  /** Commands that have not run. */
  function Missing(cmds: seq<Cmd>, order: seq<nat>): nat {
    if cmds == [] then 0
    else Missing(cmds[..|cmds| - 1], order) + (if |cmds| - 1 in order then 0 else 1)
  }

  lemma {:induction false} MissingAfter(cmds: seq<Cmd>, order: seq<nat>, j: nat)
    requires j !in order
    ensures Missing(cmds, order) == Missing(cmds, order + [j]) + (if j < |cmds| then 1 else 0)
    decreases |cmds|
  {
    if cmds != [] {
      MissingAfter(cmds[..|cmds| - 1], order, j);
    }
  }

  lemma {:induction false} NoneMissing(cmds: seq<Cmd>, order: seq<nat>)
    requires forall j :: 0 <= j < |cmds| ==> j in order
    ensures Missing(cmds, order) == 0
    decreases |cmds|
  {
    if cmds != [] {
      NoneMissing(cmds[..|cmds| - 1], order);
    }
  }

  lemma {:induction false} LeftUpdate(tasks: seq<Task>, i: nat, t: Task)
    requires i < |tasks|
    ensures Left(tasks[i := t]) + Left([tasks[i]]) == Left(tasks) + Left([t])
    decreases |tasks|
  {
    var n := |tasks| - 1;
    if i == n {
      assert tasks[i := t][..n] == tasks[..n];
    } else {
      LeftUpdate(tasks[..n], i, t);
      assert tasks[i := t][..n] == tasks[..n][i := t];
    }
  }

  /** Every device step does exactly one unit of the remaining work. */
  lemma DeviceStepDecreases(m: Machine, a: Action)
    requires Enabled(m, a) && IsDevice(a)
    ensures Left(Next(m, a).hal.tasks) + 1 == Left(m.hal.tasks)
  {
    var t := m.hal.tasks[a.t];
    LeftUpdate(m.hal.tasks, a.t, Next(m, a).hal.tasks[a.t]);
    if a.Run? {
      MissingAfter(t.cmds, t.order, a.j);
    } else {
      NoneMissing(t.cmds, t.order);
    }
  }

  // --- whole runs ---

  /** Every awaited point was a stream's timeline position at some earlier moment of the run, and
      nobody advances a timeline by hand. */
  ghost predicate Disciplined(actions: seq<Action>)
    decreases |actions|
  {
    actions == [] ||
    (var k := |actions| - 1;
     && Disciplined(actions[..k])
     && !actions[k].Advance?
     && (actions[k].WaitOn? ==> exists j, s: nat :: 0 <= j <= k && IsPosition(actions[..j], s, actions[k].p)))
  }

  /** hrx_stream_get_timeline_position on stream `s` after the run `actions` returns `p`. */
  ghost predicate IsPosition(actions: seq<Action>, s: nat, p: Point) {
    var m := Exec(START, actions);
    m.Some? && s < |m.value.streams| && p == Position(m.value.streams[s])
  }

  /** A position read earlier in the run is still backed. */
  lemma PositionBacked(actions: seq<Action>, j: nat, s: nat, p: Point)
    requires Exec(START, actions).Some? && Live(Exec(START, actions).value)
    requires j <= |actions| && IsPosition(actions[..j], s, p)
    ensures Backed(Exec(START, actions).value.hal, |Exec(START, actions).value.hal.tasks|, p)
  {
    var m := Exec(START, actions).value;
    assert actions == actions[..j] + actions[j..];
    ExecAppend(START, actions[..j], actions[j..]);
    RunMonotone(Exec(START, actions[..j]).value, actions[j..]);
    SmallerBacked(m.hal, |m.hal.tasks|, Target(m.streams[s]), p);
  }

  lemma {:induction false} ReachableLive(actions: seq<Action>)
    requires Exec(START, actions).Some? && Disciplined(actions)
    ensures Live(Exec(START, actions).value)
    decreases |actions|
  {
    if actions != [] {
      var k := |actions| - 1;
      var m, a := Exec(START, actions[..k]).value, actions[k];
      ReachableWellFormed(actions[..k]);
      ReachableLive(actions[..k]);
      if a.WaitOn? {
        var j, s: nat :| 0 <= j <= k && IsPosition(actions[..j], s, a.p);
        assert actions[..k][..j] == actions[..j];
        PositionBacked(actions[..k], j, s, a.p);
      }
      StepKeepsLive(m, a);
    }
  }

  /** `device` is a schedule that drains the queue and lets every blocking wait return. */
  ghost predicate Drains(m: Machine, device: seq<Action>) {
    && |device| == Left(m.hal.tasks) && (forall k :: 0 <= k < |device| ==> IsDevice(device[k]))
    && Exec(m, device).Some?
    && var n := Exec(m, device).value;
       Drained(n.hal) && n.streams == m.streams && AllReturn(n)
  }

  lemma DrainsCons(m: Machine, a: Action, rest: seq<Action>)
    requires Enabled(m, a) && IsDevice(a) && Drains(Next(m, a), rest)
    ensures Drains(m, [a] + rest)
  {
    DeviceStepDecreases(m, a);
    ExecCons(m, a, rest);
  }

  lemma {:induction false} DrainFrom(m: Machine) returns (device: seq<Action>)
    requires WellFormed(m) && Live(m)
    ensures Drains(m, device)
    decreases Left(m.hal.tasks)
  {
    if Drained(m.hal) {
      device := [];
      DrainedIsEmpty(m.hal.tasks);
      DrainedMeetsAll(m);
    } else {
      var i := FindEarliest(m.hal, 0);
      var a := EarliestRunnable(m, i);
      DeviceStepDecreases(m, a);
      StepWellFormed(m, a);
      StepKeepsLive(m, a);
      var rest := DrainFrom(Next(m, a));
      device := [a] + rest;
      DrainsCons(m, a, rest);
    }
  }

  lemma {:induction false} DrainedIsEmpty(tasks: seq<Task>)
    requires forall i :: 0 <= i < |tasks| ==> tasks[i].finished
    ensures Left(tasks) == 0
    decreases |tasks|
  {
    if tasks != [] {
      DrainedIsEmpty(tasks[..|tasks| - 1]);
    }
  }

  lemma {:induction false} DeviceRunBounded(m: Machine, device: seq<Action>)
    requires Exec(m, device).Some? && forall k :: 0 <= k < |device| ==> IsDevice(device[k])
    ensures Left(Exec(m, device).value.hal.tasks) + |device| == Left(m.hal.tasks)
    decreases |device|
  {
    if device != [] {
      var k := |device| - 1;
      DeviceRunBounded(m, device[..k]);
      DeviceStepDecreases(Exec(m, device[..k]).value, device[k]);
    }
  }

  /** Deadlock freedom: in every state a disciplined run reaches, a device that cannot move has
      drained its queue and every blocking wait returns, that of an allocation too; no device schedule
      is longer than the work left; and some schedule drains the queue. */
  lemma NoDeadlock(actions: seq<Action>)
    requires Exec(START, actions).Some? && Disciplined(actions)
    ensures var m := Exec(START, actions).value;
            && ((forall a :: IsDevice(a) ==> !Enabled(m, a)) ==>
                  Drained(m.hal) && AllReturn(m))
            && (forall device :: Exec(m, device).Some? && (forall k :: 0 <= k < |device| ==> IsDevice(device[k]))
                                 ==> |device| <= Left(m.hal.tasks))
            && (exists device :: Drains(m, device))
  {
    var m := Exec(START, actions).value;
    ReachableWellFormed(actions);
    ReachableLive(actions);
    forall device | Exec(m, device).Some? && (forall k :: 0 <= k < |device| ==> IsDevice(device[k]))
      ensures |device| <= Left(m.hal.tasks)
    {
      DeviceRunBounded(m, device);
    }
    if !Drained(m.hal) {
      var i := FindEarliest(m.hal, 0);
      var a := EarliestRunnable(m, i);
    } else {
      DrainedMeetsAll(m);
    }
    var device := DrainFrom(m);
  }
}
