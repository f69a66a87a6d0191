/** Order across streams: a `wait_on` with a position of another stream puts that stream's work up to the
    position before the waiting stream's later work, in the order in which the device executes. */
module CrossStream {
  import opened Wrappers
  import opened Timeline
  import opened Chain
  import opened Refinement
  import opened Orphan
  import opened Gate

  ghost predicate Starts(whole: seq<Op>, part: seq<Op>) {
    |part| <= |whole| && whole[..|part|] == part
  }

  lemma StartsTrans(a: seq<Op>, b: seq<Op>, c: seq<Op>)
    requires Starts(a, b) && Starts(b, c)
    ensures Starts(a, c)
  {
    assert a[..|c|] == a[..|b|][..|c|];
  }

  lemma {:induction false} AddOpsStarts(acc: seq<Op>, cmds: seq<Cmd>, n: nat)
    requires n <= |cmds|
    ensures Starts(AddOps(acc, cmds, n), acc)
  {
    if n > 0 {
      AddOpsStarts(acc, cmds, n - 1);
      StartsTrans(AddOps(acc, cmds, n), AddOps(acc, cmds, n - 1), acc);
    }
  }

  lemma {:induction false} OwnOpsStarts(tasks: seq<Task>, n: nat, k: nat, s: nat)
    requires k <= n <= |tasks|
    ensures Starts(OwnOps(tasks, n, s), OwnOps(tasks, k, s))
  {
    if k < n {
      OwnOpsStarts(tasks, n - 1, k, s);
      if tasks[n - 1].owner == s {
        AddOpsStarts(OwnOps(tasks, n - 1, s), tasks[n - 1].cmds, |tasks[n - 1].cmds|);
      }
      StartsTrans(OwnOps(tasks, n, s), OwnOps(tasks, n - 1, s), OwnOps(tasks, k, s));
    }
  }

  lemma {:induction false} AddRanStarts(acc: seq<Op>, cmds: seq<Cmd>, order: seq<nat>, n: nat)
    requires n <= |order|
    ensures Starts(AddRan(acc, cmds, order, n), acc)
  {
    if n > 0 {
      AddRanStarts(acc, cmds, order, n - 1);
      StartsTrans(AddRan(acc, cmds, order, n), AddRan(acc, cmds, order, n - 1), acc);
    }
  }

  lemma {:induction false} OwnRanStarts(tasks: seq<Task>, n: nat, k: nat, s: nat)
    requires k <= n <= |tasks|
    ensures Starts(OwnRan(tasks, n, s), OwnRan(tasks, k, s))
  {
    if k < n {
      OwnRanStarts(tasks, n - 1, k, s);
      if tasks[n - 1].owner == s {
        AddRanStarts(OwnRan(tasks, n - 1, s), tasks[n - 1].cmds, tasks[n - 1].order, |tasks[n - 1].order|);
      }
      StartsTrans(OwnRan(tasks, n, s), OwnRan(tasks, n - 1, s), OwnRan(tasks, k, s));
    }
  }

  /** The submissions of stream `s` that signal at most `v` are those before index `e`. */
  ghost predicate Splits(tasks: seq<Task>, s: nat, v: nat, e: nat) {
    e <= |tasks| && forall i :: 0 <= i < |tasks| && tasks[i].owner == s ==> (i < e <==> tasks[i].signal.value <= v)
  }

  lemma SplitExists(m: Machine, s: nat, v: nat) returns (e: nat)
    requires Chained(m, s)
    ensures Splits(m.hal.tasks, s, v, e)
  {
    var tasks, sem, cur := m.hal.tasks, m.streams[s].sem, m.hal.sems[m.streams[s].sem];
    e := |tasks|;
    if v < Owned(tasks, |tasks|, s) {
      e := RankExists(tasks, |tasks|, s, v + 1);
    }
    forall i | 0 <= i < |tasks| && tasks[i].owner == s
      ensures i < e <==> tasks[i].signal.value <= v
    {
      assert Link(tasks[i], Owned(tasks, i, s) + 1, sem, cur);
      OwnedGrows(tasks, i, |tasks|, s);
      if i < e < |tasks| {
        OwnedGrows(tasks, i, e, s);
      } else if e < i {
        OwnedGrows(tasks, e, i, s);
      }
    }
  }

  /** The other stream's work up to the position is done: executed first, in program order. */
  ghost predicate DoneUpTo(m: Machine, x: nat, accepted: seq<Op>, v: nat, e: nat) {
    && x < |m.streams| && Splits(m.hal.tasks, x, v, e)
    && (forall i :: 0 <= i < e && m.hal.tasks[i].owner == x ==> m.hal.tasks[i].finished)
    && Starts(Project(m.hal.log, x), OwnOps(m.hal.tasks, e, x))
    && (m.streams[x].phase.Closed? || Starts(accepted, OwnOps(m.hal.tasks, e, x)))
  }

  lemma PositionDone(m: Machine, x: nat, accepted: seq<Op>, v: nat) returns (e: nat)
    requires WellFormed(m) && Chained(m, x) && Pipeline(m, x, accepted)
    requires Met(m.hal, Point(m.streams[x].sem, v))
    ensures DoneUpTo(m, x, accepted, v, e)
  {
    var tasks, sem := m.hal.tasks, m.streams[x].sem;
    e := SplitExists(m, x, v);
    forall i | 0 <= i < e && tasks[i].owner == x ensures tasks[i].finished && AllRan(tasks[i]) {
      assert Link(tasks[i], Owned(tasks, i, x) + 1, sem, m.hal.sems[sem]);
      assert TaskWellFormed(m, tasks[i]);
    }
    AllRanOps(tasks, e, x);
    OwnRanStarts(tasks, |tasks|, e, x);
    OwnOpsStarts(tasks, |tasks|, e, x);
    var cmds := PendingCmds(m.streams[x]);
    AddOpsStarts(OwnOps(tasks, |tasks|, x), cmds, |cmds|);
    if !m.streams[x].phase.Closed? {
      StartsTrans(accepted, OwnOps(tasks, |tasks|, x), OwnOps(tasks, e, x));
    }
  }

  lemma {:induction false} LogGrows(m: Machine, rest: seq<Action>)
    requires Exec(m, rest).Some?
    ensures var o := Exec(m, rest).value; |m.hal.log| <= |o.hal.log| && o.hal.log[..|m.hal.log|] == m.hal.log
    decreases |rest|
  {
    if rest != [] {
      LogGrows(m, rest[..|rest| - 1]);
    }
  }

  /** The run up to a step: some calls, a `wait_on(p)` of stream `y`, and anything but its next `wait_on`. */
  function UpTo(before: seq<Action>, y: nat, p: Point, rest: seq<Action>): seq<Action> {
    before + [Action.WaitOn(y, p)] + rest
  }

  /** Whenever work that stream `y` submitted after `wait_on(p)` can take a step, the work of stream `x` up
      to position `p` is done, and its first operations in the log are exactly that work, in program order. */
  lemma WaitedWorkDone(before: seq<Action>, x: nat, y: nat, p: Point, rest: seq<Action>, a: Action) returns (e: nat)
    requires Exec(START, before).Some? && InsideRun(before, y) && y < |Exec(START, before).value.streams|
    requires Exec(START, UpTo(before, y, p, rest)).Some? && AllQuiet(rest, y, Exec(START, before).value.streams[y].sem)
    requires OrderlyRun(UpTo(before, y, p, rest), x) && FencedRun(UpTo(before, y, p, rest), x)
    requires var m := Exec(START, UpTo(before, y, p, rest)).value;
             && x < |m.streams| && m.streams[x].sem == p.sem && Enabled(m, a) && IsDevice(a)
             && m.hal.tasks[a.t].owner == y && a.t >= |Exec(START, before).value.hal.tasks|
    ensures DoneUpTo(Exec(START, UpTo(before, y, p, rest)).value, x, Accepted(UpTo(before, y, p, rest), x), p.value, e)
  {
    var run := UpTo(before, y, p, rest);
    var m := Exec(START, run).value;
    StepNeedsPoint(before, y, p, rest, a);
    ReachableWellFormed(run);
    ReachableChained(run, x);
    ReachablePipeline(run, x);
    e := PositionDone(m, x, Accepted(run, x), p.value);
  }

  /** A step of that work needs the point. */
  lemma StepNeedsPoint(before: seq<Action>, y: nat, p: Point, rest: seq<Action>, a: Action)
    requires Exec(START, before).Some? && InsideRun(before, y) && y < |Exec(START, before).value.streams|
    requires Exec(START, UpTo(before, y, p, rest)).Some? && AllQuiet(rest, y, Exec(START, before).value.streams[y].sem)
    requires var m := Exec(START, UpTo(before, y, p, rest)).value;
             Enabled(m, a) && IsDevice(a) && m.hal.tasks[a.t].owner == y && a.t >= |Exec(START, before).value.hal.tasks|
    ensures Met(Exec(START, UpTo(before, y, p, rest)).value.hal, p)
  {
    var m, w := Exec(START, before).value, Action.WaitOn(y, p);
    ReachableWellFormed(before);
    ReachableBounded(before, y);
    ExecSnoc(START, before, w);
    ExecAppend(START, before + [w], rest);
    StepWellFormed(m, w);
    BarrierShuts(m, y, p);
    var b, v := |m.hal.tasks|, m.streams[y].timepoint + 1;
    RunKeepsGate(Next(m, w), rest, y, p, b, p, b, v);
    var o := Exec(START, UpTo(before, y, p, rest)).value;
    if !Met(o.hal, p) {
      OwnStep(o, a, y, p, b, p, b, v);
    }
  }

  /** Order across streams in the device's log: if stream `y` waited on a position `p` of stream `x`, then in
      every run every operation that `x` submitted up to `p` stands in the log before every operation of
      `y` submitted after the `wait_on` (and before its next one).  Such an operation of `y` is executed in
      the state `m` by the step `Run(t, j)`, and `o` is any state after that. */
  lemma CrossStreamOrder(before: seq<Action>, x: nat, y: nat, p: Point, rest: seq<Action>, m: Machine, t: nat, j: nat,
                         post: seq<Action>, o: Machine) returns (e: nat)
    requires Exec(START, before).Some? && InsideRun(before, y) && y < |Exec(START, before).value.streams|
    requires AllQuiet(rest, y, Exec(START, before).value.streams[y].sem) && t >= |Exec(START, before).value.hal.tasks|
    requires Exec(START, UpTo(before, y, p, rest)) == Some(m) && Enabled(m, Run(t, j)) && Exec(m, [Run(t, j)] + post) == Some(o)
    requires m.hal.tasks[t].owner == y && m.hal.tasks[t].cmds[j].Do?
    requires OrderlyRun(UpTo(before, y, p, rest), x) && FencedRun(UpTo(before, y, p, rest), x)
    requires x < |m.streams| && m.streams[x].sem == p.sem
    ensures DoneUpTo(m, x, Accepted(UpTo(before, y, p, rest), x), p.value, e)
    ensures |m.hal.log| < |o.hal.log| && o.hal.log[..|m.hal.log|] == m.hal.log
    ensures o.hal.log[|m.hal.log|] == Executed(y, m.hal.tasks[t].cmds[j].op)
  {
    LogAfter(m, t, j, post);
    e := WaitedWorkDone(before, x, y, p, rest, Run(t, j));
  }

  lemma LogAfter(m: Machine, t: nat, j: nat, post: seq<Action>)
    requires Enabled(m, Run(t, j)) && m.hal.tasks[t].cmds[j].Do? && Exec(m, [Run(t, j)] + post).Some?
    ensures var o := Exec(m, [Run(t, j)] + post).value;
            && |m.hal.log| < |o.hal.log| && o.hal.log[..|m.hal.log|] == m.hal.log
            && o.hal.log[|m.hal.log|] == Executed(m.hal.tasks[t].owner, m.hal.tasks[t].cmds[j].op)
  {
    var n := Next(m, Run(t, j));
    ExecCons(m, Run(t, j), post);
    LogGrows(n, post);
    var log := Exec(n, post).value.hal.log;
    assert log[..|m.hal.log|] == log[..|n.hal.log|][..|m.hal.log|];
    assert log[|m.hal.log|] == log[..|n.hal.log|][|m.hal.log|];
  }
}
