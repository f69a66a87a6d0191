/** What hrx_stream_wait_on promises whatever the state of the stream: later work starts only once the
    awaited point was reached.  The promise lasts until the stream's next `wait_on`; this module also
    gives the exact condition under which it outlives that call. */
module Gate {
  import opened Wrappers
  import opened Timeline
  import opened Chain
  import opened Orphan
  import opened Schedule

  ghost predicate AllQuiet(rest: seq<Action>, s: nat, sem: nat) {
    forall k :: 0 <= k < |rest| ==> Quiet(rest[k], s, sem)
  }

  /** A barrier that waits for `p` and has not signalled. */
  predicate Barrier(t: Task, s: nat, p: Point) {
    t.owner == s && t.cmds == [] && p in t.waits && !Begun(t)
  }

  /** Reaching `q` reaches `p`, or `q` is a value of semaphore `sem` from `v` on, or the barrier on `q`
      signals `top`, and with it `p`. */
  predicate Covers(q: Point, p: Point, sem: nat, v: nat, top: nat) {
    (q.sem == p.sem && q.value >= p.value) || (q.sem == sem && q.value >= v) || (p.sem == sem && p.value <= top)
  }

  /** The gate is shut: barrier `b` on `p` has not signalled its value `v`, the later barrier `c` on `q`
      (which may be the same) has not signalled either, and nothing else submitted after `b` began. */
  ghost predicate Shut(m: Machine, s: nat, p: Point, b: nat, q: Point, c: nat, v: nat) {
    && s < |m.streams| && m.streams[s].sem < |m.hal.sems|
    && 0 < v <= m.streams[s].timepoint && m.hal.sems[m.streams[s].sem] < v && !Met(m.hal, p)
    && b <= c < |m.hal.tasks| && Barrier(m.hal.tasks[b], s, p) && Barrier(m.hal.tasks[c], s, q)
    && (forall i :: 0 <= i < |m.hal.tasks| && m.hal.tasks[i].owner == s ==> Placed(m.hal.tasks[i], i, b, c, m.streams[s].sem, v))
  }

  ghost predicate Placed(t: Task, i: nat, b: nat, c: nat, sem: nat, v: nat) {
    if i < b then t.signal.value < v else i == b || i == c || Stuck(t, sem, v)
  }

  /** The barrier on `q` cannot let anything past with `p` unreached. */
  predicate Safe(m: Machine, s: nat, p: Point, q: Point, c: nat, v: nat) {
    s < |m.streams| && c < |m.hal.tasks| && Covers(q, p, m.streams[s].sem, v, m.hal.tasks[c].signal.value)
  }

  ghost predicate Gated(m: Machine, s: nat, p: Point, b: nat, q: Point, c: nat, v: nat) {
    Met(m.hal, p) || (Shut(m, s, p, b, q, c, v) && Safe(m, s, p, q, c, v))
  }

  lemma HostKeepsShut(m: Machine, a: Action, s: nat, p: Point, b: nat, q: Point, c: nat, v: nat)
    requires WellFormed(m) && Shut(m, s, p, b, q, c, v)
    requires Enabled(m, a) && !IsDevice(a) && Quiet(a, s, m.streams[s].sem)
    ensures Met(Next(m, a).hal, p) || Shut(Next(m, a), s, p, b, q, c, v)
  {
    StepMonotone(m, a);
    HostTasks(m, a);
    var o := Next(m, a);
    if o.hal.tasks != m.hal.tasks {
      var t: Task :| o.hal.tasks == m.hal.tasks + [t] && NewTask(m, a, t);
      if a.s == s {
        assert t.waits[0] == Point(m.streams[s].sem, m.streams[s].timepoint);
        assert Guarded(t, m.streams[s].sem, v);
      }
    }
  }

  /** While the gate is shut, the stream's own submissions from `b` on take no step but the signal of `c`,
      and that only once `q` is reached. */
  lemma OwnStep(m: Machine, a: Action, s: nat, p: Point, b: nat, q: Point, c: nat, v: nat)
    requires WellFormed(m) && Shut(m, s, p, b, q, c, v) && Enabled(m, a) && IsDevice(a)
    requires m.hal.tasks[a.t].owner == s && a.t >= b
    ensures a == Finish(c) && b < c && Met(m.hal, q)
  {
    var t, sem := m.hal.tasks[a.t], m.streams[s].sem;
    assert a.t != b;
    assert Placed(t, a.t, b, c, sem, v);
    if Guarded(t, sem, v) {
      NotMet(m.hal, t, sem, v);
    }
  }

  lemma DeviceKeepsShut(m: Machine, a: Action, s: nat, p: Point, b: nat, q: Point, c: nat, v: nat)
    requires WellFormed(m) && Shut(m, s, p, b, q, c, v) && (Safe(m, s, p, q, c, v) || !Met(m.hal, q))
    requires Enabled(m, a) && IsDevice(a)
    ensures Met(Next(m, a).hal, p) || Shut(Next(m, a), s, p, b, q, c, v)
  {
    assert TaskWellFormed(m, m.hal.tasks[a.t]);
    if m.hal.tasks[a.t].owner == s && a.t >= b {
      OwnStep(m, a, s, p, b, q, c, v);
    }
  }

  lemma StepKeepsShut(m: Machine, a: Action, s: nat, p: Point, b: nat, q: Point, c: nat, v: nat)
    requires WellFormed(m) && Shut(m, s, p, b, q, c, v) && (Safe(m, s, p, q, c, v) || !Met(m.hal, q))
    requires Enabled(m, a) && Quiet(a, s, m.streams[s].sem)
    ensures Met(Next(m, a).hal, p) || Shut(Next(m, a), s, p, b, q, c, v)
    ensures Next(m, a).streams[s].sem == m.streams[s].sem && Next(m, a).hal.tasks[c].signal == m.hal.tasks[c].signal
  {
    StepMonotone(m, a);
    if IsDevice(a) {
      DeviceKeepsShut(m, a, s, p, b, q, c, v);
    } else {
      HostKeepsShut(m, a, s, p, b, q, c, v);
      HostTasks(m, a);
    }
  }

  lemma {:induction false} RunKeepsGate(m: Machine, rest: seq<Action>, s: nat, p: Point, b: nat, q: Point, c: nat, v: nat)
    requires WellFormed(m) && Gated(m, s, p, b, q, c, v) && s < |m.streams|
    requires Exec(m, rest).Some? && AllQuiet(rest, s, m.streams[s].sem)
    ensures WellFormed(Exec(m, rest).value) && Gated(Exec(m, rest).value, s, p, b, q, c, v)
    decreases |rest|
  {
    if rest != [] {
      var k := |rest| - 1;
      RunKeepsGate(m, rest[..k], s, p, b, q, c, v);
      RunMonotone(m, rest[..k]);
      var o := Exec(m, rest[..k]).value;
      StepWellFormed(o, rest[k]);
      StepMonotone(o, rest[k]);
      if !Met(o.hal, p) {
        StepKeepsShut(o, rest[k], s, p, b, q, c, v);
      }
    }
  }

  /** The barrier shuts the gate behind it, from any state whose own values are bounded. */
  lemma BarrierShuts(m: Machine, s: nat, p: Point)
    requires WellFormed(m) && Bounded(m, s) && Enabled(m, Action.WaitOn(s, p))
    ensures var b := |m.hal.tasks|; Gated(Next(m, Action.WaitOn(s, p)), s, p, b, p, b, m.streams[s].timepoint + 1)
  {
  }

  /** From every state of every run without outside signals, idle or not: after `wait_on` and until the
      stream's next `wait_on`, a submission of the stream begins, and a wait on the stream returns, only
      once the awaited point was reached. */
  lemma WaitOnGates(actions: seq<Action>, s: nat, p: Point, rest: seq<Action>)
    requires Exec(START, actions).Some? && InsideRun(actions, s) && s < |Exec(START, actions).value.streams|
    requires Exec(START, actions + [Action.WaitOn(s, p)] + rest).Some?
    requires AllQuiet(rest, s, Exec(START, actions).value.streams[s].sem)
    ensures var m, o := Exec(START, actions).value, Exec(START, actions + [Action.WaitOn(s, p)] + rest).value;
            && (forall i :: |m.hal.tasks| <= i < |o.hal.tasks| && o.hal.tasks[i].owner == s && Begun(o.hal.tasks[i]) ==> Met(o.hal, p))
            && (Reached(o, s) ==> Met(o.hal, p))
  {
    var m, a := Exec(START, actions).value, Action.WaitOn(s, p);
    ReachableWellFormed(actions);
    ReachableBounded(actions, s);
    ExecSnoc(START, actions, a);
    ExecAppend(START, actions + [a], rest);
    StepWellFormed(m, a);
    BarrierShuts(m, s, p);
    RunKeepsGate(Next(m, a), rest, s, p, |m.hal.tasks|, p, |m.hal.tasks|, m.streams[s].timepoint + 1);
  }

  // --- the chain before the barrier ---

  /** The machine as it was before the barrier `b` on the timepoint `v - 1`, up to what ran since. */
  function Cut(m: Machine, s: nat, b: nat, v: nat): Machine
    requires s < |m.streams| && b <= |m.hal.tasks| && v > 0
  {
    Machine(m.streams[s := m.streams[s].(timepoint := v - 1, phase := Open)], m.hal.(tasks := m.hal.tasks[..b]))
  }

  /** The submissions before the barrier are a chain up to `v - 1`. */
  ghost predicate Prefix(m: Machine, s: nat, b: nat, v: nat) {
    s < |m.streams| && b <= |m.hal.tasks| && v > 0 && Chained(Cut(m, s, b, v), s)
  }

  lemma CutWellFormed(m: Machine, s: nat, b: nat, v: nat)
    requires WellFormed(m) && s < |m.streams| && b <= |m.hal.tasks| && v > 0
    ensures WellFormed(Cut(m, s, b, v))
  {
    var o := Cut(m, s, b, v);
    forall t | 0 <= t < |o.hal.tasks| ensures TaskWellFormed(o, o.hal.tasks[t]) {
      assert TaskWellFormed(m, m.hal.tasks[t]);
    }
  }

  /** A step of a submission before the barrier is a step of the cut machine. */
  lemma CutStep(m: Machine, a: Action, s: nat, b: nat, v: nat)
    requires s < |m.streams| && b <= |m.hal.tasks| && v > 0 && Enabled(m, a) && IsDevice(a) && a.t < b
    ensures Enabled(Cut(m, s, b, v), a) && Next(Cut(m, s, b, v), a) == Cut(Next(m, a), s, b, v)
  {
    var o := Cut(m, s, b, v);
    assert o.hal.tasks[a.t] == m.hal.tasks[a.t];
    var u := Next(m, a).hal.tasks[a.t];
    assert m.hal.tasks[a.t := u][..b] == m.hal.tasks[..b][a.t := u];
  }

  /** Other steps do not touch what the chain is made of. */
  ghost predicate CutAlike(m: Machine, n: Machine, s: nat, b: nat) {
    && s < |m.streams| && s < |n.streams| && b <= |m.hal.tasks| && b <= |n.hal.tasks|
    && n.hal.tasks[..b] == m.hal.tasks[..b] && n.streams[s].sem == m.streams[s].sem
    && m.streams[s].sem < |m.hal.sems| && m.streams[s].sem < |n.hal.sems|
    && n.hal.sems[m.streams[s].sem] == m.hal.sems[m.streams[s].sem]
  }

  lemma AlikeKeeps(m: Machine, n: Machine, s: nat, b: nat, v: nat, u: nat, p: Point)
    requires CutAlike(m, n, s, b) && Prefix(m, s, b, v)
    ensures Prefix(n, s, b, v) && (HeldBack(Cut(m, s, b, v), s, u, p) ==> HeldBack(Cut(n, s, b, v), s, u, p))
  {
    var o, o' := Cut(m, s, b, v), Cut(n, s, b, v);
    if HeldBack(o, s, u, p) {
      var i: nat :| Stopper(o, s, i, p) && Owned(o.hal.tasks, i, s) < u;
      assert Stopper(o', s, i, p);
    }
  }

  lemma HostAlike(m: Machine, a: Action, s: nat, b: nat)
    requires WellFormed(m) && s < |m.streams| && b <= |m.hal.tasks| && Enabled(m, a) && !IsDevice(a) && Quiet(a, s, m.streams[s].sem)
    ensures CutAlike(m, Next(m, a), s, b)
  {
    StepMonotone(m, a);
    HostTasks(m, a);
  }

  lemma DeviceAlike(m: Machine, a: Action, s: nat, b: nat)
    requires WellFormed(m) && s < |m.streams| && b <= |m.hal.tasks| && Enabled(m, a) && IsDevice(a) && a.t >= b
    requires m.hal.tasks[a.t].owner != s
    ensures CutAlike(m, Next(m, a), s, b)
  {
    assert TaskWellFormed(m, m.hal.tasks[a.t]);
    var u := Next(m, a).hal.tasks[a.t];
    assert m.hal.tasks[a.t := u][..b] == m.hal.tasks[..b];
  }

  /** While the gate is shut, the chain before the barrier stays a chain, and what holds it back stays. */
  lemma StepKeepsPrefix(m: Machine, a: Action, s: nat, p: Point, b: nat, q: Point, c: nat, v: nat, u: nat)
    requires WellFormed(m) && Shut(m, s, p, b, q, c, v) && Prefix(m, s, b, v) && (b == c || !Met(m.hal, q))
    requires Enabled(m, a) && Quiet(a, s, m.streams[s].sem)
    ensures Prefix(Next(m, a), s, b, v)
    ensures HeldBack(Cut(m, s, b, v), s, u, p) ==> HeldBack(Cut(Next(m, a), s, b, v), s, u, p)
  {
    if !IsDevice(a) {
      HostAlike(m, a, s, b);
      AlikeKeeps(m, Next(m, a), s, b, v, u, p);
    } else if a.t >= b {
      if m.hal.tasks[a.t].owner == s {
        OwnStep(m, a, s, p, b, q, c, v);
      } else {
        DeviceAlike(m, a, s, b);
        AlikeKeeps(m, Next(m, a), s, b, v, u, p);
      }
    } else {
      CutWellFormed(m, s, b, v);
      CutStep(m, a, s, b, v);
      StepKeepsChain(Cut(m, s, b, v), a, s);
      if HeldBack(Cut(m, s, b, v), s, u, p) {
        HeldBackStays(Cut(m, s, b, v), a, s, u, p);
      }
    }
  }

  /** From the barrier on, as long as `p` is not reached. */
  ghost predicate Waiting(m: Machine, s: nat, p: Point, b: nat, v: nat) {
    Met(m.hal, p) || (Shut(m, s, p, b, p, b, v) && Prefix(m, s, b, v))
  }

  lemma {:induction false} RunKeepsWaiting(m: Machine, rest: seq<Action>, s: nat, p: Point, b: nat, v: nat)
    requires WellFormed(m) && Waiting(m, s, p, b, v) && s < |m.streams|
    requires Exec(m, rest).Some? && AllQuiet(rest, s, m.streams[s].sem)
    ensures WellFormed(Exec(m, rest).value) && Waiting(Exec(m, rest).value, s, p, b, v)
    decreases |rest|
  {
    if rest != [] {
      var k := |rest| - 1;
      RunKeepsWaiting(m, rest[..k], s, p, b, v);
      RunMonotone(m, rest[..k]);
      var o := Exec(m, rest[..k]).value;
      StepWellFormed(o, rest[k]);
      StepMonotone(o, rest[k]);
      if !Met(o.hal, p) {
        StepKeepsShut(o, rest[k], s, p, b, p, b, v);
        StepKeepsPrefix(o, rest[k], s, p, b, p, b, v, 0);
      }
    }
  }

  /** A `wait_on` from a stream on its chain starts the wait. */
  lemma WaitStarts(m: Machine, s: nat, p: Point)
    requires WellFormed(m) && Chained(m, s) && Enabled(m, Action.WaitOn(s, p))
    ensures Waiting(Next(m, Action.WaitOn(s, p)), s, p, |m.hal.tasks|, m.streams[s].timepoint + 1)
  {
    var n, b, v := Next(m, Action.WaitOn(s, p)), |m.hal.tasks|, m.streams[s].timepoint + 1;
    ChainedBounded(m, s);
    BarrierShuts(m, s, p);
    assert n.hal.tasks[..b] == m.hal.tasks;
    assert Cut(n, s, b, v).hal.tasks == m.hal.tasks;
  }

  lemma ChainedBounded(m: Machine, s: nat)
    requires WellFormed(m) && Chained(m, s)
    ensures Bounded(m, s)
  {
    forall i | 0 <= i < |m.hal.tasks| && m.hal.tasks[i].owner == s
      ensures m.hal.tasks[i].signal.value <= Top(m.streams[s])
    {
      assert Link(m.hal.tasks[i], Owned(m.hal.tasks, i, s) + 1, m.streams[s].sem, m.hal.sems[m.streams[s].sem]);
      OwnedGrows(m.hal.tasks, i, |m.hal.tasks|, s);
    }
  }

  // --- a second wait_on ---

  /** Work that the stream submits after its next `wait_on`, on `q`, still starts only once `p` was
      reached, whatever follows. */
  ghost predicate Outlives(m: Machine, s: nat, p: Point, q: Point)
    requires s < |m.streams|
  {
    forall rest :: AllQuiet(rest, s, m.streams[s].sem) && Exec(m, [Action.WaitOn(s, q)] + rest).Some? ==>
                     Kept(Exec(m, [Action.WaitOn(s, q)] + rest).value, s, p, |m.hal.tasks|)
  }

  ghost predicate Kept(m: Machine, s: nat, p: Point, c: nat) {
    forall i :: c < i < |m.hal.tasks| && m.hal.tasks[i].owner == s && Begun(m.hal.tasks[i]) ==> Met(m.hal, p)
  }

  lemma CoveredOutlives(m: Machine, s: nat, p: Point, b: nat, v: nat, q: Point)
    requires WellFormed(m) && Gated(m, s, p, b, p, b, v) && Enabled(m, Action.WaitOn(s, q))
    requires Met(m.hal, p) || Covers(q, p, m.streams[s].sem, v, m.streams[s].timepoint + 1)
    ensures Outlives(m, s, p, q)
  {
    var a, c := Action.WaitOn(s, q), |m.hal.tasks|;
    var n := Next(m, a);
    StepWellFormed(m, a);
    StepMonotone(m, a);
    assert Gated(n, s, p, b, q, c, v);
    forall rest | AllQuiet(rest, s, m.streams[s].sem) && Exec(m, [a] + rest).Some?
      ensures Kept(Exec(m, [a] + rest).value, s, p, c)
    {
      ExecCons(m, a, rest);
      RunKeepsGate(n, rest, s, p, b, q, c, v);
    }
  }

  /** A stream whose semaphore reached its timepoint executes what it records next. */
  lemma Slips(m: Machine, s: nat, op: Op) returns (rest: seq<Action>, o: Machine)
    requires WellFormed(m) && IsOpen(m, s) && m.streams[s].timepoint > 0
    requires Met(m.hal, Point(m.streams[s].sem, m.streams[s].timepoint))
    ensures rest == [Record(s, op, Recorded)] + [Flush(s, Submitted)] + [Run(|m.hal.tasks|, 0)] && Exec(m, rest) == Some(o)
    ensures var c := |m.hal.tasks|;
            && o.hal.sems == m.hal.sems && |o.hal.tasks| == c + 1 && o.hal.tasks[c].owner == s && Begun(o.hal.tasks[c])
            && (m.streams[s].pending.None? ==> o.hal.log == m.hal.log + [Executed(s, op)])
  {
    var c := |m.hal.tasks|;
    var calls, n, t := RecordFlush(m, s, op);
    assert t.waits == [Point(m.streams[s].sem, m.streams[s].timepoint)] && n.hal.tasks[c] == t;
    RunFirst(n, c);
    ExecSnoc(m, calls, Run(c, 0));
    rest, o := calls + [Run(c, 0)], Next(n, Run(c, 0));
  }

  /** A barrier whose point is reached signals, and with it the stream is caught up. */
  lemma BarrierSignals(m: Machine, s: nat, p: Point, q: Point, c: nat)
    requires WellFormed(m) && IsOpen(m, s) && c < |m.hal.tasks| && Met(m.hal, q) && !Met(m.hal, p)
    requires m.hal.tasks[c] == Task(s, [q], Point(m.streams[s].sem, m.streams[s].timepoint), [], [], false)
    requires p.sem == m.streams[s].sem ==> p.value > m.streams[s].timepoint
    ensures Enabled(m, Finish(c))
    ensures var o := Next(m, Finish(c));
            && WellFormed(o) && o.streams == m.streams && |o.hal.tasks| == |m.hal.tasks| && !Met(o.hal, p)
            && Met(o.hal, Point(m.streams[s].sem, m.streams[s].timepoint))
  {
    StepWellFormed(m, Finish(c));
  }

  /** If a continuation reaches `q` and not `p`, and the barrier's own signal is not `p` either, then
      work submitted after the second `wait_on` can start although `p` was never reached. */
  lemma EarlyEscapes(m: Machine, s: nat, p: Point, q: Point, early: seq<Action>, op: Op) returns (rest: seq<Action>)
    requires WellFormed(m) && s < |m.streams| && Enabled(m, Action.WaitOn(s, q))
    requires AllForeign(early, m.streams[s].sem) && Exec(m, early).Some?
    requires Met(Exec(m, early).value.hal, q) && !Met(Exec(m, early).value.hal, p)
    requires p.sem == m.streams[s].sem ==> p.value > m.streams[s].timepoint + 1
    ensures AllQuiet(rest, s, m.streams[s].sem) && Exec(m, [Action.WaitOn(s, q)] + rest).Some?
    ensures !Kept(Exec(m, [Action.WaitOn(s, q)] + rest).value, s, p, |m.hal.tasks|)
  {
    var a, c := Action.WaitOn(s, q), |m.hal.tasks|;
    var n := Next(m, a);
    var o := Opened(m, s, q, early);
    BarrierSignals(o, s, p, q, c);
    var o' := Next(o, Finish(c));
    var tail, last := Slips(o', s, op);
    ExecCons(o, Finish(c), tail);
    ExecAppend(n, early, [Finish(c)] + tail);
    rest := early + ([Finish(c)] + tail);
    QuietJoin(early, Finish(c), tail, s, m.streams[s].sem);
    ExecCons(m, a, rest);
    assert c + 1 < |last.hal.tasks| && !Met(last.hal, p);
  }

  lemma QuietJoin(early: seq<Action>, a: Action, tail: seq<Action>, s: nat, sem: nat)
    requires AllForeign(early, sem) && IsDevice(a) && AllQuiet(tail, s, sem)
    ensures AllQuiet(early + ([a] + tail), s, sem)
  {
  }

  /** The second barrier does not get in the way of a continuation. */
  lemma Opened(m: Machine, s: nat, q: Point, early: seq<Action>) returns (o: Machine)
    requires WellFormed(m) && s < |m.streams| && Enabled(m, Action.WaitOn(s, q))
    requires AllForeign(early, m.streams[s].sem) && Exec(m, early).Some?
    ensures var n, c := Next(m, Action.WaitOn(s, q)), |m.hal.tasks|;
            && Exec(n, early) == Some(o) && WellFormed(o) && o.hal.sems == Exec(m, early).value.hal.sems
            && o.streams == n.streams && |o.hal.tasks| == c + 1
            && o.hal.tasks[c] == Task(s, [q], Point(m.streams[s].sem, m.streams[s].timepoint + 1), [], [], false)
  {
    var a, c := Action.WaitOn(s, q), |m.hal.tasks|;
    var n := Next(m, a);
    StepWellFormed(m, a);
    Lift(m, n, [n.hal.tasks[c]], early, m.streams[s].sem);
    ForeignCount(m, early, m.streams[s].sem);
    ForeignWellFormed(n, early, m.streams[s].sem);
    o := Exec(n, early).value;
  }

  lemma {:induction false} ForeignWellFormed(m: Machine, rest: seq<Action>, sem: nat)
    requires WellFormed(m) && AllForeign(rest, sem) && Exec(m, rest).Some?
    ensures WellFormed(Exec(m, rest).value)
    decreases |rest|
  {
    if rest != [] {
      ForeignWellFormed(m, rest[..|rest| - 1], sem);
      StepWellFormed(Exec(m, rest[..|rest| - 1]).value, rest[|rest| - 1]);
    }
  }

  // --- a second point on the stream's own semaphore, before the first barrier ---

  /** The point is on the stream's own semaphore and not reached, and a submission before it waits for its
      own future, or for `p` or a later value. */
  ghost predicate Behind(m: Machine, s: nat, b: nat, v: nat, q: Point, p: Point) {
    && s < |m.streams| && b <= |m.hal.tasks| && v > 0 && q.sem == m.streams[s].sem && !Met(m.hal, q)
    && HeldBack(Cut(m, s, b, v), s, q.value, p)
  }

  /** The second barrier waits behind what waits for `p`. */
  ghost predicate Queued(m: Machine, s: nat, p: Point, b: nat, q: Point, c: nat, v: nat) {
    Shut(m, s, p, b, q, c, v) && Prefix(m, s, b, v) && q.sem == m.streams[s].sem && HeldBack(Cut(m, s, b, v), s, q.value, p)
  }

  lemma QueuedNotMet(m: Machine, s: nat, p: Point, b: nat, q: Point, c: nat, v: nat)
    requires Queued(m, s, p, b, q, c, v)
    ensures !Met(m.hal, q)
  {
    HeldBackBelow(Cut(m, s, b, v), s, q.value, p);
  }

  lemma {:induction false} RunKeepsQueued(m: Machine, rest: seq<Action>, s: nat, p: Point, b: nat, q: Point, c: nat, v: nat)
    requires WellFormed(m) && Queued(m, s, p, b, q, c, v) && Exec(m, rest).Some? && AllQuiet(rest, s, m.streams[s].sem)
    ensures WellFormed(Exec(m, rest).value) && (Met(Exec(m, rest).value.hal, p) || Queued(Exec(m, rest).value, s, p, b, q, c, v))
    decreases |rest|
  {
    if rest != [] {
      var k := |rest| - 1;
      RunKeepsQueued(m, rest[..k], s, p, b, q, c, v);
      RunMonotone(m, rest[..k]);
      var o := Exec(m, rest[..k]).value;
      StepWellFormed(o, rest[k]);
      StepMonotone(o, rest[k]);
      if !Met(o.hal, p) {
        QueuedNotMet(o, s, p, b, q, c, v);
        StepKeepsShut(o, rest[k], s, p, b, q, c, v);
        StepKeepsPrefix(o, rest[k], s, p, b, q, c, v, q.value);
      }
    }
  }

  lemma BehindOutlives(m: Machine, s: nat, p: Point, b: nat, v: nat, q: Point)
    requires WellFormed(m) && Shut(m, s, p, b, p, b, v) && Prefix(m, s, b, v) && Behind(m, s, b, v, q, p)
    requires Enabled(m, Action.WaitOn(s, q))
    ensures Outlives(m, s, p, q)
  {
    var a, c := Action.WaitOn(s, q), |m.hal.tasks|;
    var n := Next(m, a);
    StepWellFormed(m, a);
    assert n.hal.tasks[..b] == m.hal.tasks[..b] && CutAlike(m, n, s, b);
    AlikeKeeps(m, n, s, b, v, q.value, p);
    SecondShuts(m, s, p, b, v, q);
    forall rest | AllQuiet(rest, s, m.streams[s].sem) && Exec(m, [a] + rest).Some?
      ensures Kept(Exec(m, [a] + rest).value, s, p, c)
    {
      ExecCons(m, a, rest);
      RunKeepsQueued(n, rest, s, p, b, q, c, v);
    }
  }

  lemma SecondShuts(m: Machine, s: nat, p: Point, b: nat, v: nat, q: Point)
    requires Shut(m, s, p, b, p, b, v) && WellFormed(m) && Enabled(m, Action.WaitOn(s, q))
    ensures Shut(Next(m, Action.WaitOn(s, q)), s, p, b, q, |m.hal.tasks|, v)
  {
  }

  /** With nothing in the way, the device and others can reach `q` and leave `p` unreached. */
  lemma ReachPast(m: Machine, s: nat, p: Point, b: nat, v: nat, q: Point) returns (early: seq<Action>)
    requires WellFormed(m) && Shut(m, s, p, b, p, b, v) && Prefix(m, s, b, v) && q.sem == m.streams[s].sem && !Met(m.hal, q)
    requires q.value < v && !Behind(m, s, b, v, q, p) && (p.sem == q.sem ==> p.value > v)
    ensures AllForeign(early, m.streams[s].sem) && Exec(m, early).Some?
    ensures Met(Exec(m, early).value.hal, q) && !Met(Exec(m, early).value.hal, p)
  {
    CutWellFormed(m, s, b, v);
    var o := Cut(m, s, b, v);
    early := DriveClear(o, s, q.value, p);
    assert m.hal.tasks == o.hal.tasks + m.hal.tasks[b..];
    Lift(o, m, m.hal.tasks[b..], early, m.streams[s].sem);
  }

  // --- the exact condition ---

  /** The promise about `p` outlives a `wait_on(q)` if `p` is reached already, or reaching `q` reaches `p`, or
      `q` is the first barrier's value or a later one on the stream's own semaphore, or `p` is on that
      semaphore and no later than the second barrier's value, or `q` is an unreached earlier value of that
      semaphore behind a submission that waits for its own future or for `p`. */
  ghost predicate Survives(m: Machine, s: nat, p: Point, b: nat, v: nat, q: Point)
    requires s < |m.streams|
  {
    Met(m.hal, p) || Covers(q, p, m.streams[s].sem, v, m.streams[s].timepoint + 1) || Behind(m, s, b, v, q, p)
  }

  /** Exact condition, for every second point, once `wait_on(p)` was made with its barrier `b` to signal `v`.
      Where the second point is an unreached earlier value of the stream's own semaphore, the submissions
      before the barrier are a chain; otherwise the stream may be in any state. */
  lemma SecondWaitExact(m: Machine, s: nat, p: Point, b: nat, v: nat, q: Point, op: Op)
    requires WellFormed(m) && Gated(m, s, p, b, p, b, v) && Enabled(m, Action.WaitOn(s, q))
    requires Met(m.hal, p) || Met(m.hal, q) || q.sem != m.streams[s].sem || q.value >= v || Prefix(m, s, b, v)
    ensures Outlives(m, s, p, q) <==> Survives(m, s, p, b, v, q)
  {
    var sem := m.streams[s].sem;
    if Met(m.hal, p) || Covers(q, p, sem, v, m.streams[s].timepoint + 1) {
      CoveredOutlives(m, s, p, b, v, q);
    } else if Behind(m, s, b, v, q, p) {
      BehindOutlives(m, s, p, b, v, q);
    } else {
      var early := [];
      if q.sem != sem {
        early := [Signal(q)];
        ExecCons(m, Signal(q), []);
        assert [Signal(q)] + [] == early;
      } else if !Met(m.hal, q) {
        early := ReachPast(m, s, p, b, v, q);
      }
      var rest := EarlyEscapes(m, s, p, q, early, op);
    }
  }

  /** The same over whole runs, with no condition on the points: after any orderly run, a `wait_on(p)` and
      anything but a further `wait_on` of the stream, the promise about `p` outlives a `wait_on(q)` if and
      only if the condition holds when it is made. */
  lemma SecondWaitDecides(actions: seq<Action>, s: nat, p: Point, rest: seq<Action>, q: Point, op: Op)
    requires Exec(START, actions).Some? && OrderlyRun(actions, s) && s < |Exec(START, actions).value.streams|
    requires Exec(START, actions + [Action.WaitOn(s, p)] + rest).Some?
    requires AllQuiet(rest, s, Exec(START, actions).value.streams[s].sem)
    requires Enabled(Exec(START, actions + [Action.WaitOn(s, p)] + rest).value, Action.WaitOn(s, q))
    ensures var first, m := Exec(START, actions).value, Exec(START, actions + [Action.WaitOn(s, p)] + rest).value;
            s < |m.streams| && (Outlives(m, s, p, q) <==> Survives(m, s, p, |first.hal.tasks|, first.streams[s].timepoint + 1, q))
  {
    var first := Exec(START, actions).value;
    WaitingReached(actions, s, p, rest);
    WaitingExact(Exec(START, actions + [Action.WaitOn(s, p)] + rest).value, s, p, |first.hal.tasks|, first.streams[s].timepoint + 1, q, op);
  }

  lemma WaitingReached(actions: seq<Action>, s: nat, p: Point, rest: seq<Action>)
    requires Exec(START, actions).Some? && OrderlyRun(actions, s) && s < |Exec(START, actions).value.streams|
    requires Exec(START, actions + [Action.WaitOn(s, p)] + rest).Some?
    requires AllQuiet(rest, s, Exec(START, actions).value.streams[s].sem)
    ensures var first, m := Exec(START, actions).value, Exec(START, actions + [Action.WaitOn(s, p)] + rest).value;
            WellFormed(m) && s < |m.streams| && Waiting(m, s, p, |first.hal.tasks|, first.streams[s].timepoint + 1)
  {
    var first, a := Exec(START, actions).value, Action.WaitOn(s, p);
    ReachableWellFormed(actions);
    ReachableChained(actions, s);
    ExecSnoc(START, actions, a);
    ExecAppend(START, actions + [a], rest);
    StepWellFormed(first, a);
    WaitStarts(first, s, p);
    RunKeepsWaiting(Next(first, a), rest, s, p, |first.hal.tasks|, first.streams[s].timepoint + 1);
    RunMonotone(Next(first, a), rest);
  }

  lemma WaitingExact(m: Machine, s: nat, p: Point, b: nat, v: nat, q: Point, op: Op)
    requires WellFormed(m) && s < |m.streams| && Waiting(m, s, p, b, v) && Enabled(m, Action.WaitOn(s, q))
    ensures Outlives(m, s, p, q) <==> Survives(m, s, p, b, v, q)
  {
    SecondWaitExact(m, s, p, b, v, q, op);
  }

  /** A run in which an operation executes although the point awaited before it was never reached. */
  lemma SecondWaitForgets(op: Op)
    ensures var p, q := Point(1, 1), Point(2, 1);
            var run := [CreateStream] + [CreateSemaphore(0)] + [CreateSemaphore(1)] + [Action.WaitOn(0, p)] + [Action.WaitOn(0, q)]
                       + [Finish(1)] + [Record(0, op, Recorded)] + [Flush(0, Submitted)] + [Run(2, 0)];
            && Exec(START, run).Some? && Exec(START, run).value.hal.log == [Executed(0, op)] && !Met(Exec(START, run).value.hal, p)
  {
    var p, q := Point(1, 1), Point(2, 1);
    var calls := [CreateStream] + [CreateSemaphore(0)] + [CreateSemaphore(1)] + [Action.WaitOn(0, p)] + [Action.WaitOn(0, q)];
    var m := TwoWaits(p, q);
    ReachableWellFormed(calls);
    BarrierSignals(m, 0, p, q, 1);
    ExecSnoc(START, calls, Finish(1));
    var rest, o := Slips(Next(m, Finish(1)), 0, op);
    ExecAppend(START, calls + [Finish(1)], rest);
    assert calls + [Finish(1)] + rest == calls + [Finish(1)] + [Record(0, op, Recorded)] + [Flush(0, Submitted)] + [Run(2, 0)];
  }

  lemma TwoWaits(p: Point, q: Point) returns (m: Machine)
    requires p.sem < 3 && q.sem < 3
    ensures m == Machine([Stream(0, 0, 2, None, false, Open)],
                         Hal([0, 0, 1], [Task(0, [p], Point(0, 1), [], [], false), Task(0, [q], Point(0, 2), [], [], false)], [], 0, []))
    ensures Exec(START, [CreateStream] + [CreateSemaphore(0)] + [CreateSemaphore(1)] + [Action.WaitOn(0, p)] + [Action.WaitOn(0, q)]) == Some(m)
  {
    var a, b, c, d, e := CreateStream, CreateSemaphore(0), CreateSemaphore(1), Action.WaitOn(0, p), Action.WaitOn(0, q);
    ExecCons(START, a, []);
    assert [a] + [] == [a];
    ExecSnoc(START, [a], b);
    ExecSnoc(START, [a] + [b], c);
    ExecSnoc(START, [a] + [b] + [c], d);
    ExecSnoc(START, [a] + [b] + [c] + [d], e);
    m := Next(Next(Next(Next(Next(START, a), b), c), d), e);
    assert m.hal.sems == [0, 0, 1];
    assert m.hal.tasks == [Task(0, [p], Point(0, 1), [], [], false), Task(0, [q], Point(0, 2), [], [], false)];
  }
}
