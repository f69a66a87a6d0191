/** hrx_stream_advance_timeline moves the timepoint to a value that no submission signals. */
module Orphan {
  import opened Wrappers
  import opened Timeline
  import opened Chain

  /** No submission of stream `s`, and not its semaphore, is past the last value handed out. */
  ghost predicate Bounded(m: Machine, s: nat) {
    && s < |m.streams| && m.streams[s].sem < |m.hal.sems|
    && m.hal.sems[m.streams[s].sem] <= Top(m.streams[s])
    && (forall i :: 0 <= i < |m.hal.tasks| && m.hal.tasks[i].owner == s ==> m.hal.tasks[i].signal.value <= Top(m.streams[s]))
  }

  /** Every step but an outside signal and an allocation whose wait failed keeps the bound. */
  ghost predicate Inside(m: Machine, a: Action, s: nat)
    requires s < |m.streams|
  {
    && (a.Signal? ==> a.p.sem != m.streams[s].sem)
    && (a.AllocEnd? && a.s == s ==> a.waited)
  }

  ghost predicate InsideRun(actions: seq<Action>, s: nat)
    decreases |actions|
  {
    actions == [] ||
    (var k := |actions| - 1;
     && InsideRun(actions[..k], s)
     && (var before := Exec(START, actions[..k]);
         before.Some? && s < |before.value.streams| ==> Inside(before.value, actions[k], s)))
  }

  lemma HostKeepsBounded(m: Machine, a: Action, s: nat)
    requires WellFormed(m) && Bounded(m, s) && Enabled(m, a) && !IsDevice(a) && Inside(m, a, s)
    ensures Bounded(Next(m, a), s)
  {
    HostTasks(m, a);
  }

  lemma DeviceKeepsBounded(m: Machine, a: Action, s: nat)
    requires WellFormed(m) && Bounded(m, s) && Enabled(m, a) && IsDevice(a)
    ensures Bounded(Next(m, a), s)
  {
    assert TaskWellFormed(m, m.hal.tasks[a.t]);
  }

  lemma {:induction false} ReachableBounded(actions: seq<Action>, s: nat)
    requires Exec(START, actions).Some? && InsideRun(actions, s)
    requires s < |Exec(START, actions).value.streams|
    ensures Bounded(Exec(START, actions).value, s)
    decreases |actions|
  {
    var k := |actions| - 1;
    var m, a := Exec(START, actions[..k]).value, actions[k];
    ReachableWellFormed(actions[..k]);
    if s < |m.streams| {
      ReachableBounded(actions[..k], s);
      if IsDevice(a) {
        DeviceKeepsBounded(m, a, s);
      } else {
        HostKeepsBounded(m, a, s);
      }
    } else {
      assert forall i :: 0 <= i < |m.hal.tasks| ==> TaskWellFormed(m, m.hal.tasks[i]);
    }
  }

  /** The submission waits for the orphaned value or a later one, and has done nothing. */
  ghost predicate Stuck(t: Task, sem: nat, v: nat) {
    !Begun(t) && Guarded(t, sem, v)
  }

  /** Value `v` of stream `s` is an orphan: what was submitted before signals less, what was
      submitted after is stuck behind it. */
  ghost predicate Orphaned(m: Machine, s: nat, v: nat, n: nat) {
    && s < |m.streams| && m.streams[s].sem < |m.hal.sems|
    && 0 < v <= m.streams[s].timepoint && m.hal.sems[m.streams[s].sem] < v
    && (forall i :: 0 <= i < |m.hal.tasks| && m.hal.tasks[i].owner == s ==>
          if i < n then m.hal.tasks[i].signal.value < v else Stuck(m.hal.tasks[i], m.streams[s].sem, v))
  }

  /** No outside signal on semaphore `sem` and no `wait_on` by stream `s`. */
  ghost predicate Quiet(a: Action, s: nat, sem: nat) {
    (a.Signal? ==> a.p.sem != sem) && (a.WaitOn? ==> a.s != s)
  }

  lemma HostKeepsOrphan(m: Machine, a: Action, s: nat, v: nat, n: nat)
    requires WellFormed(m) && Orphaned(m, s, v, n) && n <= |m.hal.tasks|
    requires Enabled(m, a) && !IsDevice(a) && Quiet(a, s, m.streams[s].sem)
    ensures Orphaned(Next(m, a), s, v, n)
  {
    StepMonotone(m, a);
    HostTasks(m, a);
    var o := Next(m, a);
    if o.hal.tasks != m.hal.tasks {
      var t: Task :| o.hal.tasks == m.hal.tasks + [t] && NewTask(m, a, t);
      if a.s == s {
        assert t.waits[0] == Point(m.streams[s].sem, m.streams[s].timepoint);
        assert Stuck(t, m.streams[s].sem, v);
      }
    }
  }

  lemma DeviceKeepsOrphan(m: Machine, a: Action, s: nat, v: nat, n: nat)
    requires WellFormed(m) && Orphaned(m, s, v, n) && Enabled(m, a) && IsDevice(a)
    ensures Orphaned(Next(m, a), s, v, n)
  {
    var t := m.hal.tasks[a.t];
    assert TaskWellFormed(m, t);
    assert t.owner == s ==> !Stuck(t, m.streams[s].sem, v);
  }

  lemma {:induction false} RunKeepsOrphan(m: Machine, rest: seq<Action>, s: nat, v: nat, n: nat)
    requires WellFormed(m) && Orphaned(m, s, v, n) && n <= |m.hal.tasks|
    requires Exec(m, rest).Some? && forall k :: 0 <= k < |rest| ==> Quiet(rest[k], s, m.streams[s].sem)
    ensures WellFormed(Exec(m, rest).value) && Orphaned(Exec(m, rest).value, s, v, n)
    decreases |rest|
  {
    if rest != [] {
      var k := |rest| - 1;
      RunKeepsOrphan(m, rest[..k], s, v, n);
      RunMonotone(m, rest[..k]);
      var o := Exec(m, rest[..k]).value;
      StepWellFormed(o, rest[k]);
      if IsDevice(rest[k]) {
        DeviceKeepsOrphan(o, rest[k], s, v, n);
      } else {
        HostKeepsOrphan(o, rest[k], s, v, n);
      }
    }
  }

  /** After `advance_timeline`, with no outside signal and no later `wait_on` on that stream, in
      every continuation the semaphore stays below the new timepoint, a wait on the stream cannot
      return, and nothing the stream submits ever executes. */
  lemma AdvanceOrphans(actions: seq<Action>, s: nat, rest: seq<Action>)
    requires Exec(START, actions).Some? && InsideRun(actions, s) && IsOpen(Exec(START, actions).value, s)
    requires Exec(START, actions + [Advance(s)] + rest).Some?
    requires forall k :: 0 <= k < |rest| ==> Quiet(rest[k], s, Exec(START, actions).value.streams[s].sem)
    ensures var m, o := Exec(START, actions).value, Exec(START, actions + [Advance(s)] + rest).value;
            && s < |o.streams| && m.streams[s].sem < |o.hal.sems|
            && o.hal.sems[m.streams[s].sem] <= m.streams[s].timepoint && !Reached(o, s)
            && (forall i :: |m.hal.tasks| <= i < |o.hal.tasks| && o.hal.tasks[i].owner == s ==> !Begun(o.hal.tasks[i]))
  {
    var m := Exec(START, actions).value;
    ReachableWellFormed(actions);
    ReachableBounded(actions, s);
    ExecSnoc(START, actions, Advance(s));
    ExecAppend(START, actions + [Advance(s)], rest);
    var n := Next(m, Advance(s));
    StepWellFormed(m, Advance(s));
    RunKeepsOrphan(n, rest, s, m.streams[s].timepoint + 1, |m.hal.tasks|);
    RunMonotone(n, rest);
  }
}
