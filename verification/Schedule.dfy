/** Continuations in which the device works and others signal their own semaphores: how far they can
    take a stream's chain, and that a submission added behind it does not get in their way. */
module Schedule {
  import opened Wrappers
  import opened Timeline
  import opened Chain
  import opened Liveness

  /** A device step, or a signal by someone else on a semaphore other than `sem`. */
  predicate Foreign(a: Action, sem: nat) {
    IsDevice(a) || (a.Signal? && a.p.sem != sem)
  }

  ghost predicate AllForeign(rest: seq<Action>, sem: nat) {
    forall k :: 0 <= k < |rest| ==> Foreign(rest[k], sem)
  }

  lemma ForeignStep(m: Machine, a: Action, s: nat)
    requires WellFormed(m) && Chained(m, s) && Enabled(m, a) && Foreign(a, m.streams[s].sem)
    ensures WellFormed(Next(m, a)) && Chained(Next(m, a), s) && Next(m, a).streams == m.streams
  {
    StepKeepsChain(m, a, s);
    StepWellFormed(m, a);
  }

  lemma {:induction false} ForeignKeepsChain(m: Machine, rest: seq<Action>, s: nat)
    requires WellFormed(m) && Chained(m, s) && AllForeign(rest, m.streams[s].sem) && Exec(m, rest).Some?
    ensures var o := Exec(m, rest).value; WellFormed(o) && Chained(o, s) && o.streams == m.streams
    decreases |rest|
  {
    if rest != [] {
      var k := |rest| - 1;
      ForeignKeepsChain(m, rest[..k], s);
      ForeignStep(Exec(m, rest[..k]).value, rest[k], s);
    }
  }

  /** Such a step touches no stream, and of the submissions only an unfinished one whose waits are met. */
  lemma ForeignTasks(m: Machine, a: Action, sem: nat)
    requires Enabled(m, a) && Foreign(a, sem)
    ensures var o := Next(m, a);
            && o.streams == m.streams && |o.hal.tasks| == |m.hal.tasks|
            && (forall k :: 0 <= k < |m.hal.tasks| ==> o.hal.tasks[k].owner == m.hal.tasks[k].owner)
            && (forall k :: 0 <= k < |m.hal.tasks| && (m.hal.tasks[k].finished || !WaitsMet(m.hal, m.hal.tasks[k])) ==> o.hal.tasks[k] == m.hal.tasks[k])
  {
  }

  lemma {:induction false} ForeignCount(m: Machine, rest: seq<Action>, sem: nat)
    requires AllForeign(rest, sem) && Exec(m, rest).Some?
    ensures |Exec(m, rest).value.hal.tasks| == |m.hal.tasks|
    decreases |rest|
  {
    if rest != [] {
      ForeignCount(m, rest[..|rest| - 1], sem);
      ForeignTasks(Exec(m, rest[..|rest| - 1]).value, rest[|rest| - 1], sem);
    }
  }

  // --- one submission ---

  /** A submission whose waits are met can run to its end, touching nothing else. */
  lemma {:induction false} RunTask(m: Machine, i: nat) returns (rest: seq<Action>)
    requires WellFormed(m) && i < |m.hal.tasks| && !m.hal.tasks[i].finished && WaitsMet(m.hal, m.hal.tasks[i])
    ensures (forall k :: 0 <= k < |rest| ==> IsDevice(rest[k])) && Exec(m, rest).Some?
    ensures var o := Exec(m, rest).value;
            && o.streams == m.streams && o.hal.sems == Raise(m.hal.sems, m.hal.tasks[i].signal)
            && |o.hal.tasks| == |m.hal.tasks| && o.hal.tasks[i].finished && o.hal.tasks[i].owner == m.hal.tasks[i].owner
            && forall k :: 0 <= k < |o.hal.tasks| && k != i ==> o.hal.tasks[k] == m.hal.tasks[k]
    decreases Missing(m.hal.tasks[i].cmds, m.hal.tasks[i].order)
  {
    var t := m.hal.tasks[i];
    assert TaskWellFormed(m, t);
    if AllRan(t) {
      rest := [Finish(i)];
      ExecCons(m, Finish(i), []);
      assert [Finish(i)] + [] == rest;
    } else {
      var j := ReadyCommand(t, 0);
      var a := Run(i, j);
      MissingAfter(t.cmds, t.order, j);
      StepWellFormed(m, a);
      var more := RunTask(Next(m, a), i);
      rest := [a] + more;
      ExecCons(m, a, more);
    }
  }

  /** Only semaphores other than `sem` rose. */
  ghost predicate Raised(m: Machine, o: Machine, sem: nat) {
    && o.streams == m.streams && o.hal.tasks == m.hal.tasks
    && sem < |m.hal.sems| == |o.hal.sems| && o.hal.sems[sem] == m.hal.sems[sem]
    && forall k :: 0 <= k < |m.hal.sems| ==> o.hal.sems[k] >= m.hal.sems[k]
  }

  /** Raising `w` does not reach `p`. */
  predicate Short(w: Point, p: Point) {
    w.sem != p.sem || w.value < p.value
  }

  lemma SignalRaises(m: Machine, w: Point, sem: nat, p: Point)
    requires w.sem < |m.hal.sems| && w.sem != sem && sem < |m.hal.sems| && Short(w, p) && !Met(m.hal, p)
    ensures Raised(m, Next(m, Signal(w)), sem) && Met(Next(m, Signal(w)).hal, w) && !Met(Next(m, Signal(w)).hal, p)
  {
  }

  /** Signals that meet the first `n` of some points, none of which is ahead on `sem` itself, and do not
      reach `p`. */
  lemma {:induction false} MeetPoints(m: Machine, ps: seq<Point>, sem: nat, n: nat, p: Point) returns (rest: seq<Action>)
    requires n <= |ps| && sem < |m.hal.sems| && !Met(m.hal, p)
    requires forall k :: 0 <= k < |ps| ==> ps[k].sem < |m.hal.sems| && Short(ps[k], p) && (ps[k].sem == sem ==> Met(m.hal, ps[k]))
    ensures AllForeign(rest, sem) && Exec(m, rest).Some? && Raised(m, Exec(m, rest).value, sem)
    ensures !Met(Exec(m, rest).value.hal, p) && forall k :: 0 <= k < n ==> Met(Exec(m, rest).value.hal, ps[k])
    decreases n
  {
    rest := [];
    if n > 0 {
      var o, w := m, ps[n - 1];
      if w.sem != sem {
        o := Next(m, Signal(w));
        SignalRaises(m, w, sem, p);
      }
      rest := MeetPoints(o, ps, sem, n - 1, p);
      if w.sem != sem {
        ExecCons(m, Signal(w), rest);
        rest := [Signal(w)] + rest;
      }
    }
  }

  /** A successful recording call and a successful flush add one submission, chained to the timepoint. */
  lemma RecordFlush(m: Machine, s: nat, op: Op) returns (calls: seq<Action>, o: Machine, t: Task)
    requires WellFormed(m) && IsOpen(m, s)
    ensures calls == [Record(s, op, Recorded)] + [Flush(s, Submitted)] && Exec(m, calls) == Some(o)
    ensures o.hal.sems == m.hal.sems && o.hal.log == m.hal.log && o.hal.tasks == m.hal.tasks + [t]
    ensures var st := m.streams[s];
            && o.streams == m.streams[s := st.(timepoint := st.timepoint + 1, pending := None, hasWork := false)]
            && t.owner == s && t.waits == OwnWait(st) && t.signal == Point(st.sem, st.timepoint + 1)
            && t.cmds != [] && t.order == [] && !t.finished && (st.pending.None? ==> t.cmds == [Do(op), Fence])
  {
    var a, f := Record(s, op, Recorded), Flush(s, Submitted);
    calls := [a] + [f];
    var n := Next(m, a);
    o := Next(n, f);
    t := o.hal.tasks[|m.hal.tasks|];
    ExecCons(m, a, [f]);
    ExecCons(n, f, []);
    assert [f] + [] == [f];
  }

  /** A submission that can start does, at its first command. */
  lemma RunFirst(m: Machine, c: nat)
    requires c < |m.hal.tasks| && !m.hal.tasks[c].finished && WaitsMet(m.hal, m.hal.tasks[c])
    requires m.hal.tasks[c].cmds != [] && m.hal.tasks[c].order == []
    ensures Enabled(m, Run(c, 0))
    ensures var o := Next(m, Run(c, 0));
            && o.streams == m.streams && o.hal.sems == m.hal.sems
            && o.hal.tasks == m.hal.tasks[c := m.hal.tasks[c].(order := [0])]
            && (m.hal.tasks[c].cmds[0].Do? ==> o.hal.log == m.hal.log + [Executed(m.hal.tasks[c].owner, m.hal.tasks[c].cmds[0].op)])
  {
    assert m.hal.tasks[c].order + [0] == [0];
  }

  // --- a stretch of the chain ---

  /** An unfinished submission of rank at most `v` waits for its own value or a later one of its own
      semaphore, which only it or its successors signal. */
  ghost predicate Blocked(m: Machine, s: nat, v: nat) {
    exists i: nat :: SelfBlocked(m, s, i) && Owned(m.hal.tasks, i, s) < v
  }

  ghost predicate SelfBlocked(m: Machine, s: nat, i: nat) {
    && s < |m.streams| && i < |m.hal.tasks| && m.hal.tasks[i].owner == s && !m.hal.tasks[i].finished
    && Guarded(m.hal.tasks[i], m.streams[s].sem, Owned(m.hal.tasks, i, s) + 1)
  }

  /** An unfinished submission of rank at most `v` waits for its own future, or for `p` or a later value. */
  ghost predicate HeldBack(m: Machine, s: nat, v: nat, p: Point) {
    exists i: nat :: Stopper(m, s, i, p) && Owned(m.hal.tasks, i, s) < v
  }

  ghost predicate Stopper(m: Machine, s: nat, i: nat, p: Point) {
    && s < |m.streams| && i < |m.hal.tasks| && m.hal.tasks[i].owner == s && !m.hal.tasks[i].finished
    && (Guarded(m.hal.tasks[i], m.streams[s].sem, Owned(m.hal.tasks, i, s) + 1) || Guarded(m.hal.tasks[i], p.sem, p.value))
  }

  /** The next submission of the chain can be taken to its signal without reaching `p`. */
  lemma DriveOne(m: Machine, s: nat, v: nat, p: Point) returns (rest: seq<Action>)
    requires WellFormed(m) && Chained(m, s) && !HeldBack(m, s, v, p) && !Met(m.hal, p)
    requires m.hal.sems[m.streams[s].sem] < v <= Top(m.streams[s]) && (p.sem == m.streams[s].sem ==> p.value > v)
    ensures AllForeign(rest, m.streams[s].sem) && Exec(m, rest).Some?
    ensures var o := Exec(m, rest).value;
            && WellFormed(o) && Chained(o, s) && o.streams == m.streams && !HeldBack(o, s, v, p) && !Met(o.hal, p)
            && |o.hal.sems| == |m.hal.sems| && o.hal.sems[m.streams[s].sem] == m.hal.sems[m.streams[s].sem] + 1
  {
    var sem := m.streams[s].sem;
    var cur := m.hal.sems[sem];
    var i := RankExists(m.hal.tasks, |m.hal.tasks|, s, cur + 1);
    var t := m.hal.tasks[i];
    assert Link(t, cur + 1, sem, cur);
    assert !Stopper(m, s, i, p);
    assert TaskWellFormed(m, t);
    NotGuarded(t, sem, cur + 1);
    NotGuarded(t, p.sem, p.value);
    var first := MeetPoints(m, t.waits, sem, |t.waits|, p);
    ForeignKeepsChain(m, first, s);
    var n := Exec(m, first).value;
    var second := RunTask(n, i);
    rest := first + second;
    ExecAppend(m, first, second);
    ForeignKeepsChain(m, rest, s);
    StillFree(n, Exec(m, rest).value, s, i, v, p);
  }

  lemma NotGuarded(t: Task, sem: nat, v: nat)
    requires !Guarded(t, sem, v)
    ensures forall k :: 0 <= k < |t.waits| ==> t.waits[k].sem != sem || t.waits[k].value < v
  {
  }

  lemma StillFree(m: Machine, o: Machine, s: nat, i: nat, v: nat, p: Point)
    requires s < |m.streams| && o.streams == m.streams && i < |m.hal.tasks| == |o.hal.tasks| && !HeldBack(m, s, v, p)
    requires o.hal.tasks[i].finished && o.hal.tasks[i].owner == m.hal.tasks[i].owner
    requires forall k :: 0 <= k < |o.hal.tasks| && k != i ==> o.hal.tasks[k] == m.hal.tasks[k]
    ensures !HeldBack(o, s, v, p)
  {
    forall k: nat | k < |o.hal.tasks|
      ensures Owned(o.hal.tasks, k, s) == Owned(m.hal.tasks, k, s) && (Stopper(o, s, k, p) ==> Stopper(m, s, k, p))
    {
      OwnedFrame(o.hal.tasks, m.hal.tasks, k, s);
    }
  }

  /** The chain can be taken to any value up to its top, past `p` unreached, if nothing holds it back. */
  lemma {:induction false} DriveClear(m: Machine, s: nat, v: nat, p: Point) returns (rest: seq<Action>)
    requires WellFormed(m) && Chained(m, s) && !HeldBack(m, s, v, p) && !Met(m.hal, p)
    requires m.hal.sems[m.streams[s].sem] <= v <= Top(m.streams[s]) && (p.sem == m.streams[s].sem ==> p.value > v)
    ensures AllForeign(rest, m.streams[s].sem) && Exec(m, rest).Some?
    ensures var o := Exec(m, rest).value;
            && WellFormed(o) && Chained(o, s) && o.streams == m.streams && o.hal.sems[m.streams[s].sem] == v && !Met(o.hal, p)
    decreases v - m.hal.sems[m.streams[s].sem]
  {
    rest := [];
    if m.hal.sems[m.streams[s].sem] < v {
      var first := DriveOne(m, s, v, p);
      var more := DriveClear(Exec(m, first).value, s, v, p);
      rest := first + more;
      ExecAppend(m, first, more);
    }
  }

  /** A point of no semaphore is never reached, so only self-blocked submissions hold the chain back. */
  lemma NothingToAvoid(m: Machine, s: nat, v: nat, p: Point)
    requires WellFormed(m) && !Blocked(m, s, v) && p.sem == |m.hal.sems|
    ensures !HeldBack(m, s, v, p)
  {
    forall i: nat | Stopper(m, s, i, p) ensures SelfBlocked(m, s, i) {
      assert TaskWellFormed(m, m.hal.tasks[i]);
    }
  }

  /** The chain can be taken to any value up to its top that no blocked submission guards. */
  lemma DriveTo(m: Machine, s: nat, v: nat) returns (rest: seq<Action>)
    requires WellFormed(m) && Chained(m, s) && !Blocked(m, s, v)
    requires m.hal.sems[m.streams[s].sem] <= v <= Top(m.streams[s])
    ensures AllForeign(rest, m.streams[s].sem) && Exec(m, rest).Some?
    ensures var o := Exec(m, rest).value;
            WellFormed(o) && Chained(o, s) && o.streams == m.streams && o.hal.sems[m.streams[s].sem] == v
  {
    var nowhere := Point(|m.hal.sems|, 0);
    NothingToAvoid(m, s, v, nowhere);
    rest := DriveClear(m, s, v, nowhere);
  }

  /** What holds the chain back stays, and keeps the semaphore below its value, while `p` is not reached. */
  lemma HeldBackStays(m: Machine, a: Action, s: nat, v: nat, p: Point)
    requires WellFormed(m) && Chained(m, s) && HeldBack(m, s, v, p) && !Met(m.hal, p)
    requires Enabled(m, a) && Foreign(a, m.streams[s].sem)
    ensures HeldBack(Next(m, a), s, v, p)
  {
    var i: nat :| Stopper(m, s, i, p) && Owned(m.hal.tasks, i, s) < v;
    var sem, rank := m.streams[s].sem, Owned(m.hal.tasks, i, s) + 1;
    assert Link(m.hal.tasks[i], rank, sem, m.hal.sems[sem]);
    assert TaskWellFormed(m, m.hal.tasks[i]);
    if Guarded(m.hal.tasks[i], sem, rank) {
      NotMet(m.hal, m.hal.tasks[i], sem, rank);
    } else {
      PointNotMet(m.hal, m.hal.tasks[i], p);
    }
    var o := Next(m, a);
    ForeignTasks(m, a, sem);
    OwnedFrame(o.hal.tasks, m.hal.tasks, i, s);
    assert Stopper(o, s, i, p);
  }

  lemma HeldBackBelow(m: Machine, s: nat, v: nat, p: Point)
    requires Chained(m, s) && HeldBack(m, s, v, p)
    ensures m.hal.sems[m.streams[s].sem] < v
  {
    var i: nat :| Stopper(m, s, i, p) && Owned(m.hal.tasks, i, s) < v;
    assert Link(m.hal.tasks[i], Owned(m.hal.tasks, i, s) + 1, m.streams[s].sem, m.hal.sems[m.streams[s].sem]);
  }

  lemma BlockedIsHeldBack(m: Machine, s: nat, v: nat, p: Point)
    requires Blocked(m, s, v)
    ensures HeldBack(m, s, v, p)
  {
    var i: nat :| SelfBlocked(m, s, i) && Owned(m.hal.tasks, i, s) < v;
    assert Stopper(m, s, i, p);
  }

  /** A blocked submission stays blocked. */
  lemma BlockedStays(m: Machine, a: Action, s: nat, v: nat)
    requires WellFormed(m) && Chained(m, s) && Blocked(m, s, v) && Enabled(m, a) && Foreign(a, m.streams[s].sem)
    ensures Blocked(Next(m, a), s, v)
  {
    var nowhere := Point(|m.hal.sems|, 0);
    BlockedIsHeldBack(m, s, v, nowhere);
    HeldBackStays(m, a, s, v, nowhere);
    StepWellFormed(m, a);
    if !Blocked(Next(m, a), s, v) {
      NothingToAvoid(Next(m, a), s, v, nowhere);
    }
  }

  // --- a submission added behind ---

  /** `n` has the submissions `ts` in addition to those of `m`, and the same payloads. */
  ghost predicate Extends(m: Machine, n: Machine, ts: seq<Task>) {
    n.hal.tasks == m.hal.tasks + ts && n.hal.sems == m.hal.sems
  }

  lemma LiftStep(m: Machine, n: Machine, ts: seq<Task>, a: Action, sem: nat)
    requires Extends(m, n, ts) && Enabled(m, a) && Foreign(a, sem)
    ensures Enabled(n, a) && Extends(Next(m, a), Next(n, a), ts) && Next(n, a).streams == n.streams
  {
    if IsDevice(a) {
      assert n.hal.tasks[a.t] == m.hal.tasks[a.t];
      var u := Next(m, a).hal.tasks[a.t];
      assert (m.hal.tasks + ts)[a.t := u] == m.hal.tasks[a.t := u] + ts;
    }
  }

  lemma {:induction false} Lift(m: Machine, n: Machine, ts: seq<Task>, rest: seq<Action>, sem: nat)
    requires Extends(m, n, ts) && AllForeign(rest, sem) && Exec(m, rest).Some?
    ensures Exec(n, rest).Some? && Extends(Exec(m, rest).value, Exec(n, rest).value, ts) && Exec(n, rest).value.streams == n.streams
    decreases |rest|
  {
    if rest != [] {
      var k := |rest| - 1;
      Lift(m, n, ts, rest[..k], sem);
      LiftStep(Exec(m, rest[..k]).value, Exec(n, rest[..k]).value, ts, rest[k], sem);
    }
  }

  /** `n` is `m` with a submission added that waits behind a blocked one. */
  ghost predicate Parked(m: Machine, n: Machine, t: Task, s: nat, v: nat) {
    && WellFormed(m) && Chained(m, s) && Blocked(m, s, v) && Extends(m, n, [t]) && Guarded(t, m.streams[s].sem, v)
  }

  /** The parked submission takes no step, and the others step as without it. */
  lemma ParkedStep(m: Machine, n: Machine, t: Task, a: Action, s: nat, v: nat)
    requires Parked(m, n, t, s, v) && Enabled(n, a) && Foreign(a, m.streams[s].sem)
    ensures Enabled(m, a) && Parked(Next(m, a), Next(n, a), t, s, v) && Next(m, a).streams == m.streams
  {
    var sem := m.streams[s].sem;
    BlockedBelow(m, s, v);
    NotMet(n.hal, t, sem, v);
    assert n.hal.tasks[|m.hal.tasks|] == t;
    if IsDevice(a) {
      assert a.t != |m.hal.tasks|;
      assert n.hal.tasks[a.t] == m.hal.tasks[a.t];
    }
    LiftStep(m, n, [t], a, sem);
    BlockedStays(m, a, s, v);
    StepWellFormed(m, a);
    StepKeepsChain(m, a, s);
  }

  lemma NotMet(h: Hal, t: Task, sem: nat, v: nat)
    requires Guarded(t, sem, v) && sem < |h.sems| && h.sems[sem] < v
    ensures !WaitsMet(h, t)
  {
    var k :| 0 <= k < |t.waits| && t.waits[k].sem == sem && t.waits[k].value >= v;
    assert !Met(h, t.waits[k]);
  }

  lemma PointNotMet(h: Hal, t: Task, p: Point)
    requires Guarded(t, p.sem, p.value) && !Met(h, p)
    ensures !WaitsMet(h, t)
  {
    var k :| 0 <= k < |t.waits| && t.waits[k].sem == p.sem && t.waits[k].value >= p.value;
    assert !Met(h, t.waits[k]);
  }

  lemma {:induction false} StaysParked(m: Machine, n: Machine, t: Task, rest: seq<Action>, s: nat, v: nat)
    requires Parked(m, n, t, s, v) && AllForeign(rest, m.streams[s].sem) && Exec(n, rest).Some?
    ensures Exec(m, rest).Some? && Exec(m, rest).value.streams == m.streams
    ensures Parked(Exec(m, rest).value, Exec(n, rest).value, t, s, v)
    decreases |rest|
  {
    if rest != [] {
      var k := |rest| - 1;
      StaysParked(m, n, t, rest[..k], s, v);
      ParkedStep(Exec(m, rest[..k]).value, Exec(n, rest[..k]).value, t, rest[k], s, v);
    }
  }

  /** Order without a submission that never starts is order with it. */
  lemma StillInOrder(m: Machine, n: Machine, t: Task, s: nat)
    requires Chained(m, s) && Extends(m, n, [t]) && !Begun(t)
    ensures InOrder(n, s)
  {
    ChainedInOrder(m, s);
    forall i: nat, j: nat | Earlier(n, s, i, j) && Begun(n.hal.tasks[j])
      ensures n.hal.tasks[i].finished
    {
      assert j < |m.hal.tasks| && Earlier(m, s, i, j);
    }
  }

  lemma BlockedBelow(m: Machine, s: nat, v: nat)
    requires Chained(m, s) && Blocked(m, s, v)
    ensures m.hal.sems[m.streams[s].sem] < v
  {
    BlockedIsHeldBack(m, s, v, Point(0, 0));
    HeldBackBelow(m, s, v, Point(0, 0));
  }
}
