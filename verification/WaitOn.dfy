/** hrx_stream_wait_on: its barrier waits on the given point only, not on the stream's own
    timepoint.  This module gives the exact condition under which order survives the call, for every
    point: of another semaphore or of the stream's own, reached or not. */
module WaitOn {
  import opened Wrappers
  import opened Timeline
  import opened Chain
  import opened Schedule

  /** What a caller can check before the call: nothing recorded, and the stream query says complete. */
  predicate CallIdle(m: Machine, s: nat) {
    s < |m.streams| && !HasPending(m.streams[s]) && Idle(m, s)
  }

  /** The point is on the stream's own semaphore, and the stream's unfinished work comes before it:
      it is the timepoint or later, or an earlier `wait_on` already waits for its own future. */
  ghost predicate Behind(m: Machine, s: nat, p: Point) {
    s < |m.streams| && p.sem == m.streams[s].sem && (p.value >= m.streams[s].timepoint || Blocked(m, s, p.value))
  }

  // --- order is lost ---

  /** Unless the point lies behind the unfinished work, it can be reached while work is unfinished. */
  lemma ReachEarly(m: Machine, s: nat, p: Point) returns (rest: seq<Action>)
    requires WellFormed(m) && Chained(m, s) && IsOpen(m, s) && p.sem < |m.hal.sems| && !Idle(m, s) && !Behind(m, s, p)
    ensures AllForeign(rest, m.streams[s].sem) && Exec(m, rest).Some?
    ensures var o := Exec(m, rest).value;
            WellFormed(o) && Chained(o, s) && o.streams == m.streams && Met(o.hal, p) && !Idle(o, s)
  {
    rest := [];
    if p.sem != m.streams[s].sem {
      rest := [Signal(p)];
      ExecCons(m, Signal(p), []);
      assert [Signal(p)] + [] == rest;
      ForeignKeepsChain(m, rest, s);
    } else if !Met(m.hal, p) {
      rest := DriveTo(m, s, p.value);
    }
  }

  /** From a stream that is not idle, a barrier on any point that is not behind its work can signal
      past that work: order is lost and a wait on the stream returns too early. */
  lemma BarrierOvertakes(m: Machine, s: nat, p: Point) returns (rest: seq<Action>)
    requires WellFormed(m) && Chained(m, s) && IsOpen(m, s) && !HasPending(m.streams[s])
    requires p.sem < |m.hal.sems| && !Idle(m, s) && !Behind(m, s, p)
    ensures AllForeign(rest, m.streams[s].sem) && Exec(m, [Action.WaitOn(s, p)] + rest).Some?
    ensures var o := Exec(m, [Action.WaitOn(s, p)] + rest).value; !InOrder(o, s) && Reached(o, s)
  {
    var a, b := Action.WaitOn(s, p), |m.hal.tasks|;
    var n := Next(m, a);
    var t := n.hal.tasks[b];
    var early := ReachEarly(m, s, p);
    Lift(m, n, [t], early, m.streams[s].sem);
    var o, o' := Exec(m, early).value, Exec(n, early).value;
    assert o'.hal.tasks[|o.hal.tasks|] == t;
    ForeignCount(m, early, m.streams[s].sem);
    assert CanFinish(o'.hal, b);
    rest := early + [Finish(b)];
    ExecSnoc(n, early, Finish(b));
    ExecCons(m, a, rest);
    LeftBehind(o, s, Next(o', Finish(b)));
  }

  lemma LeftBehind(m: Machine, s: nat, last: Machine)
    requires Chained(m, s) && IsOpen(m, s) && !Idle(m, s)
    requires |m.hal.tasks| < |last.hal.tasks| && last.hal.tasks[..|m.hal.tasks|] == m.hal.tasks
    requires last.hal.tasks[|m.hal.tasks|].owner == s && last.hal.tasks[|m.hal.tasks|].finished
    ensures !InOrder(last, s)
  {
    var sem, tp, b := m.streams[s].sem, m.streams[s].timepoint, |m.hal.tasks|;
    var i := RankExists(m.hal.tasks, b, s, tp);
    assert Link(m.hal.tasks[i], tp, sem, m.hal.sems[sem]);
    assert last.hal.tasks[i] == last.hal.tasks[..b][i];
    assert Earlier(last, s, i, b) && Begun(last.hal.tasks[b]);
  }

  // --- order survives ---

  /** From an idle stream, order survives the call whatever happens next and whatever is awaited. */
  lemma IdleKeepsOrder(m: Machine, s: nat, p: Point, rest: seq<Action>)
    requires WellFormed(m) && Chained(m, s) && CallIdle(m, s) && IsOpen(m, s) && p.sem < |m.hal.sems|
    requires AllForeign(rest, m.streams[s].sem) && Exec(m, [Action.WaitOn(s, p)] + rest).Some?
    ensures InOrder(Exec(m, [Action.WaitOn(s, p)] + rest).value, s)
  {
    ChainedKeepsOrder(m, s, p, rest);
  }

  lemma ChainedKeepsOrder(m: Machine, s: nat, p: Point, rest: seq<Action>)
    requires WellFormed(m) && Chained(m, s) && Enabled(m, Action.WaitOn(s, p)) && Orderly(m, Action.WaitOn(s, p), s)
    requires AllForeign(rest, m.streams[s].sem) && Exec(m, [Action.WaitOn(s, p)] + rest).Some?
    ensures InOrder(Exec(m, [Action.WaitOn(s, p)] + rest).value, s)
  {
    var a := Action.WaitOn(s, p);
    StepWellFormed(m, a);
    StepKeepsChain(m, a, s);
    ExecCons(m, a, rest);
    ForeignKeepsChain(Next(m, a), rest, s);
    ChainedInOrder(Exec(Next(m, a), rest).value, s);
  }

  /** A barrier on a point behind the unfinished work waits for it, or never starts. */
  lemma BehindKeepsOrder(m: Machine, s: nat, p: Point, rest: seq<Action>)
    requires WellFormed(m) && Chained(m, s) && IsOpen(m, s) && !HasPending(m.streams[s]) && Behind(m, s, p)
    requires AllForeign(rest, m.streams[s].sem) && Exec(m, [Action.WaitOn(s, p)] + rest).Some?
    ensures InOrder(Exec(m, [Action.WaitOn(s, p)] + rest).value, s)
  {
    var a, b := Action.WaitOn(s, p), |m.hal.tasks|;
    if p.value >= m.streams[s].timepoint {
      ChainedKeepsOrder(m, s, p, rest);
    } else {
      var n := Next(m, a);
      var t := n.hal.tasks[b];
      assert t.waits[0] == p && Parked(m, n, t, s, p.value);
      ExecCons(m, a, rest);
      StaysParked(m, n, t, rest, s, p.value);
      StillInOrder(Exec(m, rest).value, Exec(n, rest).value, t, s);
    }
  }

  // --- the exact condition ---

  /** Whatever the device does and others signal after the call, the stream's submissions stay in order. */
  ghost predicate OrderSurvives(m: Machine, s: nat, f: FlushOutcome, p: Point)
    requires s < |m.streams|
  {
    forall rest :: AllForeign(rest, m.streams[s].sem) && Exec(m, [Flush(s, f)] + ([Action.WaitOn(s, p)] + rest)).Some? ==>
                     InOrder(Exec(m, [Flush(s, f)] + ([Action.WaitOn(s, p)] + rest)).value, s)
  }

  /** Exact condition, for every point: order survives the call if and only if the stream was idle when
      it was made, or the point is on its own semaphore behind the work left after the flush. */
  lemma WaitOnExact(m: Machine, s: nat, f: FlushOutcome, p: Point)
    requires WellFormed(m) && Chained(m, s) && IsOpen(m, s) && p.sem < |m.hal.sems|
    requires FlushFits(m.streams[s], f) && FlushOk(f)
    ensures OrderSurvives(m, s, f, p) <==> CallIdle(m, s) || Behind(Next(m, Flush(s, f)), s, p)
  {
    var n, a := Next(m, Flush(s, f)), Action.WaitOn(s, p);
    StepWellFormed(m, Flush(s, f));
    StepKeepsChain(m, Flush(s, f), s);
    assert CallIdle(m, s) <==> Idle(n, s);
    if CallIdle(m, s) || Behind(n, s, p) {
      forall rest | AllForeign(rest, m.streams[s].sem) && Exec(m, [Flush(s, f)] + ([a] + rest)).Some?
        ensures InOrder(Exec(m, [Flush(s, f)] + ([a] + rest)).value, s)
      {
        ExecCons(m, Flush(s, f), [a] + rest);
        if Idle(n, s) {
          IdleKeepsOrder(n, s, p, rest);
        } else {
          BehindKeepsOrder(n, s, p, rest);
        }
      }
    } else {
      var rest := BarrierOvertakes(n, s, p);
      ExecCons(m, Flush(s, f), [a] + rest);
    }
  }

  /** For a point of another semaphore, reached or not, the condition is that the stream was idle. */
  lemma WaitOnForeignExact(m: Machine, s: nat, f: FlushOutcome, p: Point)
    requires WellFormed(m) && Chained(m, s) && IsOpen(m, s) && p.sem < |m.hal.sems| && p.sem != m.streams[s].sem
    requires FlushFits(m.streams[s], f) && FlushOk(f)
    ensures OrderSurvives(m, s, f, p) <==> CallIdle(m, s)
  {
    WaitOnExact(m, s, f, p);
  }
}
