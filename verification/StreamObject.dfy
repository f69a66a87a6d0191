/** The stream object of stream.rs, updated in place, against a HAL device object.

    The three cells of the source (`timepoint`, `pendingCb`, `hasPendingWork`) are fields.  Every
    method is proved equal to the step of the timeline machine that it performs, and to leave the
    command buffers of other streams alone.  `Host` runs any calls on any number of stream objects and
    is proved equal to a run of the machine, so the theorems about runs speak about these bodies.
    HAL statuses are parameters. */
module StreamObject {
  import opened Wrappers
  import opened Timeline

  /** The device makes any of the proposed steps that are possible when their turn comes. */
  function Progress(h: Hal, steps: seq<Action>): Hal {
    if steps == [] then h else Advanced(Progress(h, steps[..|steps| - 1]), steps[|steps| - 1])
  }

  function Advanced(h: Hal, a: Action): Hal {
    match a
    case Run(t, j) => if CanRun(h, t, j) then DoRun(h, t, j) else h
    case Finish(t) => if CanFinish(h, t) then DoFinish(h, t) else h
    case _ => h
  }

  predicate CanStep(h: Hal, a: Action) {
    match a
    case Run(t, j) => CanRun(h, t, j)
    case Finish(t) => CanFinish(h, t)
    case _ => false
  }

  /** The proposed steps that the device makes. */
  function Taken(h: Hal, steps: seq<Action>): seq<Action> {
    if steps == [] then []
    else
      var before, a := steps[..|steps| - 1], steps[|steps| - 1];
      Taken(h, before) + if CanStep(Progress(h, before), a) then [a] else []
  }

  /** A whole allocation: flush, submit, wait while the device takes `steps`.  The timepoint moves only if
      the wait succeeded; a wait that is not `healthy` fails although the device made progress. */
  function Allocated(s: Stream, h: Hal, op: Op, f: FlushOutcome, submitted: bool, steps: seq<Action>, healthy: bool): ((Stream, Hal), bool) {
    var flushed := FlushInner(s, h, f);
    if !FlushOk(f) || !submitted then (flushed, false)
    else
      var begun := AllocStart(flushed.0, flushed.1, op);
      var h' := Progress(begun.1, steps);
      var ok := healthy && Met(h', Point(s.sem, flushed.0.timepoint + 1));
      ((AllocFinish(begun.0, ok), h'), ok)
  }

  lemma {:induction false} TakenIsDevice(h: Hal, steps: seq<Action>)
    ensures forall k :: 0 <= k < |Taken(h, steps)| ==> IsDevice(Taken(h, steps)[k])
    decreases |steps|
  {
    if steps != [] {
      TakenIsDevice(h, steps[..|steps| - 1]);
    }
  }

  lemma AdvancedIsStep(m: Machine, a: Action)
    ensures CanStep(m.hal, a) <==> IsDevice(a) && Enabled(m, a)
    ensures if CanStep(m.hal, a) then Next(m, a) == m.(hal := Advanced(m.hal, a)) else Advanced(m.hal, a) == m.hal
  {
  }

  /** It makes every proposed step that is possible in its turn, and no other. */
  lemma ProgressNext(m: Machine, steps: seq<Action>, a: Action)
    ensures var n := m.(hal := Progress(m.hal, steps));
            && Progress(m.hal, steps + [a]) == (if IsDevice(a) && Enabled(n, a) then Next(n, a).hal else n.hal)
            && Taken(m.hal, steps + [a]) == Taken(m.hal, steps) + (if IsDevice(a) && Enabled(n, a) then [a] else [])
  {
    assert (steps + [a])[..|steps|] == steps;
    AdvancedIsStep(m.(hal := Progress(m.hal, steps)), a);
  }

  /** What the device does during a blocking wait is a run of device steps of the machine. */
  lemma {:induction false} ProgressIsRun(m: Machine, steps: seq<Action>)
    ensures forall k :: 0 <= k < |Taken(m.hal, steps)| ==> IsDevice(Taken(m.hal, steps)[k])
    ensures Exec(m, Taken(m.hal, steps)) == Some(m.(hal := Progress(m.hal, steps)))
    decreases |steps|
  {
    TakenIsDevice(m.hal, steps);
    if steps != [] {
      var before, a := steps[..|steps| - 1], steps[|steps| - 1];
      var run, n := Taken(m.hal, before), m.(hal := Progress(m.hal, before));
      ProgressIsRun(m, before);
      AdvancedIsStep(n, a);
      if CanStep(n.hal, a) {
        ExecSnoc(m, run, a);
      } else {
        assert Taken(m.hal, steps) == run;
      }
    }
  }

  class HalDevice {
    var sems: seq<nat>
    var tasks: seq<Task>
    var log: seq<Executed>
    var created: nat
    var released: seq<nat>
    /** The command buffers that are alive, with what was recorded in them. */
    var cbs: map<nat, seq<Cmd>>

    constructor ()
      ensures Model() == START.hal && Valid() && cbs == map[]
    {
      sems, tasks, log, created, released, cbs := [], [], [], 0, [], map[];
    }

    ghost predicate Valid()
      reads this
    {
      forall id :: id in cbs ==> id < created
    }

    function Model(): Hal
      reads this
    {
      Hal(sems, tasks, log, created, released)
    }

    /** Command buffers other than `own` are as they were. */
    ghost predicate Kept(before: map<nat, seq<Cmd>>, own: Option<nat>)
      reads this
    {
      forall id :: id in before && own != Some(id) ==> id in cbs && cbs[id] == before[id]
    }

    method CreateCommandBuffer(ok: bool) returns (cb: Option<nat>)
      requires Valid()
      modifies this
      ensures Valid()
      ensures cb == if ok then Some(old(created)) else None
      ensures Model() == old(Model()).(created := old(created) + if ok then 1 else 0)
      ensures cbs == if ok then old(cbs)[old(created) := []] else old(cbs)
      ensures ok ==> old(created) !in old(cbs)
    {
      cb := None;
      if ok {
        cb := Some(created);
        cbs := cbs[created := []];
        created := created + 1;
      }
    }

    /** Records one command.  The command buffer must be alive. */
    method RecordCommand(cb: nat, c: Cmd, ok: bool)
      requires Valid() && cb in cbs
      modifies this`cbs
      ensures Valid()
      ensures cbs == if ok then old(cbs)[cb := old(cbs)[cb] + [c]] else old(cbs)
    {
      if ok {
        cbs := cbs[cb := cbs[cb] + [c]];
      }
    }

    /** Drops the caller's reference.  The command buffer must be alive, and is not afterwards. */
    method ReleaseCommandBuffer(cb: nat)
      requires Valid() && cb in cbs
      modifies this`cbs, this`released
      ensures Valid()
      ensures cbs == old(cbs) - {cb} && released == old(released) + [cb]
    {
      cbs := cbs - {cb};
      released := released + [cb];
    }

    /** queue_execute, queue_barrier and queue_alloca: one submission, or nothing on failure. */
    method Queue(owner: nat, waits: seq<Point>, signal: Point, cmds: seq<Cmd>, ok: bool)
      modifies this`tasks
      ensures tasks == if ok then old(tasks) + [Task(owner, waits, signal, cmds, [], false)] else old(tasks)
    {
      if ok {
        tasks := tasks + [Task(owner, waits, signal, cmds, [], false)];
      }
    }

    method CreateSemaphore(initial: nat) returns (sem: nat)
      modifies this`sems
      ensures sem == |old(sems)| && sems == old(sems) + [initial]
    {
      sem := |sems|;
      sems := sems + [initial];
    }

    /** hrx_semaphore_signal, by anyone. */
    method Signal(p: Point)
      requires p.sem < |sems|
      modifies this`sems
      ensures sems == Raise(old(sems), p)
    {
      if sems[p.sem] < p.value {
        sems := sems[p.sem := p.value];
      }
    }

    /** The device works on its own. */
    method Step(a: Action)
      modifies this`sems, this`tasks, this`log
      ensures Model() == Advanced(old(Model()), a)
    {
      var h := Advanced(Model(), a);
      sems, tasks, log := h.sems, h.tasks, h.log;
    }

    /** A blocking wait during which the device takes `steps`.  It may fail although the value was reached. */
    method SemaphoreWait(p: Point, steps: seq<Action>, healthy: bool) returns (ok: bool)
      requires Valid()
      modifies this`sems, this`tasks, this`log
      ensures Model() == Progress(old(Model()), steps)
      ensures ok == (healthy && Met(Model(), p))
    {
      var i := 0;
      assert steps[..0] == [];
      while i < |steps|
        invariant 0 <= i <= |steps|
        invariant Model() == Progress(old(Model()), steps[..i])
      {
        assert steps[..i + 1][..i] == steps[..i];
        Step(steps[i]);
        i := i + 1;
      }
      assert steps[..i] == steps;
      ok := healthy && Met(Model(), p);
    }
  }

  class HrxStream {
    const id: nat
    const sem: nat
    const device: HalDevice
    var timepoint: nat
    var pendingCb: Option<nat>
    var hasPendingWork: bool
    var dropped: bool

    constructor (id: nat, sem: nat, device: HalDevice)
      ensures this.id == id && this.sem == sem && this.device == device
      ensures Valid() <==> device.Valid()
      ensures Model() == Stream(id, sem, 0, None, false, Open)
    {
      this.id, this.sem, this.device := id, sem, device;
      timepoint, pendingCb, hasPendingWork, dropped := 0, None, false, false;
    }

    ghost predicate Valid()
      reads this, device
    {
      device.Valid() && (pendingCb.Some? ==> pendingCb.value in device.cbs)
    }

    /** The stream as the machine sees it. */
    function Model(): Stream
      reads this, device
    {
      View(device.cbs)
    }

    /** The same, given what the live command buffers hold. */
    function View(cbs: map<nat, seq<Cmd>>): Stream
      reads this
    {
      Stream(id, sem, timepoint,
             if pendingCb.Some? && pendingCb.value in cbs then Some(CommandBuffer(pendingCb.value, cbs[pendingCb.value])) else None,
             hasPendingWork, if dropped then Closed else Open)
    }

    /** The call touched no command buffer but the stream's own, which is the one it had or a new one. */
    ghost predicate Framed(own: Option<nat>, before: map<nat, seq<Cmd>>, created: nat)
      reads this, device
    {
      && device.Kept(before, own) && created <= device.created
      && (pendingCb.Some? ==> pendingCb == own || (created <= pendingCb.value && pendingCb.value !in before))
    }

    /** Both halves of the state a call changes. */
    function Both(): (Stream, Hal)
      reads this, device
    {
      (Model(), device.Model())
    }

    /** The wait list of a submission made at timepoint `tp`. */
    function Before(tp: nat): seq<Point> {
      if tp == 0 then [] else [Point(sem, tp)]
    }

    /** What was recorded since the last submission. */
    function Commands(): seq<Cmd>
      reads this, device
    {
      if pendingCb.Some? && pendingCb.value in device.cbs then device.cbs[pendingCb.value] else []
    }

    method BeginCb(r: RecordOutcome) returns (ok: bool)
      requires Valid() && !dropped && RecordFits(Model(), r)
      modifies this`pendingCb, device
      ensures Valid() && ok == pendingCb.Some?
      ensures Both() == Timeline.BeginCb(old(Model()), old(device.Model()), r)
      ensures ok <==> !r.CreateFailed? && !r.BeginFailed?
      ensures Framed(old(pendingCb), old(device.cbs), old(device.created))
    {
      if pendingCb.Some? {
        return true;
      }
      var cb := device.CreateCommandBuffer(!r.CreateFailed?);
      if cb.None? {
        return false;
      }
      if r.BeginFailed? {
        device.ReleaseCommandBuffer(cb.value);
        pendingCb := None;
        return false;
      }
      pendingCb := cb;
      return true;
    }

    /** hrx_stream_fill_buffer, copy_buffer, update_buffer and dispatch after argument checks. */
    method Record(op: Op, r: RecordOutcome) returns (ok: bool)
      requires Valid() && !dropped && RecordFits(Model(), r)
      modifies this, device
      ensures Valid() && ok == r.Recorded?
      ensures Both() == RecordOp(old(Model()), old(device.Model()), op, r)
      ensures Commands() == old(Commands()) + match r
                                              case Recorded => [Do(op), Fence]
                                              case FenceFailed => [Do(op)]
                                              case _ => []
      ensures hasPendingWork == (old(hasPendingWork) || ok) && timepoint == old(timepoint) && device.tasks == old(device.tasks)
      ensures Framed(old(pendingCb), old(device.cbs), old(device.created))
    {
      ok := BeginCb(r);
      if !ok {
        return false;
      }
      device.RecordCommand(pendingCb.value, Do(op), !r.RecordFailed?);
      if r.RecordFailed? {
        return false;
      }
      device.RecordCommand(pendingCb.value, Fence, !r.FenceFailed?);
      if r.FenceFailed? {
        return false;
      }
      hasPendingWork := true;
      assert forall cmds: seq<Cmd> :: cmds + [Do(op)] + [Fence] == cmds + [Do(op), Fence];
      return true;
    }

    method ExecutionBarrier(r: RecordOutcome) returns (ok: bool)
      requires Valid() && !dropped && RecordFits(Model(), r) && !r.FenceFailed?
      modifies this, device
      ensures Valid() && ok == r.Recorded?
      ensures Both() == RecordFence(old(Model()), old(device.Model()), r)
      ensures Commands() == old(Commands()) + if ok then [Fence] else []
      ensures hasPendingWork == (old(hasPendingWork) || ok) && timepoint == old(timepoint) && device.tasks == old(device.tasks)
      ensures Framed(old(pendingCb), old(device.cbs), old(device.created))
    {
      ok := BeginCb(r);
      if !ok {
        return false;
      }
      device.RecordCommand(pendingCb.value, Fence, r.Recorded?);
      if !r.Recorded? {
        return false;
      }
      hasPendingWork := true;
      return true;
    }

    method FlushInner(f: FlushOutcome) returns (ok: bool)
      requires Valid() && !dropped && FlushFits(Model(), f)
      modifies this, device
      ensures Valid() && ok == FlushOk(f)
      ensures Both() == Timeline.FlushInner(old(Model()), old(device.Model()), f)
      ensures ok <==> !old(hasPendingWork && pendingCb.Some?) || f.Submitted?
      ensures !old(hasPendingWork && pendingCb.Some?) || !ok ==> Both() == old(Both())
      ensures old(hasPendingWork && pendingCb.Some?) && ok ==>
                && timepoint == old(timepoint) + 1 && pendingCb.None? && !hasPendingWork
                && device.released == old(device.released) + [old(pendingCb).value]
                && device.tasks == old(device.tasks) + [Task(id, Before(old(timepoint)), Point(sem, timepoint), old(Commands()), [], false)]
      ensures Framed(old(pendingCb), old(device.cbs), old(device.created))
    {
      if !hasPendingWork || pendingCb.None? {
        return true;
      }
      var cb := pendingCb.value;
      if f.EndFailed? {
        return false;
      }
      var tp := timepoint;
      var waitList := if tp > 0 then [Point(sem, tp)] else [];
      device.Queue(id, waitList, Point(sem, tp + 1), device.cbs[cb], f.Submitted?);
      if !f.Submitted? {
        return false;
      }
      timepoint := tp + 1;
      device.ReleaseCommandBuffer(cb);
      pendingCb := None;
      hasPendingWork := false;
      return true;
    }

    /** hrx_stream_wait_on. */
    method WaitOn(p: Point, f: FlushOutcome, submitted: bool) returns (ok: bool)
      requires Valid() && !dropped && FlushFits(Model(), f)
      modifies this, device
      ensures Valid() && ok == (FlushOk(f) && submitted)
      ensures var flushed := Timeline.FlushInner(old(Model()), old(device.Model()), f);
              Both() == if ok then WaitOnPoint(flushed.0, flushed.1, p) else flushed
      ensures ok <==> (!old(hasPendingWork && pendingCb.Some?) || f.Submitted?) && submitted
      ensures ok ==> && timepoint == old(timepoint) + (if old(hasPendingWork && pendingCb.Some?) then 2 else 1)
                     && |device.tasks| == |old(device.tasks)| + (if old(hasPendingWork && pendingCb.Some?) then 2 else 1)
                     && device.tasks[|device.tasks| - 1] == Task(id, [p], Point(sem, timepoint), [], [], false)
      ensures Framed(old(pendingCb), old(device.cbs), old(device.created))
    {
      ok := FlushInner(f);
      if !ok {
        return false;
      }
      device.Queue(id, [p], Point(sem, timepoint + 1), [], submitted);
      if !submitted {
        return false;
      }
      timepoint := timepoint + 1;
      return true;
    }

    method AdvanceTimeline() returns (value: nat)
      requires Valid() && !dropped
      modifies this`timepoint
      ensures Valid() && value == timepoint == old(timepoint) + 1
      ensures Model() == old(Model()).(timepoint := old(timepoint) + 1)
    {
      timepoint := timepoint + 1;
      value := timepoint;
    }

    /** hrx_stream_query: whether a wait would return at once. */
    method Query() returns (complete: bool)
      ensures complete <==> timepoint == 0 || (sem < |device.sems| && timepoint <= device.sems[sem])
    {
      if timepoint == 0 {
        return true;
      }
      complete := Met(device.Model(), Point(sem, timepoint));
    }

    /** hrx_stream_wait: blocks until the timepoint is reached unless nothing was ever submitted. */
    method Wait(steps: seq<Action>, healthy: bool) returns (ok: bool)
      requires Valid() && !dropped
      modifies device
      ensures Valid() && Model() == old(Model())
      ensures device.Model() == if timepoint > 0 then Progress(old(device.Model()), steps) else old(device.Model())
      ensures ok <==> timepoint == 0 || (healthy && sem < |device.sems| && timepoint <= device.sems[sem])
      ensures device.cbs == old(device.cbs) && device.created == old(device.created)
      ensures Framed(old(pendingCb), old(device.cbs), old(device.created))
    {
      if timepoint == 0 {
        return true;
      }
      ok := device.SemaphoreWait(Point(sem, timepoint), steps, healthy);
    }

    /** hrx_stream_synchronize: flush, then wait. */
    method Synchronize(f: FlushOutcome, steps: seq<Action>, healthy: bool) returns (ok: bool)
      requires Valid() && !dropped && FlushFits(Model(), f)
      modifies this, device
      ensures Valid()
      ensures var flushed := Timeline.FlushInner(old(Model()), old(device.Model()), f);
              && Model() == flushed.0
              && device.Model() == if FlushOk(f) && timepoint > 0 then Progress(flushed.1, steps) else flushed.1
      ensures timepoint == old(timepoint) + if old(hasPendingWork && pendingCb.Some?) && f.Submitted? then 1 else 0
      ensures ok <==> && (!old(hasPendingWork && pendingCb.Some?) || f.Submitted?)
                      && (timepoint == 0 || (healthy && sem < |device.sems| && timepoint <= device.sems[sem]))
      ensures ok ==> !(hasPendingWork && pendingCb.Some?)
      ensures Framed(old(pendingCb), old(device.cbs), old(device.created))
    {
      ok := FlushInner(f);
      if !ok {
        return false;
      }
      ok := Wait(steps, healthy);
    }

    /** hrx_buffer_allocate from its flush on; the timepoint moves only after the wait succeeded. */
    method Allocate(op: Op, f: FlushOutcome, submitted: bool, steps: seq<Action>, healthy: bool) returns (ok: bool)
      requires Valid() && !dropped && FlushFits(Model(), f)
      modifies this, device
      ensures Valid() && (ok ==> FlushOk(f) && submitted)
      ensures (Both(), ok) == Allocated(old(Model()), old(device.Model()), op, f, submitted, steps, healthy)
      ensures var tp := old(timepoint) + if old(hasPendingWork && pendingCb.Some?) && f.Submitted? then 1 else 0;
              && (ok <==> && (!old(hasPendingWork && pendingCb.Some?) || f.Submitted?)
                          && submitted && healthy && sem < |device.sems| && tp + 1 <= device.sems[sem])
              && timepoint == if ok then tp + 1 else tp
      ensures Framed(old(pendingCb), old(device.cbs), old(device.created))
    {
      ok := FlushInner(f);
      if !ok {
        return false;
      }
      var tp := timepoint;
      var waitList := if tp > 0 then [Point(sem, tp)] else [];
      device.Queue(id, waitList, Point(sem, tp + 1), [Do(op)], submitted);
      if !submitted {
        return false;
      }
      ok := device.SemaphoreWait(Point(sem, tp + 1), steps, healthy);
      if !ok {
        return false;
      }
      timepoint := tp + 1;
      return true;
    }

    /** The last release: flush what is pending, wait for the timeline, release a leftover command
        buffer.  Statuses are dropped: `reached` says only whether the timeline was. */
    method Drop(f: FlushOutcome, steps: seq<Action>, healthy: bool) returns (reached: bool)
      requires Valid() && !dropped && FlushFits(Model(), f)
      modifies this, device
      ensures Valid() && pendingCb.None? && dropped
      ensures timepoint == old(timepoint) + if old(hasPendingWork && pendingCb.Some?) && f.Submitted? then 1 else 0
      ensures reached <==> timepoint == 0 || (healthy && sem < |device.sems| && timepoint <= device.sems[sem])
      ensures var flushed := Timeline.FlushInner(old(Model()), old(device.Model()), f);
              var waited := if flushed.0.timepoint > 0 then Progress(flushed.1, steps) else flushed.1;
              Both() == DropStream(flushed.0, waited)
      ensures Framed(old(pendingCb), old(device.cbs), old(device.created))
    {
      if hasPendingWork {
        var _ := FlushInner(f);
      }
      reached := true;
      if timepoint > 0 {
        reached := device.SemaphoreWait(Point(sem, timepoint), steps, healthy);
      }
      if pendingCb.Some? {
        device.ReleaseCommandBuffer(pendingCb.value);
        pendingCb := None;
      }
      dropped := true;
    }
  }
}
