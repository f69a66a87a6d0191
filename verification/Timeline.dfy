/** Streams, timeline semaphores and the asynchronous device queue as one state machine.

    Host calls and device steps interleave freely.  Every status a HAL call may return is part of
    the action, so one run is one sequence of actions.  The device is an unordered set of
    submissions: any submission whose waits are met may run any command that no earlier fence of
    the same command buffer holds back, and may raise its semaphore once all its commands ran.
 */
module Timeline {
  import opened Wrappers

  /** What the recording calls hand to the HAL. */
  datatype Op =
    | Fill(buffer: nat, offset: nat, size: nat, pattern: seq<bv8>)
    | Copy(src: nat, srcOffset: nat, dst: nat, dstOffset: nat, length: nat)
    | Update(data: seq<bv8>, target: nat, targetOffset: nat)
    | Dispatch(executable: nat, ordinal: nat, constants: seq<bv8>, bindings: seq<(nat, nat, nat)>)
    | Alloca(bytes: nat)

  /** A command buffer is a list of operations and full execution barriers. */
  datatype Cmd = Do(op: Op) | Fence

  datatype CommandBuffer = CommandBuffer(id: nat, cmds: seq<Cmd>)

  datatype Point = Point(sem: nat, value: nat)

  /** A queue submission, the commands it ran so far (`order`), and whether it signalled. */
  datatype Task = Task(owner: nat, waits: seq<Point>, signal: Point, cmds: seq<Cmd>, order: seq<nat>, finished: bool)

  datatype Executed = Executed(owner: nat, op: Op)

  /** Everything behind the HAL: semaphore payloads, submissions, the operations executed so far,
      and the command-buffer ledger (ids below `created` were created, `released` lists releases). */
  datatype Hal = Hal(sems: seq<nat>, tasks: seq<Task>, log: seq<Executed>, created: nat, released: seq<nat>)

  /** `Allocating` is the blocking wait inside hrx_buffer_allocate. */
  datatype Phase = Open | Allocating | Closed

  datatype Stream = Stream(id: nat, sem: nat, timepoint: nat, pending: Option<CommandBuffer>, hasWork: bool, phase: Phase)

  datatype Machine = Machine(streams: seq<Stream>, hal: Hal)

  datatype RecordOutcome = CreateFailed | BeginFailed | RecordFailed | FenceFailed | Recorded

  datatype FlushOutcome = NoWork | EndFailed | SubmitFailed | Submitted

  /** The steps of a run.  A public call that flushes first is a `Flush` followed by its own step:
      hrx_stream_wait_on is `Flush; WaitOn`, hrx_buffer_allocate is `Flush; AllocBegin; AllocEnd`,
      hrx_stream_synchronize is `Flush; Wait`, the last release is `Flush; Wait; Drop`.  Device steps
      may fall between them.  A submission that the HAL refuses changes nothing and has no step. */
  datatype Action =
    | CreateStream
    | CreateSemaphore(initial: nat)
    | Record(s: nat, op: Op, r: RecordOutcome)
    | Barrier(s: nat, r: RecordOutcome)
    | Flush(s: nat, f: FlushOutcome)
    | Wait(s: nat)
    | WaitOn(s: nat, p: Point)
    | Advance(s: nat)
    | AllocBegin(s: nat, op: Op)
    | AllocEnd(s: nat, waited: bool)
    | Drop(s: nat)
    | Signal(p: Point)
    | Run(t: nat, j: nat)
    | Finish(t: nat)

  // --- one stream against the HAL ---

  predicate HasPending(s: Stream) {
    s.hasWork && s.pending.Some?
  }

  /** The outcomes a recording call can meet: an installed command buffer is not created again. */
  predicate RecordFits(s: Stream, r: RecordOutcome) {
    s.pending.Some? ==> !r.CreateFailed? && !r.BeginFailed?
  }

  predicate FlushFits(s: Stream, f: FlushOutcome) {
    f.NoWork? <==> !HasPending(s)
  }

  predicate FlushOk(f: FlushOutcome) {
    f.NoWork? || f.Submitted?
  }

  function BeginCb(s: Stream, h: Hal, r: RecordOutcome): (Stream, Hal) {
    if s.pending.Some? || r.CreateFailed? then (s, h)
    else if r.BeginFailed? then (s, h.(created := h.created + 1, released := h.released + [h.created]))
    else (s.(pending := Some(CommandBuffer(h.created, []))), h.(created := h.created + 1))
  }

  function Append(s: Stream, cmds: seq<Cmd>): Stream {
    match s.pending
    case None => s
    case Some(cb) => s.(pending := Some(cb.(cmds := cb.cmds + cmds)))
  }

  /** fill, copy, update and dispatch: begin, record the operation, record the ordering barrier. */
  function RecordOp(s: Stream, h: Hal, op: Op, r: RecordOutcome): (Stream, Hal) {
    var (s', h') := BeginCb(s, h, r);
    match r
    case FenceFailed => (Append(s', [Do(op)]), h')
    case Recorded => (Append(s', [Do(op), Fence]).(hasWork := true), h')
    case _ => (s', h')
  }

  /** hrx_stream_execution_barrier: the recorded command is the fence itself. */
  function RecordFence(s: Stream, h: Hal, r: RecordOutcome): (Stream, Hal) {
    var (s', h') := BeginCb(s, h, r);
    match r
    case Recorded => (Append(s', [Fence]).(hasWork := true), h')
    case _ => (s', h')
  }

  /** The wait list of a chained submission is empty at timepoint 0. */
  function OwnWait(s: Stream): seq<Point> {
    if s.timepoint > 0 then [Point(s.sem, s.timepoint)] else []
  }

  function Submit(s: Stream, h: Hal, waits: seq<Point>, cmds: seq<Cmd>): Hal {
    h.(tasks := h.tasks + [Task(s.id, waits, Point(s.sem, s.timepoint + 1), cmds, [], false)])
  }

  function FlushInner(s: Stream, h: Hal, f: FlushOutcome): (Stream, Hal) {
    if !HasPending(s) || !f.Submitted? then (s, h)
    else
      var h' := Submit(s, h, OwnWait(s), s.pending.value.cmds);
      (s.(timepoint := s.timepoint + 1, pending := None, hasWork := false),
       h'.(released := h.released + [s.pending.value.id]))
  }

  /** hrx_stream_wait_on after its flush: a barrier that waits on the given point only. */
  function WaitOnPoint(s: Stream, h: Hal, p: Point): (Stream, Hal) {
    (s.(timepoint := s.timepoint + 1), Submit(s, h, [p], []))
  }

  /** hrx_buffer_allocate after its flush, up to its blocking wait. */
  function AllocStart(s: Stream, h: Hal, op: Op): (Stream, Hal) {
    (s.(phase := Allocating), Submit(s, h, OwnWait(s), [Do(op)]))
  }

  /** hrx_buffer_allocate after its wait: the timepoint moves only if the wait succeeded. */
  function AllocFinish(s: Stream, waited: bool): Stream {
    s.(timepoint := if waited then s.timepoint + 1 else s.timepoint, phase := Open)
  }

  /** The end of the last release: a command buffer that was never submitted is released. */
  function DropStream(s: Stream, h: Hal): (Stream, Hal) {
    (s.(pending := None, phase := Closed),
     if s.pending.Some? then h.(released := h.released + [s.pending.value.id]) else h)
  }

  // --- the device ---

  predicate Met(h: Hal, p: Point) {
    p.sem < |h.sems| && h.sems[p.sem] >= p.value
  }

  predicate WaitsMet(h: Hal, t: Task) {
    forall k :: 0 <= k < |t.waits| ==> Met(h, t.waits[k])
  }

  /** A command may run when the fences before it ran; a fence also waits for the operations. */
  predicate Ready(cmds: seq<Cmd>, order: seq<nat>, j: nat) {
    && j < |cmds| && j !in order
    && (forall i :: 0 <= i < j && (cmds[j].Fence? || cmds[i].Fence?) ==> i in order)
  }

  predicate AllRan(t: Task) {
    forall j :: 0 <= j < |t.cmds| ==> j in t.order
  }

  predicate CanRun(h: Hal, t: nat, j: nat) {
    t < |h.tasks| && !h.tasks[t].finished && WaitsMet(h, h.tasks[t]) && Ready(h.tasks[t].cmds, h.tasks[t].order, j)
  }

  predicate CanFinish(h: Hal, t: nat) {
    && t < |h.tasks| && !h.tasks[t].finished && WaitsMet(h, h.tasks[t]) && AllRan(h.tasks[t])
    && h.tasks[t].signal.sem < |h.sems|
  }

  function Raise(sems: seq<nat>, p: Point): (r: seq<nat>)
    requires p.sem < |sems|
    ensures |r| == |sems|
    ensures forall k :: 0 <= k < |r| ==> r[k] >= sems[k] && (k != p.sem ==> r[k] == sems[k])
    ensures r[p.sem] >= p.value
  {
    if sems[p.sem] < p.value then sems[p.sem := p.value] else sems
  }

  function DoRun(h: Hal, t: nat, j: nat): Hal
    requires CanRun(h, t, j)
  {
    var task := h.tasks[t];
    var h' := h.(tasks := h.tasks[t := task.(order := task.order + [j])]);
    match task.cmds[j]
    case Fence => h'
    case Do(op) => h'.(log := h.log + [Executed(task.owner, op)])
  }

  function DoFinish(h: Hal, t: nat): Hal
    requires CanFinish(h, t)
  {
    h.(tasks := h.tasks[t := h.tasks[t].(finished := true)], sems := Raise(h.sems, h.tasks[t].signal))
  }

  // --- the machine ---

  predicate IsOpen(m: Machine, s: nat) {
    s < |m.streams| && m.streams[s].phase.Open?
  }

  predicate Reached(m: Machine, s: nat) {
    s < |m.streams| && (m.streams[s].timepoint == 0 || Met(m.hal, Point(m.streams[s].sem, m.streams[s].timepoint)))
  }

  predicate Enabled(m: Machine, a: Action) {
    match a
    case CreateStream => true
    case CreateSemaphore(_) => true
    case Record(s, _, r) => IsOpen(m, s) && RecordFits(m.streams[s], r)
    case Barrier(s, r) => IsOpen(m, s) && RecordFits(m.streams[s], r) && !r.FenceFailed?
    case Flush(s, f) => IsOpen(m, s) && FlushFits(m.streams[s], f)
    case Wait(s) => IsOpen(m, s) && Reached(m, s)
    case WaitOn(s, p) => IsOpen(m, s) && !HasPending(m.streams[s]) && p.sem < |m.hal.sems|
    case Advance(s) => IsOpen(m, s)
    case AllocBegin(s, _) => IsOpen(m, s) && !HasPending(m.streams[s])
    case AllocEnd(s, waited) =>
      && s < |m.streams| && m.streams[s].phase.Allocating?
      && (waited ==> Met(m.hal, Point(m.streams[s].sem, m.streams[s].timepoint + 1)))
    case Drop(s) => IsOpen(m, s)
    case Signal(p) => p.sem < |m.hal.sems|
    case Run(t, j) => CanRun(m.hal, t, j)
    case Finish(t) => CanFinish(m.hal, t)
  }

  function Put(m: Machine, s: nat, r: (Stream, Hal)): Machine
    requires s < |m.streams|
  {
    Machine(m.streams[s := r.0], r.1)
  }

  function Next(m: Machine, a: Action): Machine
    requires Enabled(m, a)
  {
    var h := m.hal;
    match a
    case CreateStream =>
      Machine(m.streams + [Stream(|m.streams|, |h.sems|, 0, None, false, Open)], h.(sems := h.sems + [0]))
    case CreateSemaphore(initial) => m.(hal := h.(sems := h.sems + [initial]))
    case Record(s, op, r) => Put(m, s, RecordOp(m.streams[s], h, op, r))
    case Barrier(s, r) => Put(m, s, RecordFence(m.streams[s], h, r))
    case Flush(s, f) => Put(m, s, FlushInner(m.streams[s], h, f))
    case Wait(_) => m
    case WaitOn(s, p) => Put(m, s, WaitOnPoint(m.streams[s], h, p))
    case Advance(s) => Put(m, s, (m.streams[s].(timepoint := m.streams[s].timepoint + 1), h))
    case AllocBegin(s, op) => Put(m, s, AllocStart(m.streams[s], h, op))
    case AllocEnd(s, waited) => Put(m, s, (AllocFinish(m.streams[s], waited), h))
    case Drop(s) => Put(m, s, DropStream(m.streams[s], h))
    case Signal(p) => m.(hal := h.(sems := Raise(h.sems, p)))
    case Run(t, j) => m.(hal := DoRun(h, t, j))
    case Finish(t) => m.(hal := DoFinish(h, t))
  }

  const START := Machine([], Hal([], [], [], 0, []))

  /** The machine after a run, or None if some action of the run could not happen. */
  function Exec(m: Machine, actions: seq<Action>): (r: Option<Machine>)
    decreases |actions|
  {
    if actions == [] then Some(m)
    else
      var last := actions[|actions| - 1];
      match Exec(m, actions[..|actions| - 1])
      case Some(n) => if Enabled(n, last) then Some(Next(n, last)) else None
      case None => None
  }

  lemma ExecSnoc(m: Machine, actions: seq<Action>, a: Action)
    ensures Exec(m, actions + [a]) ==
            match Exec(m, actions) case None => None case Some(n) => if Enabled(n, a) then Some(Next(n, a)) else None
  {
    assert (actions + [a])[..|actions|] == actions;
  }

  /** Runs compose. */
  lemma {:induction false} ExecAppend(m: Machine, before: seq<Action>, after: seq<Action>)
    ensures Exec(m, before + after) ==
            match Exec(m, before) case None => None case Some(n) => Exec(n, after)
    decreases |after|
  {
    if after == [] {
      assert before + after == before;
    } else {
      var k := |after| - 1;
      ExecAppend(m, before, after[..k]);
      assert (before + after)[..|before + after| - 1] == before + after[..k];
    }
  }

  lemma ExecCons(m: Machine, a: Action, rest: seq<Action>)
    requires Enabled(m, a)
    ensures Exec(m, [a] + rest) == Exec(Next(m, a), rest)
  {
    ExecSnoc(m, [], a);
    assert [] + [a] == [a];
    ExecAppend(m, [a], rest);
  }

  /** What every action keeps: identities, semaphore ownership and signal targets. */
  ghost predicate WellFormed(m: Machine) {
    && (forall i :: 0 <= i < |m.streams| ==> m.streams[i].id == i && m.streams[i].sem < |m.hal.sems|)
    && (forall i, j :: 0 <= i < j < |m.streams| ==> m.streams[i].sem != m.streams[j].sem)
    && (forall t :: 0 <= t < |m.hal.tasks| ==> TaskWellFormed(m, m.hal.tasks[t]))
    && (forall k :: 0 <= k < |m.hal.log| ==> m.hal.log[k].owner < |m.streams|)
  }

  ghost predicate TaskWellFormed(m: Machine, t: Task) {
    && t.owner < |m.streams|
    && t.signal.sem == m.streams[t.owner].sem
    && (forall k :: 0 <= k < |t.waits| ==> t.waits[k].sem < |m.hal.sems|)
    && (t.finished ==> WaitsMet(m.hal, t) && AllRan(t) && Met(m.hal, t.signal))
    && (t.order != [] ==> WaitsMet(m.hal, t))
  }

  /** Device order and payloads only grow along any step. */
  lemma StepMonotone(m: Machine, a: Action)
    requires Enabled(m, a)
    ensures |Next(m, a).hal.sems| >= |m.hal.sems| && |Next(m, a).streams| >= |m.streams|
    ensures |Next(m, a).hal.tasks| >= |m.hal.tasks|
    ensures forall k :: 0 <= k < |m.hal.sems| ==> Next(m, a).hal.sems[k] >= m.hal.sems[k]
    ensures forall i :: 0 <= i < |m.streams| ==>
              Next(m, a).streams[i].sem == m.streams[i].sem && Next(m, a).streams[i].timepoint >= m.streams[i].timepoint
    ensures forall p :: Met(m.hal, p) ==> Met(Next(m, a).hal, p)
  {
  }

  predicate IsDevice(a: Action) {
    a.Run? || a.Finish?
  }

  /** A host step submits at most one task, at the end of the list. */
  lemma HostTasks(m: Machine, a: Action)
    requires Enabled(m, a) && !IsDevice(a)
    ensures var n := Next(m, a);
            || n.hal.tasks == m.hal.tasks
            || (exists t: Task :: n.hal.tasks == m.hal.tasks + [t] && NewTask(m, a, t))
  {
    var n := Next(m, a);
    if n.hal.tasks != m.hal.tasks {
      var t := n.hal.tasks[|m.hal.tasks|];
      assert n.hal.tasks == m.hal.tasks + [t] && NewTask(m, a, t);
    }
  }

  /** The submission an action makes: the next value of its stream's own semaphore. */
  ghost predicate NewTask(m: Machine, a: Action, t: Task) {
    && (a.Flush? || a.WaitOn? || a.AllocBegin?)
    && a.s < |m.streams|
    && var s := m.streams[a.s];
       && t.owner == s.id && t.signal == Point(s.sem, s.timepoint + 1)
       && t.order == [] && !t.finished
       && t.waits == (if a.WaitOn? then [a.p] else OwnWait(s))
       && t.cmds == (if a.WaitOn? then [] else if a.AllocBegin? then [Do(a.op)]
                     else if s.pending.Some? then s.pending.value.cmds else [])
  }

  lemma TaskKept(m: Machine, n: Machine, t: Task)
    requires TaskWellFormed(m, t) && |m.streams| <= |n.streams| && |m.hal.sems| <= |n.hal.sems|
    requires forall i :: 0 <= i < |m.streams| ==> n.streams[i].sem == m.streams[i].sem
    requires forall p :: Met(m.hal, p) ==> Met(n.hal, p)
    ensures TaskWellFormed(n, t)
  {
  }

  lemma NewTaskWellFormed(m: Machine, a: Action, t: Task)
    requires WellFormed(m) && Enabled(m, a) && NewTask(m, a, t)
    ensures TaskWellFormed(Next(m, a), t)
  {
  }

  lemma HostWellFormed(m: Machine, a: Action)
    requires WellFormed(m) && Enabled(m, a) && !IsDevice(a)
    ensures WellFormed(Next(m, a))
  {
    StepMonotone(m, a);
    HostTasks(m, a);
    var n := Next(m, a);
    assert n.hal.log == m.hal.log;
    forall t | 0 <= t < |n.hal.tasks|
      ensures TaskWellFormed(n, n.hal.tasks[t])
    {
      if t < |m.hal.tasks| {
        assert n.hal.tasks[t] == m.hal.tasks[t];
        TaskKept(m, n, m.hal.tasks[t]);
      } else {
        NewTaskWellFormed(m, a, n.hal.tasks[t]);
      }
    }
  }

  lemma DeviceWellFormed(m: Machine, a: Action)
    requires WellFormed(m) && Enabled(m, a) && IsDevice(a)
    ensures WellFormed(Next(m, a))
  {
    StepMonotone(m, a);
    var n := Next(m, a);
    forall t | 0 <= t < |n.hal.tasks|
      ensures TaskWellFormed(n, n.hal.tasks[t])
    {
      assert TaskWellFormed(m, m.hal.tasks[t]);
    }
  }

  lemma StepWellFormed(m: Machine, a: Action)
    requires WellFormed(m) && Enabled(m, a)
    ensures WellFormed(Next(m, a))
  {
    if IsDevice(a) {
      DeviceWellFormed(m, a);
    } else {
      HostWellFormed(m, a);
    }
  }

  lemma {:induction false} ReachableWellFormed(actions: seq<Action>)
    requires Exec(START, actions).Some?
    ensures WellFormed(Exec(START, actions).value)
    decreases |actions|
  {
    if actions != [] {
      var k := |actions| - 1;
      ReachableWellFormed(actions[..k]);
      StepWellFormed(Exec(START, actions[..k]).value, actions[k]);
    }
  }

  /** Semaphores, timepoints and task counts only grow along any run. */
  lemma {:induction false} RunMonotone(m: Machine, actions: seq<Action>)
    requires Exec(m, actions).Some?
    ensures var n := Exec(m, actions).value;
            && |n.hal.sems| >= |m.hal.sems| && |n.streams| >= |m.streams| && |n.hal.tasks| >= |m.hal.tasks|
            && (forall k :: 0 <= k < |m.hal.sems| ==> n.hal.sems[k] >= m.hal.sems[k])
            && (forall i :: 0 <= i < |m.streams| ==>
                  n.streams[i].sem == m.streams[i].sem && n.streams[i].timepoint >= m.streams[i].timepoint)
    decreases |actions|
  {
    if actions != [] {
      var k := |actions| - 1;
      RunMonotone(m, actions[..k]);
      StepMonotone(Exec(m, actions[..k]).value, actions[k]);
    }
  }
}
