/** Any number of stream objects on one device object.  Whatever sequence of calls is made on them, the
    objects' state is that of a run of the timeline machine. */
module Host {
  import opened Wrappers
  import opened Timeline
  import opened StreamObject
  import opened Chain
  import opened Refinement

  class Host {
    const device: HalDevice
    var streams: seq<HrxStream>
    /** The machine's state and the run that led to it. */
    ghost var machine: Machine
    ghost var run: seq<Action>

    constructor ()
      ensures Valid() && fresh(device) && streams == [] && machine == START
    {
      device := new HalDevice();
      streams, machine, run := [], START, [];
    }

    /** The object at index `i` is stream `i`, as `st` has it, given the live command buffers. */
    ghost predicate Is(i: nat, st: Stream, cbs: map<nat, seq<Cmd>>)
      reads this`streams, if i < |streams| then {streams[i]} else {}
    {
      && i < |streams| && streams[i].device == device && streams[i].id == i && streams[i].View(cbs) == st
      && (streams[i].pendingCb.Some? ==> streams[i].pendingCb.value in cbs)
    }

    /** Two streams are two objects with command buffers of their own. */
    ghost predicate Apart(i: nat, j: nat)
      requires i < |streams| && j < |streams|
      reads this`streams, if i < |streams| && j < |streams| then {streams[i], streams[j]} else {}
    {
      streams[i] != streams[j] && (streams[i].pendingCb.Some? ==> streams[i].pendingCb != streams[j].pendingCb)
    }

    ghost predicate Valid()
      reads this, device, streams
    {
      && device.Valid() && device.Model() == machine.hal && |machine.streams| == |streams|
      && (forall i: nat :: i < |streams| ==> Is(i, machine.streams[i], device.cbs))
      && (forall i: nat, j: nat :: i < |streams| && j < |streams| && i != j ==> Apart(i, j))
      && Exec(START, run) == Some(machine)
    }

    /** The stream exists and was not dropped. */
    predicate Usable(s: nat)
      reads this, streams
    {
      s < |streams| && !streams[s].dropped
    }

    /** The streams other than `s`, which held the command buffer `own`, are apart from each other and it. */
    ghost predicate Others(s: nat, own: Option<nat>, cbs: map<nat, seq<Cmd>>, sts: seq<Stream>)
      requires s < |streams| == |sts|
      reads this`streams, streams
    {
      && (forall i: nat :: i < |streams| && i != s ==> Is(i, sts[i], cbs))
      && (forall i: nat :: i < |streams| && i != s ==>
            streams[i] != streams[s] && (streams[i].pendingCb.Some? ==> streams[i].pendingCb != own))
      && (forall i: nat, j: nat :: i < |streams| && j < |streams| && i != j && i != s && j != s ==> Apart(i, j))
    }

    lemma Beside(s: nat)
      requires Valid() && s < |streams|
      ensures Others(s, streams[s].pendingCb, device.cbs, machine.streams) && Is(s, machine.streams[s], device.cbs) && streams[s].Valid()
    {
      assert Is(s, machine.streams[s], device.cbs);
      forall i: nat | i < |streams| && i != s
        ensures streams[i] != streams[s] && (streams[i].pendingCb.Some? ==> streams[i].pendingCb != streams[s].pendingCb)
      {
        assert Apart(i, s);
      }
    }

    lemma Rejoined(s: nat, own: Option<nat>, cbs: map<nat, seq<Cmd>>, created: nat, sts: seq<Stream>)
      requires s < |streams| == |sts| && Others(s, own, cbs, sts) && (forall id :: id in cbs ==> id < created)
      requires streams[s].Valid() && streams[s].device == device && streams[s].id == s
      requires streams[s].Framed(own, cbs, created)
      ensures forall i: nat :: i < |streams| ==> Is(i, if i == s then streams[s].Model() else sts[i], device.cbs)
      ensures forall i: nat, j: nat :: i < |streams| && j < |streams| && i != j ==> Apart(i, j)
    {
      forall i: nat | i < |streams|
        ensures Is(i, if i == s then streams[s].Model() else sts[i], device.cbs)
      {
        assert i != s ==> Is(i, sts[i], cbs);
      }
      forall i: nat, j: nat | i < |streams| && j < |streams| && i != j
        ensures Apart(i, j)
      {
        assert i != s ==> Is(i, sts[i], cbs);
        assert j != s ==> Is(j, sts[j], cbs);
        assert i != s && j != s ==> Apart(i, j);
      }
    }

    /** A call on stream `s` that framed the others moved the machine along `more`. */
    ghost method Commit(s: nat, own: Option<nat>, cbs: map<nat, seq<Cmd>>, created: nat, more: seq<Action>)
      requires s < |streams| == |machine.streams| && Others(s, own, cbs, machine.streams) && (forall id :: id in cbs ==> id < created)
      requires streams[s].Valid() && streams[s].device == device && streams[s].id == s
      requires streams[s].Framed(own, cbs, created)
      requires Exec(START, run) == Some(machine) && Exec(machine, more) == Some(Put(machine, s, streams[s].Both()))
      modifies this`machine, this`run
      ensures Valid() && run == old(run) + more
    {
      Rejoined(s, own, cbs, created, machine.streams);
      ExecAppend(START, run, more);
      machine, run := Put(machine, s, streams[s].Both()), run + more;
    }

    method Record(s: nat, op: Op, r: RecordOutcome) returns (ok: bool)
      requires Valid() && Usable(s) && RecordFits(streams[s].Model(), r)
      modifies this`machine, this`run, device, streams[s]
      ensures Valid() && ok == r.Recorded? && run == old(run) + [Action.Record(s, op, r)]
    {
      Beside(s);
      ghost var own, cbs, created, a := streams[s].pendingCb, device.cbs, device.created, Action.Record(s, op, r);
      ExecOne(machine, a);
      ok := streams[s].Record(op, r);
      Commit(s, own, cbs, created, [a]);
    }

    method Barrier(s: nat, r: RecordOutcome) returns (ok: bool)
      requires Valid() && Usable(s) && RecordFits(streams[s].Model(), r) && !r.FenceFailed?
      modifies this`machine, this`run, device, streams[s]
      ensures Valid() && ok == r.Recorded? && run == old(run) + [Action.Barrier(s, r)]
    {
      Beside(s);
      ghost var own, cbs, created, a := streams[s].pendingCb, device.cbs, device.created, Action.Barrier(s, r);
      ExecOne(machine, a);
      ok := streams[s].ExecutionBarrier(r);
      Commit(s, own, cbs, created, [a]);
    }

    method Flush(s: nat, f: FlushOutcome) returns (ok: bool)
      requires Valid() && Usable(s) && FlushFits(streams[s].Model(), f)
      modifies this`machine, this`run, device, streams[s]
      ensures Valid() && ok == FlushOk(f) && run == old(run) + [Action.Flush(s, f)]
      ensures ok <==> !old(streams[s].hasPendingWork && streams[s].pendingCb.Some?) || f.Submitted?
    {
      Beside(s);
      ghost var own, cbs, created, a := streams[s].pendingCb, device.cbs, device.created, Action.Flush(s, f);
      ExecOne(machine, a);
      ok := streams[s].FlushInner(f);
      Commit(s, own, cbs, created, [a]);
    }

    method WaitOn(s: nat, p: Point, f: FlushOutcome, submitted: bool) returns (ok: bool)
      requires Valid() && Usable(s) && FlushFits(streams[s].Model(), f) && p.sem < |device.sems|
      modifies this`machine, this`run, device, streams[s]
      ensures Valid() && (ok <==> (!old(streams[s].hasPendingWork && streams[s].pendingCb.Some?) || f.Submitted?) && submitted)
      ensures run == old(run) + WaitOnSteps(s, p, f, submitted)
    {
      Beside(s);
      ghost var own, cbs, created := streams[s].pendingCb, device.cbs, device.created;
      WaitOnRun(machine, s, p, f, submitted);
      ok := streams[s].WaitOn(p, f, submitted);
      Commit(s, own, cbs, created, WaitOnSteps(s, p, f, submitted));
    }

    method Advance(s: nat) returns (value: nat)
      requires Valid() && Usable(s)
      modifies this`machine, this`run, streams[s]
      ensures Valid() && run == old(run) + [Action.Advance(s)]
    {
      Beside(s);
      ghost var own, cbs, created, a := streams[s].pendingCb, device.cbs, device.created, Action.Advance(s);
      ExecOne(machine, a);
      value := streams[s].AdvanceTimeline();
      Commit(s, own, cbs, created, [a]);
    }

    /** A synchronize is a flush, device steps, and a wait that returns if it succeeds. */
    method Synchronize(s: nat, f: FlushOutcome, steps: seq<Action>, healthy: bool) returns (ok: bool)
      requires Valid() && Usable(s) && FlushFits(streams[s].Model(), f)
      modifies this`machine, this`run, device, streams[s]
      ensures Valid() && old(IsOpen(machine, s)) && run == old(run) + SynchronizeSteps(old(machine), s, f, steps, healthy)
      ensures ok == SynchronizeOk(old(machine), s, f, steps, healthy)
      ensures ok <==> && (!old(streams[s].hasPendingWork && streams[s].pendingCb.Some?) || f.Submitted?)
                      && (streams[s].timepoint == 0 || (healthy && Met(device.Model(), Point(streams[s].sem, streams[s].timepoint))))
    {
      Beside(s);
      ghost var own, cbs, created, more := streams[s].pendingCb, device.cbs, device.created, SynchronizeSteps(machine, s, f, steps, healthy);
      SynchronizeRun(machine, s, f, steps, healthy);
      ok := streams[s].Synchronize(f, steps, healthy);
      Commit(s, own, cbs, created, more);
    }

    /** A wait is device steps, and a step of its own if it succeeds. */
    method Wait(s: nat, steps: seq<Action>, healthy: bool) returns (ok: bool)
      requires Valid() && Usable(s)
      modifies this`machine, this`run, device, streams[s]
      ensures Valid() && old(IsOpen(machine, s)) && run == old(run) + WaitSteps(old(machine), s, steps, healthy)
      ensures ok <==> streams[s].timepoint == 0 || (healthy && Met(device.Model(), Point(streams[s].sem, streams[s].timepoint)))
    {
      Beside(s);
      ghost var own, cbs, created, more := streams[s].pendingCb, device.cbs, device.created, WaitSteps(machine, s, steps, healthy);
      WaitRun(machine, s, steps, healthy);
      ok := streams[s].Wait(steps, healthy);
      Commit(s, own, cbs, created, more);
    }

    /** An allocation is a flush, a submission, device steps, and the end of its wait. */
    method Allocate(s: nat, op: Op, f: FlushOutcome, submitted: bool, steps: seq<Action>, healthy: bool) returns (ok: bool)
      requires Valid() && Usable(s) && FlushFits(streams[s].Model(), f)
      modifies this`machine, this`run, device, streams[s]
      ensures Valid() && old(IsOpen(machine, s)) && run == old(run) + AllocateSteps(old(machine), s, op, f, submitted, steps, healthy)
      ensures FlushOk(f) && submitted ==> run[|run| - 1] == AllocEnd(s, ok)
      ensures var tp := old(streams[s].timepoint) + if old(streams[s].hasPendingWork && streams[s].pendingCb.Some?) && f.Submitted? then 1 else 0;
              && (ok <==> && (!old(streams[s].hasPendingWork && streams[s].pendingCb.Some?) || f.Submitted?)
                          && submitted && healthy && Met(device.Model(), Point(streams[s].sem, tp + 1)))
              && streams[s].timepoint == if ok then tp + 1 else tp
    {
      Beside(s);
      ghost var own, cbs, created, more := streams[s].pendingCb, device.cbs, device.created,
        AllocateSteps(machine, s, op, f, submitted, steps, healthy);
      AllocateRun(machine, s, op, f, submitted, steps, healthy);
      ok := streams[s].Allocate(op, f, submitted, steps, healthy);
      Commit(s, own, cbs, created, more);
    }

    /** The last release. */
    method Drop(s: nat, f: FlushOutcome, steps: seq<Action>, healthy: bool)
      requires Valid() && Usable(s) && FlushFits(streams[s].Model(), f)
      modifies this`machine, this`run, device, streams[s]
      ensures Valid() && !Usable(s) && old(IsOpen(machine, s)) && run == old(run) + DropSteps(old(machine), s, f, steps)
    {
      Beside(s);
      ghost var own, cbs, created, more := streams[s].pendingCb, device.cbs, device.created, DropSteps(machine, s, f, steps);
      DropRun(machine, s, f, steps);
      var _ := streams[s].Drop(f, steps, healthy);
      Commit(s, own, cbs, created, more);
    }

    /** A change of the device's semaphores, submissions or log alone moved the machine along `more`. */
    ghost method CommitDevice(more: seq<Action>, cbs: map<nat, seq<Cmd>>)
      requires device.Valid() && device.cbs == cbs && |machine.streams| == |streams|
      requires forall i: nat :: i < |streams| ==> Is(i, machine.streams[i], cbs)
      requires forall i: nat, j: nat :: i < |streams| && j < |streams| && i != j ==> Apart(i, j)
      requires Exec(START, run) == Some(machine) && Exec(machine, more) == Some(machine.(hal := device.Model()))
      modifies this`machine, this`run
      ensures Valid() && run == old(run) + more
    {
      ExecAppend(START, run, more);
      machine, run := machine.(hal := device.Model()), run + more;
    }

    method CreateStream()
      requires Valid()
      modifies this, device
      ensures Valid() && run == old(run) + [Action.CreateStream]
      ensures |streams| == |old(streams)| + 1 && streams[..|old(streams)|] == old(streams) && fresh(streams[|old(streams)|])
    {
      ghost var sts := machine.streams;
      ExecOne(machine, Action.CreateStream);
      var sem := device.CreateSemaphore(0);
      var st := new HrxStream(|streams|, sem, device);
      assert st !in streams;
      Adopt(st, sts);
      ExecAppend(START, run, [Action.CreateStream]);
      machine, run := Next(machine, Action.CreateStream), run + [Action.CreateStream];
    }

    /** A new stream object joins the others. */
    method Adopt(st: HrxStream, ghost sts: seq<Stream>)
      requires |sts| == |streams| && (forall i: nat :: i < |streams| ==> Is(i, sts[i], device.cbs))
      requires forall i: nat, j: nat :: i < |streams| && j < |streams| && i != j ==> Apart(i, j)
      requires st !in streams && st.device == device && st.id == |streams| && st.pendingCb.None?
      modifies this`streams
      ensures streams == old(streams) + [st]
      ensures forall i: nat :: i < |streams| ==> Is(i, (sts + [st.Model()])[i], device.cbs)
      ensures forall i: nat, j: nat :: i < |streams| && j < |streams| && i != j ==> Apart(i, j)
    {
      ghost var before := streams;
      assert forall i: nat :: i < |before| ==> Is(i, sts[i], device.cbs);
      streams := streams + [st];
      forall i: nat, j: nat | i < |streams| && j < |streams| && i != j ensures Apart(i, j) {
        assert i < |before| && j < |before| ==> old(Apart(i, j));
      }
      forall i: nat | i < |streams| ensures Is(i, (sts + [st.Model()])[i], device.cbs) {
        assert i < |before| ==> old(Is(i, sts[i], device.cbs));
      }
    }

    method CreateSemaphore(initial: nat)
      requires Valid()
      modifies this`machine, this`run, device
      ensures Valid() && run == old(run) + [Action.CreateSemaphore(initial)]
    {
      ExecOne(machine, Action.CreateSemaphore(initial));
      var _ := device.CreateSemaphore(initial);
      CommitDevice([Action.CreateSemaphore(initial)], device.cbs);
    }

    method Signal(p: Point)
      requires Valid() && p.sem < |device.sems|
      modifies this`machine, this`run, device
      ensures Valid() && run == old(run) + [Action.Signal(p)]
    {
      ExecOne(machine, Action.Signal(p));
      device.Signal(p);
      CommitDevice([Action.Signal(p)], device.cbs);
    }

    /** The device takes a step if it can. */
    method Work(a: Action)
      requires Valid()
      modifies this`machine, this`run, device
      ensures Valid() && run == old(run) + if CanStep(old(machine).hal, a) then [a] else []
    {
      ghost var more := [];
      if CanStep(machine.hal, a) {
        ExecOne(machine, a);
        more := [a];
      }
      device.Step(a);
      CommitDevice(more, device.cbs);
    }

    /** One call; an impossible one is skipped.  The run grows by the call's own steps. */
    method Perform(c: Call)
      requires Valid()
      modifies this, device, streams
      ensures Valid() && run == old(run) + Steps(old(machine), c)
      ensures |streams| >= |old(streams)| && streams[..|old(streams)|] == old(streams)
      ensures forall i :: |old(streams)| <= i < |streams| ==> fresh(streams[i])
    {
      if c.NewStream? {
        CreateStream();
      } else if !OnStream(c) {
        PerformShared(c);
      } else {
        OpenIsUsable(c.s);
        if c.s < |streams| && !streams[c.s].dropped {
          PerformOn(c);
        }
      }
    }

    method PerformShared(c: Call)
      requires Valid() && !OnStream(c) && !c.NewStream?
      modifies this`machine, this`run, device
      ensures Valid() && run == old(run) + Steps(old(machine), c)
    {
      match c {
        case NewSemaphore(initial) => CreateSemaphore(initial);
        case SignalNow(p) => if p.sem < |device.sems| { Signal(p); }
        case Work(a) => Work(a);
      }
    }

    lemma OpenIsUsable(s: nat)
      requires Valid()
      ensures IsOpen(machine, s) <==> Usable(s)
      ensures Usable(s) ==> machine.streams[s] == streams[s].Model()
    {
      if s < |streams| {
        Beside(s);
      }
    }

    method PerformOn(c: Call)
      requires Valid() && OnStream(c) && Usable(c.s)
      modifies this`machine, this`run, device, streams[c.s]
      ensures Valid() && run == old(run) + Steps(old(machine), c)
    {
      OpenIsUsable(c.s);
      var st := streams[c.s].Model();
      match c {
        case RecordOne(s, op, r) => if RecordFits(st, r) { var _ := Record(s, op, r); }
        case Fence(s, r) => if RecordFits(st, r) && !r.FenceFailed? { var _ := Barrier(s, r); }
        case FlushNow(s, f) => if FlushFits(st, f) { var _ := Flush(s, f); }
        case Await(s, p, f, submitted) =>
          if FlushFits(st, f) && p.sem < |device.sems| { var _ := WaitOn(s, p, f, submitted); }
        case Bump(s) => var _ := Advance(s);
        case WaitNow(s, steps, healthy) => var _ := Wait(s, steps, healthy);
        case Synchronize(s, f, steps, healthy) => if FlushFits(st, f) { var _ := Synchronize(s, f, steps, healthy); }
        case Allocate(s, op, f, submitted, steps, healthy) =>
          if FlushFits(st, f) { var _ := Allocate(s, op, f, submitted, steps, healthy); }
        case DropLast(s, f, steps, healthy) => if FlushFits(st, f) { Drop(s, f, steps, healthy); }
      }
    }

    /** A theorem about runs read on the objects: once a stream object is synchronized, the device has
        executed exactly its successful calls' operations, in program order. */
    lemma SynchronizedObject(s: nat)
      requires Valid() && Usable(s) && OrderlyRun(run, s) && FencedRun(run, s)
      requires !HasPending(streams[s].Model()) && (streams[s].timepoint == 0 || Met(device.Model(), Point(streams[s].sem, streams[s].timepoint)))
      ensures Project(device.log, s) == Accepted(run, s)
    {
      Beside(s);
      SynchronizeExecutesAll(run, s);
    }
  }

  // --- whole runs ---

  datatype Call =
    | NewStream | NewSemaphore(initial: nat)
    | RecordOne(s: nat, op: Op, r: RecordOutcome) | Fence(s: nat, r: RecordOutcome)
    | FlushNow(s: nat, f: FlushOutcome) | Await(s: nat, p: Point, f: FlushOutcome, submitted: bool) | Bump(s: nat)
    | WaitNow(s: nat, steps: seq<Action>, healthy: bool)
    | Synchronize(s: nat, f: FlushOutcome, steps: seq<Action>, healthy: bool)
    | Allocate(s: nat, op: Op, f: FlushOutcome, submitted: bool, steps: seq<Action>, healthy: bool)
    | DropLast(s: nat, f: FlushOutcome, steps: seq<Action>, healthy: bool)
    | SignalNow(p: Point) | Work(a: Action)

  predicate OnStream(c: Call) {
    !(c.NewStream? || c.NewSemaphore? || c.SignalNow? || c.Work?)
  }

  /** The machine's steps that one call takes; none if the call is impossible. */
  function Steps(m: Machine, c: Call): seq<Action> {
    match c
    case NewStream => [CreateStream]
    case NewSemaphore(initial) => [CreateSemaphore(initial)]
    case SignalNow(p) => if p.sem < |m.hal.sems| then [Signal(p)] else []
    case Work(a) => if CanStep(m.hal, a) then [a] else []
    case _ => if IsOpen(m, c.s) then StreamSteps(m, c) else []
  }

  function StreamSteps(m: Machine, c: Call): seq<Action>
    requires OnStream(c) && IsOpen(m, c.s)
  {
    var st := m.streams[c.s];
    match c
    case RecordOne(s, op, r) => if RecordFits(st, r) then [Record(s, op, r)] else []
    case Fence(s, r) => if RecordFits(st, r) && !r.FenceFailed? then [Barrier(s, r)] else []
    case FlushNow(s, f) => if FlushFits(st, f) then [Flush(s, f)] else []
    case Await(s, p, f, submitted) => if FlushFits(st, f) && p.sem < |m.hal.sems| then WaitOnSteps(s, p, f, submitted) else []
    case Bump(s) => [Advance(s)]
    case WaitNow(s, steps, healthy) => WaitSteps(m, s, steps, healthy)
    case Synchronize(s, f, steps, healthy) => if FlushFits(st, f) then SynchronizeSteps(m, s, f, steps, healthy) else []
    case Allocate(s, op, f, submitted, steps, healthy) =>
      if FlushFits(st, f) then AllocateSteps(m, s, op, f, submitted, steps, healthy) else []
    case DropLast(s, f, steps, _) => if FlushFits(st, f) then DropSteps(m, s, f, steps) else []
  }

  /** The run that a sequence of calls is. */
  function Trace(calls: seq<Call>): seq<Action> {
    if calls == [] then []
    else
      var run := Trace(calls[..|calls| - 1]);
      var m := Exec(START, run);
      run + if m.Some? then Steps(m.value, calls[|calls| - 1]) else []
  }

  /** Any sequence of calls on any number of stream objects, under any HAL outcomes and with the device
      working in between (impossible calls skipped), leaves the objects in the state that the machine
      reaches by the steps of these calls. */
  method Drive(calls: seq<Call>) returns (host: Host)
    ensures host.Valid() && host.run == Trace(calls) && Exec(START, Trace(calls)) == Some(host.machine)
  {
    host := new Host();
    assert calls[..0] == [];
    for k := 0 to |calls|
      invariant host.Valid() && fresh(host) && fresh(host.device) && forall i :: 0 <= i < |host.streams| ==> fresh(host.streams[i])
      invariant host.run == Trace(calls[..k])
    {
      assert calls[..k + 1][..k] == calls[..k];
      host.Perform(calls[k]);
    }
    assert calls[..|calls|] == calls;
  }

  // --- calls of several steps ---

  lemma PutTwice(m: Machine, s: nat, r: (Stream, Hal), o: Machine)
    requires s < |m.streams| && |o.streams| == |m.streams|
    requires o.streams == Put(m, s, r).streams[s := o.streams[s]]
    ensures o == Put(m, s, (o.streams[s], o.hal))
  {
  }

  function WaitOnSteps(s: nat, p: Point, f: FlushOutcome, submitted: bool): seq<Action> {
    [Flush(s, f)] + if FlushOk(f) && submitted then [WaitOn(s, p)] else []
  }

  /** A wait blocks unless nothing was ever submitted. */
  function WaitSteps(m: Machine, s: nat, steps: seq<Action>, healthy: bool): seq<Action>
    requires IsOpen(m, s)
  {
    var st := m.streams[s];
    if st.timepoint == 0 then [Wait(s)]
    else Taken(m.hal, steps) + if healthy && Met(Progress(m.hal, steps), Point(st.sem, st.timepoint)) then [Wait(s)] else []
  }

  /** A synchronize flushes and, if that succeeded, waits unless nothing was ever submitted. */
  function SynchronizeSteps(m: Machine, s: nat, f: FlushOutcome, steps: seq<Action>, healthy: bool): seq<Action>
    requires IsOpen(m, s)
  {
    [Flush(s, f)] + Waited(m, s, f, FlushOk(f), steps) + if SynchronizeOk(m, s, f, steps, healthy) then [Wait(s)] else []
  }

  /** What the device does while the stream waits for its timeline after the flush. */
  function Waited(m: Machine, s: nat, f: FlushOutcome, waits: bool, steps: seq<Action>): seq<Action>
    requires IsOpen(m, s)
  {
    var flushed := FlushInner(m.streams[s], m.hal, f);
    if waits && flushed.0.timepoint > 0 then Taken(flushed.1, steps) else []
  }

  predicate SynchronizeOk(m: Machine, s: nat, f: FlushOutcome, steps: seq<Action>, healthy: bool)
    requires IsOpen(m, s)
  {
    var flushed := FlushInner(m.streams[s], m.hal, f);
    && FlushOk(f)
    && (flushed.0.timepoint == 0 || (healthy && Met(Progress(flushed.1, steps), Point(flushed.0.sem, flushed.0.timepoint))))
  }

  /** An allocation flushes, submits, and waits; its wait ends by success or failure. */
  function AllocateSteps(m: Machine, s: nat, op: Op, f: FlushOutcome, submitted: bool, steps: seq<Action>, healthy: bool): seq<Action>
    requires IsOpen(m, s)
  {
    if !FlushOk(f) || !submitted then [Flush(s, f)]
    else
      var flushed := FlushInner(m.streams[s], m.hal, f);
      [Flush(s, f)] + [AllocBegin(s, op)] + Taken(AllocStart(flushed.0, flushed.1, op).1, steps)
      + [AllocEnd(s, Allocated(m.streams[s], m.hal, op, f, submitted, steps, healthy).1)]
  }

  /** The last release flushes and waits whatever the flush reported. */
  function DropSteps(m: Machine, s: nat, f: FlushOutcome, steps: seq<Action>): seq<Action>
    requires IsOpen(m, s)
  {
    [Flush(s, f)] + Waited(m, s, f, true, steps) + [Drop(s)]
  }

  lemma WaitOnRun(m: Machine, s: nat, p: Point, f: FlushOutcome, submitted: bool)
    requires IsOpen(m, s) && FlushFits(m.streams[s], f) && p.sem < |m.hal.sems|
    ensures var flushed := FlushInner(m.streams[s], m.hal, f);
            Exec(m, WaitOnSteps(s, p, f, submitted))
            == Some(Put(m, s, if FlushOk(f) && submitted then WaitOnPoint(flushed.0, flushed.1, p) else flushed))
  {
    ExecOne(m, Flush(s, f));
    if FlushOk(f) && submitted {
      ExecSnoc(m, [Flush(s, f)], WaitOn(s, p));
      PutTwice(m, s, FlushInner(m.streams[s], m.hal, f), Next(Next(m, Flush(s, f)), WaitOn(s, p)));
    }
  }

  /** The flush and the device's work during the wait that follows it. */
  lemma WaitedRun(m: Machine, s: nat, f: FlushOutcome, waits: bool, steps: seq<Action>)
    requires IsOpen(m, s) && FlushFits(m.streams[s], f)
    ensures var flushed := FlushInner(m.streams[s], m.hal, f);
            Exec(m, [Flush(s, f)] + Waited(m, s, f, waits, steps))
            == Some(Put(m, s, (flushed.0, if waits && flushed.0.timepoint > 0 then Progress(flushed.1, steps) else flushed.1)))
  {
    var a := Flush(s, f);
    ExecOne(m, a);
    var n := Next(m, a);
    if waits && n.streams[s].timepoint > 0 {
      ProgressIsRun(n, steps);
    }
    ExecAppend(m, [a], Waited(m, s, f, waits, steps));
  }

  lemma WaitRun(m: Machine, s: nat, steps: seq<Action>, healthy: bool)
    requires IsOpen(m, s)
    ensures var st := m.streams[s];
            Exec(m, WaitSteps(m, s, steps, healthy))
            == Some(Put(m, s, (st, if st.timepoint > 0 then Progress(m.hal, steps) else m.hal)))
  {
    assert m.streams[s := m.streams[s]] == m.streams;
    if m.streams[s].timepoint == 0 {
      ExecOne(m, Wait(s));
    } else {
      ProgressIsRun(m, steps);
      ExecSnoc(m, Taken(m.hal, steps), Wait(s));
      assert Taken(m.hal, steps) + [] == Taken(m.hal, steps);
    }
  }

  lemma SynchronizeRun(m: Machine, s: nat, f: FlushOutcome, steps: seq<Action>, healthy: bool)
    requires IsOpen(m, s) && FlushFits(m.streams[s], f)
    ensures var flushed := FlushInner(m.streams[s], m.hal, f);
            var h := if FlushOk(f) && flushed.0.timepoint > 0 then Progress(flushed.1, steps) else flushed.1;
            Exec(m, SynchronizeSteps(m, s, f, steps, healthy)) == Some(Put(m, s, (flushed.0, h)))
  {
    WaitedRun(m, s, f, FlushOk(f), steps);
    var more := [Flush(s, f)] + Waited(m, s, f, FlushOk(f), steps);
    if SynchronizeOk(m, s, f, steps, healthy) {
      ExecSnoc(m, more, Wait(s));
    } else {
      assert more + [] == more;
    }
  }

  lemma AllocateRun(m: Machine, s: nat, op: Op, f: FlushOutcome, submitted: bool, steps: seq<Action>, healthy: bool)
    requires IsOpen(m, s) && FlushFits(m.streams[s], f)
    ensures Exec(m, AllocateSteps(m, s, op, f, submitted, steps, healthy))
            == Some(Put(m, s, Allocated(m.streams[s], m.hal, op, f, submitted, steps, healthy).0))
  {
    if !FlushOk(f) || !submitted {
      ExecOne(m, Flush(s, f));
      return;
    }
    BegunRun(m, s, op, f, steps);
    var flushed := FlushInner(m.streams[s], m.hal, f);
    var begun := AllocStart(flushed.0, flushed.1, op);
    var o := Put(m, s, (begun.0, Progress(begun.1, steps)));
    var end := AllocEnd(s, Allocated(m.streams[s], m.hal, op, f, submitted, steps, healthy).1);
    ExecSnoc(m, [Flush(s, f)] + [AllocBegin(s, op)] + Taken(begun.1, steps), end);
    PutTwice(m, s, (begun.0, o.hal), Next(o, end));
  }

  /** An allocation up to the end of its wait. */
  lemma BegunRun(m: Machine, s: nat, op: Op, f: FlushOutcome, steps: seq<Action>)
    requires IsOpen(m, s) && FlushFits(m.streams[s], f) && FlushOk(f)
    ensures var flushed := FlushInner(m.streams[s], m.hal, f);
            var begun := AllocStart(flushed.0, flushed.1, op);
            Exec(m, [Flush(s, f)] + [AllocBegin(s, op)] + Taken(begun.1, steps)) == Some(Put(m, s, (begun.0, Progress(begun.1, steps))))
  {
    var a, b := Flush(s, f), AllocBegin(s, op);
    ExecOne(m, a);
    ExecSnoc(m, [a], b);
    var o := Next(Next(m, a), b);
    PutTwice(m, s, FlushInner(m.streams[s], m.hal, f), o);
    ProgressIsRun(o, steps);
    ExecAppend(m, [a] + [b], Taken(o.hal, steps));
  }

  lemma DropRun(m: Machine, s: nat, f: FlushOutcome, steps: seq<Action>)
    requires IsOpen(m, s) && FlushFits(m.streams[s], f)
    ensures var flushed := FlushInner(m.streams[s], m.hal, f);
            var waited := if flushed.0.timepoint > 0 then Progress(flushed.1, steps) else flushed.1;
            Exec(m, DropSteps(m, s, f, steps)) == Some(Put(m, s, DropStream(flushed.0, waited)))
  {
    WaitedRun(m, s, f, true, steps);
    var more := [Flush(s, f)] + Waited(m, s, f, true, steps);
    ExecSnoc(m, more, Drop(s));
    PutTwice(m, s, FlushInner(m.streams[s], m.hal, f), Next(Exec(m, more).value, Drop(s)));
  }

  lemma ExecOne(m: Machine, a: Action)
    requires Enabled(m, a)
    ensures Exec(m, [a]) == Some(Next(m, a))
  {
    ExecCons(m, a, []);
    assert [a] + [] == [a];
  }
}
