/** The other direction of `Host`: whatever the machine can do, calls on the stream objects can do. */
module Callable {
  import opened Wrappers
  import opened Timeline
  import opened StreamObject
  import opened Host

  /** A step of the machine, or a whole allocation: an allocation blocks its caller, so only the device
      works between its submission and its end. */
  datatype Move = One(a: Action) | Alloc(s: nat, op: Op, device: seq<Action>, waited: bool)

  function Actions(v: Move): seq<Action> {
    match v
    case One(a) => [a]
    case Alloc(s, op, device, waited) => [AllocBegin(s, op)] + device + [AllocEnd(s, waited)]
  }

  ghost predicate Proper(v: Move) {
    match v
    case One(a) => !a.AllocBegin? && !a.AllocEnd?
    case Alloc(_, _, device, _) => forall k :: 0 <= k < |device| ==> IsDevice(device[k])
  }

  function Flat(moves: seq<Move>): seq<Action> {
    if moves == [] then [] else Flat(moves[..|moves| - 1]) + Actions(moves[|moves| - 1])
  }

  /** A flush that changes nothing. */
  function Idle(st: Stream): FlushOutcome {
    if HasPending(st) then EndFailed else NoWork
  }

  function CallFor(m: Machine, v: Move): Call {
    match v
    case Alloc(s, op, device, waited) => Allocate(s, op, NoWork, true, device, waited)
    case One(a) =>
      match a
      case CreateStream => NewStream
      case CreateSemaphore(initial) => NewSemaphore(initial)
      case Record(s, op, r) => RecordOne(s, op, r)
      case Barrier(s, r) => Call.Fence(s, r)
      case Flush(s, f) => FlushNow(s, f)
      case Wait(s) => WaitNow(s, [], true)
      case WaitOn(s, p) => Await(s, p, NoWork, true)
      case Advance(s) => Bump(s)
      case Drop(s) => DropLast(s, if s < |m.streams| then Idle(m.streams[s]) else NoWork, [], true)
      case Signal(p) => SignalNow(p)
      case _ => Work(a)
  }

  /** Device steps that are possible one after the other are all taken. */
  lemma {:induction false} AllTaken(m: Machine, device: seq<Action>)
    requires Exec(m, device).Some? && forall k :: 0 <= k < |device| ==> IsDevice(device[k])
    ensures Taken(m.hal, device) == device && Exec(m, device) == Some(m.(hal := Progress(m.hal, device)))
    decreases |device|
  {
    if device != [] {
      var before, a := device[..|device| - 1], device[|device| - 1];
      assert device == before + [a];
      ExecSnoc(m, before, a);
      AllTaken(m, before);
      ProgressNext(m, before, a);
      AdvancedIsStep(m.(hal := Progress(m.hal, before)), a);
    }
  }

  predicate Plain(a: Action) {
    !a.WaitOn? && !a.Drop? && !a.Wait? && !a.AllocBegin? && !a.AllocEnd?
  }

  lemma PlainCalled(m: Machine, a: Action)
    requires Enabled(m, a) && Plain(a)
    ensures Steps(m, CallFor(m, One(a))) == [a]
  {
    AdvancedIsStep(m, a);
  }

  lemma WaitCalled(m: Machine, s: nat)
    requires Enabled(m, Wait(s))
    ensures Steps(m, WaitNow(s, [], true)) == [Wait(s)]
  {
    assert Taken(m.hal, []) + [Wait(s)] == [Wait(s)];
  }

  lemma DropCalled(m: Machine, s: nat)
    requires Enabled(m, Drop(s))
    ensures Exec(m, Steps(m, DropLast(s, Idle(m.streams[s]), [], true))) == Some(Next(m, Drop(s)))
  {
    DropRun(m, s, Idle(m.streams[s]), []);
  }

  lemma StepCalled(m: Machine, a: Action)
    requires Enabled(m, a) && Proper(One(a))
    ensures Exec(m, Steps(m, CallFor(m, One(a)))) == Some(Next(m, a))
  {
    match a
    case WaitOn(s, p) => WaitOnRun(m, s, p, NoWork, true);
    case Drop(s) => DropCalled(m, s);
    case Wait(s) =>
      WaitCalled(m, s);
      ExecOne(m, a);
    case _ =>
      PlainCalled(m, a);
      ExecOne(m, a);
  }

  /** The parts of a whole allocation. */
  lemma AllocParts(m: Machine, s: nat, op: Op, device: seq<Action>, waited: bool)
    requires Exec(m, [AllocBegin(s, op)] + device + [AllocEnd(s, waited)]).Some?
    ensures Enabled(m, AllocBegin(s, op)) && Exec(Next(m, AllocBegin(s, op)), device).Some?
    ensures var o := Exec(Next(m, AllocBegin(s, op)), device).value;
            && Enabled(o, AllocEnd(s, waited))
            && Exec(m, [AllocBegin(s, op)] + device + [AllocEnd(s, waited)]) == Some(Next(o, AllocEnd(s, waited)))
  {
    var b := AllocBegin(s, op);
    ExecSnoc(m, [b] + device, AllocEnd(s, waited));
    ExecAppend(m, [b], device);
    ExecSnoc(m, [], b);
    assert [] + [b] == [b];
  }

  lemma AllocEnds(m: Machine, s: nat, op: Op, device: seq<Action>, waited: bool)
    requires Enabled(m, AllocBegin(s, op))
    requires var n := Next(m, AllocBegin(s, op)); Enabled(n.(hal := Progress(n.hal, device)), AllocEnd(s, waited))
    ensures var n := Next(m, AllocBegin(s, op));
            Next(n.(hal := Progress(n.hal, device)), AllocEnd(s, waited))
            == Put(m, s, Allocated(m.streams[s], m.hal, op, NoWork, true, device, waited).0)
  {
    var n := Next(m, AllocBegin(s, op));
    assert FlushInner(m.streams[s], m.hal, NoWork) == (m.streams[s], m.hal);
    PutTwice(m, s, AllocStart(m.streams[s], m.hal, op), Next(n.(hal := Progress(n.hal, device)), AllocEnd(s, waited)));
  }

  lemma AllocSteps(m: Machine, s: nat, op: Op, device: seq<Action>, waited: bool)
    requires IsOpen(m, s) && !HasPending(m.streams[s])
    ensures Exec(m, Steps(m, Allocate(s, op, NoWork, true, device, waited)))
            == Some(Put(m, s, Allocated(m.streams[s], m.hal, op, NoWork, true, device, waited).0))
  {
    assert FlushFits(m.streams[s], NoWork);
    assert Steps(m, Allocate(s, op, NoWork, true, device, waited)) == AllocateSteps(m, s, op, NoWork, true, device, waited);
    AllocateRun(m, s, op, NoWork, true, device, waited);
  }

  lemma AllocCalled(m: Machine, s: nat, op: Op, device: seq<Action>, waited: bool)
    requires Proper(Alloc(s, op, device, waited)) && Exec(m, [AllocBegin(s, op)] + device + [AllocEnd(s, waited)]).Some?
    ensures Exec(m, Steps(m, Allocate(s, op, NoWork, true, device, waited))) == Exec(m, [AllocBegin(s, op)] + device + [AllocEnd(s, waited)])
  {
    AllocParts(m, s, op, device, waited);
    AllTaken(Next(m, AllocBegin(s, op)), device);
    AllocEnds(m, s, op, device, waited);
    AllocSteps(m, s, op, device, waited);
  }

  lemma MoveCalled(m: Machine, v: Move)
    requires Proper(v) && Exec(m, Actions(v)).Some?
    ensures Exec(m, Steps(m, CallFor(m, v))) == Exec(m, Actions(v))
  {
    match v
    case One(a) =>
      ExecSnoc(m, [], a);
      assert [] + [a] == [a];
      StepCalled(m, a);
    case Alloc(s, op, device, waited) => AllocCalled(m, s, op, device, waited);
  }

  // --- calls that flush first ---

  lemma Joined(a: Action, b: seq<Action>, c: seq<Action>)
    ensures [a] + b + c == [a] + (b + c)
  {
  }

  /** A synchronize is a flush and, if that succeeds, a wait. */
  lemma SynchronizeIsFlushAndWait(m: Machine, s: nat, f: FlushOutcome, steps: seq<Action>, healthy: bool)
    requires IsOpen(m, s) && FlushFits(m.streams[s], f)
    ensures var n := Next(m, Flush(s, f));
            Steps(m, Call.Synchronize(s, f, steps, healthy))
            == Steps(m, FlushNow(s, f)) + if !HasPending(m.streams[s]) || f.Submitted? then Steps(n, WaitNow(s, steps, healthy)) else []
  {
    var ok := SynchronizeOk(m, s, f, steps, healthy);
    Joined(Flush(s, f), Waited(m, s, f, FlushOk(f), steps), if ok then [Wait(s)] else []);
    assert [] + [Wait(s)] == [Wait(s)];
  }

  /** A `wait_on` is a flush and, if that succeeds and the barrier is submitted, the barrier. */
  lemma WaitOnIsFlushAndBarrier(m: Machine, s: nat, p: Point, f: FlushOutcome, submitted: bool)
    requires IsOpen(m, s) && FlushFits(m.streams[s], f) && p.sem < |m.hal.sems|
    ensures Steps(m, Await(s, p, f, submitted))
            == Steps(m, FlushNow(s, f)) + if (!HasPending(m.streams[s]) || f.Submitted?) && submitted then [WaitOn(s, p)] else []
  {
  }

  /** The last release is a flush, a wait whose status is dropped, and the end of the stream. */
  lemma DropIsFlushWaitEnd(m: Machine, s: nat, f: FlushOutcome, steps: seq<Action>, healthy: bool)
    requires IsOpen(m, s) && FlushFits(m.streams[s], f)
    ensures var n := Next(m, Flush(s, f));
            Steps(m, DropLast(s, f, steps, healthy))
            == Steps(m, FlushNow(s, f)) + (if n.streams[s].timepoint > 0 then Steps(n, WaitNow(s, steps, false)) else []) + [Drop(s)]
  {
    var n := Next(m, Flush(s, f));
    assert Taken(n.hal, steps) + [] == Taken(n.hal, steps);
  }

  /** An allocation is a flush and, if that succeeds and the allocation is submitted, the allocation of an
      idle stream. */
  lemma AllocateIsFlushAndAlloc(m: Machine, s: nat, op: Op, f: FlushOutcome, submitted: bool, steps: seq<Action>, healthy: bool)
    requires IsOpen(m, s) && FlushFits(m.streams[s], f)
    ensures var n := Next(m, Flush(s, f));
            Steps(m, Call.Allocate(s, op, f, submitted, steps, healthy))
            == Steps(m, FlushNow(s, f))
               + if (!HasPending(m.streams[s]) || f.Submitted?) && submitted then Steps(n, Call.Allocate(s, op, NoWork, true, steps, healthy))[1..] else []
  {
  }

  /** Every run of the machine is made by calls: the objects reach every state that it reaches. */
  lemma {:induction false} EveryRunCallable(moves: seq<Move>) returns (calls: seq<Call>)
    requires Exec(START, Flat(moves)).Some? && forall k :: 0 <= k < |moves| ==> Proper(moves[k])
    ensures Exec(START, Trace(calls)) == Exec(START, Flat(moves))
    decreases |moves|
  {
    calls := [];
    if moves != [] {
      var before, v := moves[..|moves| - 1], moves[|moves| - 1];
      ExecAppend(START, Flat(before), Actions(v));
      var first := EveryRunCallable(before);
      var m := Exec(START, Flat(before)).value;
      MoveCalled(m, v);
      calls := first + [CallFor(m, v)];
      assert calls[..|calls| - 1] == first;
      ExecAppend(START, Trace(first), Steps(m, CallFor(m, v)));
    }
  }
}
