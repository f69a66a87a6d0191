/** Direct queue operations: the command buffer of a fill or copy and the thunk of a host call are
    each released exactly once, by whichever path ends them. */
module QueueOps {

  datatype Status = Ok | InvalidArgument | OutOfMemory | HalError

  type Point = (nat, nat)

  datatype Op = Fill(target: nat, offset: nat, length: nat, pattern: nat)
              | Copy(source: nat, sourceOffset: nat, target: nat, targetOffset: nat, length: nat)

  datatype Work = Commands(op: Op) | HostCall(thunk: nat)

  /** What the device queue was given. */
  datatype Submission = Submission(waits: seq<Point>, signals: seq<Point>, work: Work)

  datatype Thunk = Thunk(callback: nat, userData: nat)

  const MAX_SEMAPHORES := 16

  /** A client's semaphore list: parallel arrays that must fit the fixed ones. */
  datatype SemaphoreList = SemaphoreList(semaphores: seq<nat>, values: seq<nat>)

  predicate Fits(list: SemaphoreList) {
    |list.semaphores| == |list.values| <= MAX_SEMAPHORES
  }

  /** The semaphore and value pairs, in the client's order. */
  function Points(list: SemaphoreList): seq<Point>
    requires Fits(list)
  {
    seq(|list.values|, i requires 0 <= i < |list.values| => (list.semaphores[i], list.values[i]))
  }

  class Queue {
    /** Decides call by call whether a fallible HAL step succeeds. */
    const script: nat -> bool
    var calls: nat
    /** Live command buffers, the releases so far, and the next id. */
    var commandBuffers: set<nat>
    var released: seq<nat>
    var nextCommandBuffer: nat
    var submissions: seq<Submission>
    /** Allocated thunks, the thunks freed so far, the thunks queued on the device, and the callbacks run. */
    var thunks: map<nat, Thunk>
    var freed: seq<nat>
    var queued: set<nat>
    var ran: seq<Thunk>
    var nextThunk: nat

    constructor (script: nat -> bool)
      ensures Valid() && this.script == script && submissions == [] && ran == [] && queued == {} && nextThunk == 0
    {
      this.script := script;
      calls, commandBuffers, released, nextCommandBuffer, submissions := 0, {}, [], 0, [];
      thunks, freed, queued, ran, nextThunk := map[], [], {}, [], 0;
    }

    /** Every command buffer created is alive or was released, once. */
    ghost predicate Released()
      reads this`commandBuffers, this`released, this`nextCommandBuffer
    {
      && (forall cb :: cb in commandBuffers ==> cb < nextCommandBuffer)
      && (forall cb: nat :: cb in released <==> cb < nextCommandBuffer && cb !in commandBuffers)
      && (forall i, j :: 0 <= i < j < |released| ==> released[i] != released[j])
    }

    /** Every thunk allocated is alive or was freed, once. */
    ghost predicate Freed()
      reads this`thunks, this`freed, this`nextThunk
    {
      && (forall t: nat :: t in freed <==> t < nextThunk && t !in thunks)
      && (forall t :: t in thunks ==> t < nextThunk)
      && (forall i, j :: 0 <= i < j < |freed| ==> freed[i] != freed[j])
    }

    /** Between calls no command buffer is outstanding, the live thunks are the queued ones, and everything
        else ever created was let go of once. */
    ghost predicate Valid()
      reads this
    {
      commandBuffers == {} && Released() && thunks.Keys == queued && Freed()
    }

    /** The `n` fallible steps from number `from` on succeed. */
    ghost predicate Succeed(from: nat, n: nat) {
      forall k :: from <= k < from + n ==> script(k)
    }

    method Step() returns (ok: bool)
      modifies this`calls
      ensures ok == script(old(calls)) && calls == old(calls) + 1
    {
      ok := script(calls);
      calls := calls + 1;
    }

    /** Fills the caller's fixed arrays, in order. */
    method ToSemaphoreList(list: SemaphoreList, hal: array<nat>, vals: array<nat>) returns (count: nat)
      requires Fits(list) && hal.Length == vals.Length == MAX_SEMAPHORES && hal != vals
      modifies hal, vals
      ensures count == |list.values| && hal[..count] == list.semaphores && vals[..count] == list.values
    {
      count := |list.semaphores|;
      for i := 0 to count
        invariant hal[..i] == list.semaphores[..i] && vals[..i] == list.values[..i]
      {
        hal[i] := list.semaphores[i];
        vals[i] := list.values[i];
      }
    }

    /** The pairs that a submission with these arrays waits on or signals. */
    method View(list: SemaphoreList) returns (points: seq<Point>)
      requires Fits(list)
      ensures points == Points(list)
    {
      var hal, vals := new nat[MAX_SEMAPHORES](_ => 0), new nat[MAX_SEMAPHORES](_ => 0);
      var count := ToSemaphoreList(list, hal, vals);
      assert forall i :: 0 <= i < count ==> hal[i] == hal[..count][i] && vals[i] == vals[..count][i];
      points := seq(count, i requires 0 <= i < count reads hal, vals => (hal[i], vals[i]));
    }

    /** A queue call: the work goes to the device with the client's lists, or nothing does. */
    method Submit(work: Work, waits: SemaphoreList, signals: SemaphoreList) returns (ok: bool)
      requires Fits(waits) && Fits(signals)
      modifies this`calls, this`submissions
      ensures submissions == if ok then old(submissions) + [Submission(Points(waits), Points(signals), work)] else old(submissions)
      ensures ok == script(old(calls)) && calls == old(calls) + 1
    {
      var wl := View(waits);
      var sl := View(signals);
      ok := Step();
      if ok {
        submissions := submissions + [Submission(wl, sl, work)];
      }
    }

    method CreateCommandBuffer() returns (cb: nat)
      requires Released()
      modifies this`commandBuffers, this`nextCommandBuffer
      ensures Released() && cb == old(nextCommandBuffer)
      ensures commandBuffers == old(commandBuffers) + {cb} && nextCommandBuffer == cb + 1
    {
      cb := nextCommandBuffer;
      commandBuffers, nextCommandBuffer := commandBuffers + {cb}, cb + 1;
    }

    /** A release takes a live command buffer and leaves it dead. */
    method ReleaseCommandBuffer(cb: nat)
      requires Released() && cb in commandBuffers
      modifies this`commandBuffers, this`released
      ensures Released() && commandBuffers == old(commandBuffers) - {cb} && released == old(released) + [cb]
    {
      commandBuffers, released := commandBuffers - {cb}, released + [cb];
    }

    /** Begin, record and end; the first failure stops. */
    method RecordCommands() returns (ok: bool)
      modifies this`calls
      ensures ok <==> Succeed(old(calls), 3)
      ensures ok ==> calls == old(calls) + 3
    {
      ok := Step(); // begin
      if !ok {
        return false;
      }
      ok := Step(); // record
      if !ok {
        return false;
      }
      ok := Step(); // end
    }

    /** hrx_queue_fill and hrx_queue_copy: create, begin, record, end, execute, release. */
    method Transfer(op: Op, waits: SemaphoreList, signals: SemaphoreList) returns (status: Status)
      requires Valid() && Fits(waits) && Fits(signals)
      modifies this`calls, this`commandBuffers, this`released, this`nextCommandBuffer, this`submissions
      ensures Valid() && (status == Ok || status == HalError)
      ensures submissions == if status == Ok then old(submissions) + [Submission(Points(waits), Points(signals), Commands(op))] else old(submissions)
      ensures released == if script(old(calls)) then old(released) + [old(nextCommandBuffer)] else old(released)
      ensures status == Ok <==> Succeed(old(calls), 5)
    {
      ghost var first := calls;
      var ok := Step();
      if !ok {
        return HalError;
      }
      var cb := CreateCommandBuffer();
      ok := RecordCommands();
      if !ok {
        ReleaseCommandBuffer(cb);
        return HalError;
      }
      ok := Submit(Commands(op), waits, signals); // execute
      ReleaseCommandBuffer(cb);
      assert Succeed(first, 5) <==> script(first) && Succeed(first + 1, 3) && script(first + 4);
      status := if ok then Ok else HalError;
    }

    method NewThunk(callback: nat, userData: nat) returns (t: nat)
      requires Freed()
      modifies this`thunks, this`nextThunk
      ensures Freed() && t == old(nextThunk) && t !in old(thunks)
      ensures thunks == old(thunks)[t := Thunk(callback, userData)] && nextThunk == t + 1
    {
      t := nextThunk;
      nextThunk := t + 1;
      thunks := thunks[t := Thunk(callback, userData)];
    }

    method Free(t: nat)
      requires Freed() && t in thunks
      modifies this`thunks, this`freed
      ensures Freed() && thunks == old(thunks) - {t} && freed == old(freed) + [t]
    {
      thunks, freed := thunks - {t}, freed + [t];
    }

    /** Allocates a thunk and queues it; a refused submission frees it at once. */
    method QueueHostCall(callback: nat, userData: nat, waits: SemaphoreList, signals: SemaphoreList) returns (status: Status)
      requires Valid() && Fits(waits) && Fits(signals)
      modifies this`calls, this`submissions, this`thunks, this`freed, this`queued, this`nextThunk
      ensures Valid()
      ensures status == Ok ==> queued == old(queued) + {old(nextThunk)} && thunks[old(nextThunk)] == Thunk(callback, userData)
                               && submissions == old(submissions) + [Submission(Points(waits), Points(signals), HostCall(old(nextThunk)))]
      ensures status != Ok ==> queued == old(queued) && thunks == old(thunks) && submissions == old(submissions)
      ensures status == Ok ==> thunks == old(thunks)[old(nextThunk) := Thunk(callback, userData)]
      ensures status == if !script(old(calls)) then OutOfMemory else if !script(old(calls) + 1) then HalError else Ok
      ensures nextThunk == old(nextThunk) + if status == OutOfMemory then 0 else 1
    {
      var ok := Step(); // malloc
      if !ok {
        return OutOfMemory;
      }
      var t := NewThunk(callback, userData);
      ok := Submit(HostCall(t), waits, signals);
      if ok {
        queued := queued + {t};
        return Ok;
      }
      Free(t);
      return HalError;
    }

    /** The device reaches a queued host call: the callback runs on its data and the thunk is freed. */
    method Trampoline(t: nat)
      requires Valid() && t in queued
      modifies this
      ensures Valid() && queued == old(queued) - {t} && thunks == old(thunks) - {t} && freed == old(freed) + [t]
      ensures ran == old(ran) + [old(thunks)[t]] && nextThunk == old(nextThunk) && submissions == old(submissions)
    {
      queued := queued - {t};
      ran := ran + [thunks[t]];
      Free(t);
    }
  }

  datatype Event =
    | Direct(op: Op, waits: SemaphoreList, signals: SemaphoreList)
    | Host(callback: nat, userData: nat, waits: SemaphoreList, signals: SemaphoreList)
    | Device(thunk: nat)

  /** What clients and the device see. */
  datatype Trace = Trace(submissions: seq<Submission>, waiting: map<nat, Thunk>, ran: seq<Thunk>, next: nat)

  /** One event when no step fails: work is submitted as given, and a queued host call runs its callback. */
  function Follow(t: Trace, e: Event): Trace {
    match e
    case Direct(op, waits, signals) =>
      if Fits(waits) && Fits(signals) then t.(submissions := t.submissions + [Submission(Points(waits), Points(signals), Commands(op))]) else t
    case Host(callback, userData, waits, signals) =>
      if Fits(waits) && Fits(signals)
      then Trace(t.submissions + [Submission(Points(waits), Points(signals), HostCall(t.next))],
                 t.waiting[t.next := Thunk(callback, userData)], t.ran, t.next + 1)
      else t
    case Device(thunk) =>
      if thunk in t.waiting then t.(waiting := t.waiting - {thunk}, ran := t.ran + [t.waiting[thunk]]) else t
  }

  function FollowAll(events: seq<Event>, n: nat): Trace
    requires n <= |events|
  {
    if n == 0 then Trace([], map[], [], 0) else Follow(FollowAll(events, n - 1), events[n - 1])
  }

  /** The thunks run are those queued, in the order in which the device reached them, each once. */
  lemma {:induction false} RunOnce(events: seq<Event>, n: nat)
    requires n <= |events|
    ensures FollowAll(events, n).next == |FollowAll(events, n).waiting| + |FollowAll(events, n).ran|
    ensures forall t :: t in FollowAll(events, n).waiting ==> t < FollowAll(events, n).next
  {
    if n > 0 {
      RunOnce(events, n - 1);
    }
  }

  /** Any interleaving of calls and device progress under any pattern of failures: every command buffer
      created was released exactly once, and once no host call is queued every thunk was freed, each once.
      If no step fails, what was submitted and what ran is what the events say. */
  method Drive(script: nat -> bool, events: seq<Event>) returns (q: Queue)
    ensures q.Valid()
    ensures forall cb: nat :: cb < q.nextCommandBuffer <==> cb in q.released
    ensures forall i, j :: 0 <= i < j < |q.released| ==> q.released[i] != q.released[j]
    ensures forall i, j :: 0 <= i < j < |q.freed| ==> q.freed[i] != q.freed[j]
    ensures q.queued == {} ==> q.thunks == map[] && (forall t: nat :: t < q.nextThunk <==> t in q.freed)
    ensures (forall n :: script(n)) ==> Trace(q.submissions, q.thunks, q.ran, q.nextThunk) == FollowAll(events, |events|)
  {
    q := new Queue(script);
    for i := 0 to |events|
      invariant q.Valid() && fresh(q) && q.script == script
      invariant (forall n :: script(n)) ==> Trace(q.submissions, q.thunks, q.ran, q.nextThunk) == FollowAll(events, i)
    {
      match events[i] {
        case Direct(op, waits, signals) =>
          if Fits(waits) && Fits(signals) {
            var _ := q.Transfer(op, waits, signals);
          }
        case Host(callback, userData, waits, signals) =>
          if Fits(waits) && Fits(signals) {
            var _ := q.QueueHostCall(callback, userData, waits, signals);
          }
        case Device(t) =>
          if t in q.queued {
            q.Trampoline(t);
          }
      }
    }
  }
}
