/** Command-buffer lifetimes over all streams, under any pattern of HAL failures. */
module CommandBuffers {
  import opened Wrappers
  import opened Timeline

  function One(b: bool): nat {
    if b then 1 else 0
  }

  /** How often command buffer `id` was released. */
  function Releases(released: seq<nat>, id: nat): nat {
    if released == [] then 0
    else Releases(released[..|released| - 1], id) + One(released[|released| - 1] == id)
  }

  predicate Holds(s: Stream, id: nat) {
    s.pending.Some? && s.pending.value.id == id
  }

  /** How many of the first `n` streams have command buffer `id` installed. */
  function Installed(streams: seq<Stream>, n: nat, id: nat): nat
    requires n <= |streams|
  {
    if n == 0 then 0 else Installed(streams, n - 1, id) + One(Holds(streams[n - 1], id))
  }

  /** A created command buffer is released or installed, exactly once; others are neither. */
  ghost predicate Balanced(m: Machine, id: nat) {
    Releases(m.hal.released, id) + Installed(m.streams, |m.streams|, id) == One(id < m.hal.created)
  }

  lemma ReleaseAppend(released: seq<nat>, cb: nat, id: nat)
    ensures Releases(released + [cb], id) == Releases(released, id) + One(cb == id)
  {
    assert (released + [cb])[..|released|] == released;
  }

  lemma {:induction false} InstalledFrame(streams: seq<Stream>, other: seq<Stream>, n: nat, id: nat)
    requires n <= |streams| && n <= |other| && forall i :: 0 <= i < n ==> streams[i].pending == other[i].pending
    ensures Installed(streams, n, id) == Installed(other, n, id)
  {
    if n > 0 {
      InstalledFrame(streams, other, n - 1, id);
    }
  }

  lemma {:induction false} InstalledUpdate(streams: seq<Stream>, n: nat, s: nat, st: Stream, id: nat)
    requires s < n <= |streams|
    ensures Installed(streams[s := st], n, id) + One(Holds(streams[s], id)) == Installed(streams, n, id) + One(Holds(st, id))
  {
    if s == n - 1 {
      InstalledFrame(streams[s := st], streams, n - 1, id);
    } else {
      InstalledUpdate(streams, n - 1, s, st, id);
    }
  }

  /** One stream's call: what it creates it installs or releases, what it uninstalls it releases. */
  ghost predicate CallBalanced(s: Stream, h: Hal, r: (Stream, Hal), id: nat) {
    Releases(r.1.released, id) + One(Holds(r.0, id)) + One(id < h.created)
    == Releases(h.released, id) + One(Holds(s, id)) + One(id < r.1.created)
  }

  lemma BeginBalanced(s: Stream, h: Hal, r: RecordOutcome, id: nat)
    ensures CallBalanced(s, h, BeginCb(s, h, r), id)
  {
    ReleaseAppend(h.released, h.created, id);
  }

  lemma RecordBalanced(s: Stream, h: Hal, op: Op, r: RecordOutcome, id: nat)
    ensures CallBalanced(s, h, RecordOp(s, h, op, r), id)
    ensures CallBalanced(s, h, RecordFence(s, h, r), id)
  {
    BeginBalanced(s, h, r, id);
  }

  /** Submission and teardown release what was installed. */
  lemma ReleaseBalanced(s: Stream, h: Hal, f: FlushOutcome, id: nat)
    ensures CallBalanced(s, h, FlushInner(s, h, f), id)
    ensures CallBalanced(s, h, DropStream(s, h), id)
  {
    if s.pending.Some? {
      ReleaseAppend(h.released, s.pending.value.id, id);
    }
  }

  lemma PutBalanced(m: Machine, s: nat, r: (Stream, Hal), id: nat)
    requires Balanced(m, id) && s < |m.streams| && CallBalanced(m.streams[s], m.hal, r, id)
    ensures Balanced(Put(m, s, r), id)
  {
    InstalledUpdate(m.streams, |m.streams|, s, r.0, id);
  }

  lemma StepBalanced(m: Machine, a: Action, id: nat)
    requires Balanced(m, id) && Enabled(m, a)
    ensures Balanced(Next(m, a), id)
  {
    var h := m.hal;
    match a
    case CreateStream => InstalledFrame(Next(m, a).streams, m.streams, |m.streams|, id);
    case Record(s, op, r) =>
      RecordBalanced(m.streams[s], h, op, r, id);
      PutBalanced(m, s, RecordOp(m.streams[s], h, op, r), id);
    case Barrier(s, r) =>
      RecordBalanced(m.streams[s], h, Alloca(0), r, id);
      PutBalanced(m, s, RecordFence(m.streams[s], h, r), id);
    case Flush(s, f) =>
      ReleaseBalanced(m.streams[s], h, f, id);
      PutBalanced(m, s, FlushInner(m.streams[s], h, f), id);
    case WaitOn(s, p) => PutBalanced(m, s, WaitOnPoint(m.streams[s], h, p), id);
    case Advance(s) => PutBalanced(m, s, (m.streams[s].(timepoint := m.streams[s].timepoint + 1), h), id);
    case AllocBegin(s, op) => PutBalanced(m, s, AllocStart(m.streams[s], h, op), id);
    case AllocEnd(s, waited) => PutBalanced(m, s, (AllocFinish(m.streams[s], waited), h), id);
    case Drop(s) =>
      ReleaseBalanced(m.streams[s], h, NoWork, id);
      PutBalanced(m, s, DropStream(m.streams[s], h), id);
    case _ =>
  }

  lemma {:induction false} ReachableBalanced(actions: seq<Action>, id: nat)
    requires Exec(START, actions).Some?
    ensures Balanced(Exec(START, actions).value, id)
    decreases |actions|
  {
    if actions != [] {
      var k := |actions| - 1;
      ReachableBalanced(actions[..k], id);
      StepBalanced(Exec(START, actions[..k]).value, actions[k], id);
    }
  }

  lemma {:induction false} InstalledCount(streams: seq<Stream>, n: nat, id: nat)
    requires n <= |streams|
    ensures Installed(streams, n, id) == 0 <==> forall s :: 0 <= s < n ==> !Holds(streams[s], id)
  {
    if n > 0 {
      InstalledCount(streams, n - 1, id);
    }
  }

  lemma {:induction false} ClosedHoldNothing(actions: seq<Action>)
    requires Exec(START, actions).Some?
    ensures var m := Exec(START, actions).value;
            forall s :: 0 <= s < |m.streams| && m.streams[s].phase.Closed? ==> m.streams[s].pending.None?
    decreases |actions|
  {
    if actions != [] {
      ClosedHoldNothing(actions[..|actions| - 1]);
    }
  }

  /** Whatever fails, in every reachable state a command buffer was released at most once; it was
      released exactly once when it was created and no stream holds it any more, and not at all
      while some stream holds it; no stream holds one that was never created, and a dropped stream
      holds none. */
  lemma ReleasedExactlyOnce(actions: seq<Action>, id: nat)
    requires Exec(START, actions).Some?
    ensures var m := Exec(START, actions).value;
            var held := exists s :: 0 <= s < |m.streams| && Holds(m.streams[s], id);
            && Releases(m.hal.released, id) == One(id < m.hal.created && !held)
            && (held ==> id < m.hal.created)
            && (forall s :: 0 <= s < |m.streams| && m.streams[s].phase.Closed? ==> !Holds(m.streams[s], id))
  {
    var m := Exec(START, actions).value;
    ReachableBalanced(actions, id);
    InstalledCount(m.streams, |m.streams|, id);
    ClosedHoldNothing(actions);
  }
}
