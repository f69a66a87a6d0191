/** Exactly when the device executes what the calls reported, given that a recording call may fail after its
    operation was recorded: such an operation does harm only once its command buffer is submitted. */
module Fences {
  import opened Wrappers
  import opened Timeline
  import opened Chain
  import opened Refinement
  import opened Failures

  /** Operations left unfenced in the command buffer that is now installed. */
  function LooseAfter(loose: nat, a: Action, s: nat): nat {
    match a
    case Record(x, _, FenceFailed) => if x == s then loose + 1 else loose
    case Flush(x, Submitted) => if x == s then 0 else loose
    case Drop(x) => if x == s then 0 else loose
    case _ => loose
  }

  function Loose(actions: seq<Action>, s: nat): nat {
    if actions == [] then 0 else LooseAfter(Loose(actions[..|actions| - 1], s), actions[|actions| - 1], s)
  }

  /** Operations left unfenced in command buffers that were submitted or dropped. */
  lemma {:induction false} LooseAtMost(actions: seq<Action>, s: nat)
    ensures Loose(actions, s) <= Unfenced(actions, s)
    decreases |actions|
  {
    if actions != [] {
      LooseAtMost(actions[..|actions| - 1], s);
    }
  }

  // --- what the installed command buffer holds ---

  ghost predicate Installed(st: Stream, loose: nat) {
    (st.pending.None? ==> loose == 0) && (!st.hasWork ==> Ops(PendingCmds(st), |PendingCmds(st)|) == loose)
  }

  lemma StepInstalled(m: Machine, a: Action, s: nat, loose: nat)
    requires Enabled(m, a) && s < |m.streams| && Installed(m.streams[s], loose)
    ensures Installed(Next(m, a).streams[s], LooseAfter(loose, a, s))
  {
    if (a.Record? || a.Barrier?) && a.s == s {
      RecordCounts(m.streams[s], m.hal, if a.Record? then a.op else Alloca(0), a.r);
    }
  }

  // --- no submission holds an unfenced operation ---

  /** Submissions are fenced and ran in order; with nothing loose the whole pipeline holds, and with
      something loose and no reported work in the command buffer, what was accepted was submitted. */
  ghost predicate Clean(m: Machine, s: nat, accepted: seq<Op>, loose: nat) {
    && s < |m.streams| && Outflow(m.hal.tasks, m.hal.log, s)
    && (loose == 0 ==> Intake(m.streams[s], m.hal.tasks, s, accepted))
    && (loose > 0 && !m.streams[s].hasWork ==> m.streams[s].phase.Closed? || OwnOps(m.hal.tasks, |m.hal.tasks|, s) == accepted)
  }

  /** The machine without the installed command buffer of stream `s`. */
  function Bare(m: Machine, s: nat): Machine
    requires s < |m.streams|
  {
    m.(streams := m.streams[s := m.streams[s].(pending := None, hasWork := false)])
  }

  /** The call submits or runs something other than the installed command buffer of stream `s`. */
  predicate Elsewhere(m: Machine, a: Action, s: nat) {
    match a
    case Run(_, _) => true
    case Finish(_) => true
    case WaitOn(x, _) => x == s ==> s < |m.streams| && !HasPending(m.streams[s])
    case AllocBegin(x, _) => x == s ==> s < |m.streams| && !HasPending(m.streams[s])
    case Flush(x, _) => x != s
    case Record(x, _, _) => x != s
    case Barrier(x, _) => x != s
    case _ => false
  }

  lemma BareStep(m: Machine, a: Action, s: nat)
    requires s < |m.streams| && Enabled(m, a) && Elsewhere(m, a, s)
    ensures Enabled(Bare(m, s), a) && Next(Bare(m, s), a).hal == Next(m, a).hal
  {
  }

  lemma BareWellFormed(m: Machine, s: nat)
    requires WellFormed(m) && Chained(m, s)
    ensures WellFormed(Bare(m, s)) && Chained(Bare(m, s), s)
  {
    var o := Bare(m, s);
    forall t | 0 <= t < |o.hal.tasks| ensures TaskWellFormed(o, o.hal.tasks[t]) {
      assert TaskWellFormed(m, m.hal.tasks[t]);
    }
  }

  lemma ElsewhereClean(m: Machine, a: Action, s: nat, accepted: seq<Op>, loose: nat)
    requires WellFormed(m) && Chained(m, s) && Clean(m, s, accepted, loose) && loose > 0
    requires Enabled(m, a) && Elsewhere(m, a, s)
    ensures Clean(Next(m, a), s, Accept(accepted, a, s), LooseAfter(loose, a, s))
  {
    var o, ops := Bare(m, s), OwnOps(m.hal.tasks, |m.hal.tasks|, s);
    BareWellFormed(m, s);
    BareStep(m, a, s);
    assert Pipeline(o, s, ops);
    StepKeepsPipeline(o, a, s, ops);
    StepMonotone(m, a);
    BareIntake(m, a, s, ops);
  }

  /** What the step adds to the submitted operations is what it adds to the accepted ones. */
  lemma BareIntake(m: Machine, a: Action, s: nat, ops: seq<Op>)
    requires s < |m.streams| && Enabled(m, a) && Elsewhere(m, a, s) && Enabled(Bare(m, s), a) && Next(Bare(m, s), a).hal == Next(m, a).hal
    requires Pipeline(Next(Bare(m, s), a), s, Accept(ops, a, s))
    ensures var n := Next(m, a);
            && n.streams[s].hasWork == m.streams[s].hasWork && (n.streams[s].phase.Closed? <==> m.streams[s].phase.Closed?)
            && (m.streams[s].phase.Closed? || OwnOps(n.hal.tasks, |n.hal.tasks|, s) == Accept(ops, a, s))
  {
    var o := Next(Bare(m, s), a);
    assert PendingCmds(o.streams[s]) == [];
  }

  lemma OwnCallClean(m: Machine, a: Action, s: nat, accepted: seq<Op>, loose: nat)
    requires Clean(m, s, accepted, loose) && loose > 0 && Enabled(m, a) && !Elsewhere(m, a, s) && a != Flush(s, Submitted)
    ensures Clean(Next(m, a), s, Accept(accepted, a, s), LooseAfter(loose, a, s))
  {
  }

  lemma FirstLoose(m: Machine, a: Action, s: nat, accepted: seq<Op>)
    requires Clean(m, s, accepted, 0) && Enabled(m, a) && a.Record? && a.s == s && a.r.FenceFailed?
    ensures Clean(Next(m, a), s, accepted, 1)
  {
    var cmds := PendingCmds(m.streams[s]);
    if !m.streams[s].hasWork {
      AddNoOps(OwnOps(m.hal.tasks, |m.hal.tasks|, s), cmds, |cmds|);
    }
  }

  /** Every step but the submission of a command buffer with an unfenced operation keeps it so. */
  lemma StepKeepsClean(m: Machine, a: Action, s: nat, accepted: seq<Op>, loose: nat)
    requires WellFormed(m) && Chained(m, s) && Clean(m, s, accepted, loose) && Enabled(m, a)
    requires !(a == Flush(s, Submitted) && loose > 0)
    ensures Clean(Next(m, a), s, Accept(accepted, a, s), LooseAfter(loose, a, s))
  {
    if loose == 0 {
      if a.Record? && a.s == s && a.r.FenceFailed? {
        FirstLoose(m, a, s, accepted);
      } else {
        StepKeepsPipeline(m, a, s, accepted);
      }
    } else if Elsewhere(m, a, s) {
      ElsewhereClean(m, a, s, accepted, loose);
    } else {
      OwnCallClean(m, a, s, accepted, loose);
    }
  }

  // --- whole runs ---

  lemma {:induction false} NothingLoose(actions: seq<Action>, s: nat)
    requires Unfenced(actions, s) == 0
    ensures Loose(actions, s) == 0
    decreases |actions|
  {
    if actions != [] {
      NothingLoose(actions[..|actions| - 1], s);
    }
  }

  lemma {:induction false} ReachableInstalled(actions: seq<Action>, s: nat)
    requires Exec(START, actions).Some? && s < |Exec(START, actions).value.streams|
    ensures Installed(Exec(START, actions).value.streams[s], Loose(actions, s))
    decreases |actions|
  {
    var k := |actions| - 1;
    var m := Exec(START, actions[..k]).value;
    if s < |m.streams| {
      ReachableInstalled(actions[..k], s);
      StepInstalled(m, actions[k], s, Loose(actions[..k], s));
    } else {
      NothingUnfenced(actions[..k], s);
      NothingLoose(actions[..k], s);
    }
  }

  /** As long as no unfenced operation was submitted, the submissions are clean. */
  lemma {:induction false} ReachableClean(actions: seq<Action>, s: nat)
    requires Exec(START, actions).Some? && OrderlyRun(actions, s) && s < |Exec(START, actions).value.streams|
    requires Unfenced(actions, s) == Loose(actions, s)
    ensures Clean(Exec(START, actions).value, s, Accepted(actions, s), Loose(actions, s))
    decreases |actions|
  {
    var k := |actions| - 1;
    var m, a := Exec(START, actions[..k]).value, actions[k];
    ReachableWellFormed(actions[..k]);
    LooseAtMost(actions[..k], s);
    if s < |m.streams| {
      ReachableClean(actions[..k], s);
      ReachableChained(actions[..k], s);
      StepKeepsClean(m, a, s, Accepted(actions[..k], s), Loose(actions[..k], s));
    } else {
      NothingAccepted(actions[..k], s);
      NothingUnfenced(actions[..k], s);
      NewPipeline(m, s);
    }
  }

  /** Exact condition, in every state in which a synchronize succeeded: the device executed exactly the
      operations whose calls succeeded, in program order, if and only if every operation whose call failed
      at its ordering barrier still sits in the installed command buffer. */
  lemma FencesExact(actions: seq<Action>, s: nat)
    requires Exec(START, actions).Some? && OrderlyRun(actions, s) && Synchronized(Exec(START, actions).value, s)
    ensures var m := Exec(START, actions).value;
            && (Project(m.hal.log, s) == Accepted(actions, s) <==>
                  Unfenced(actions, s) == Ops(PendingCmds(m.streams[s]), |PendingCmds(m.streams[s])|))
            && (m.streams[s].pending.None? ==> (Project(m.hal.log, s) == Accepted(actions, s) <==> FencedRun(actions, s)))
  {
    var m := Exec(START, actions).value;
    SynchronizedAllRan(actions, s);
    ReachableInstalled(actions, s);
    ReachableCounted(actions, s);
    DoneAtLeast(m.hal.tasks, |m.hal.tasks|, s);
    LooseAtMost(actions, s);
    UnfencedIsFailure(actions, s);
    if Unfenced(actions, s) == Loose(actions, s) {
      ReachableClean(actions, s);
      CleanExecutes(m, s, Accepted(actions, s), Loose(actions, s));
    }
  }

  lemma CleanExecutes(m: Machine, s: nat, accepted: seq<Op>, loose: nat)
    requires Clean(m, s, accepted, loose) && Synchronized(m, s) && Installed(m.streams[s], loose)
    requires forall i :: 0 <= i < |m.hal.tasks| && m.hal.tasks[i].owner == s ==> AllRan(m.hal.tasks[i])
    ensures Project(m.hal.log, s) == accepted
  {
    AllRanOps(m.hal.tasks, |m.hal.tasks|, s);
    var cmds := PendingCmds(m.streams[s]);
    if loose == 0 {
      AddNoOps(OwnOps(m.hal.tasks, |m.hal.tasks|, s), cmds, |cmds|);
    }
  }
}
