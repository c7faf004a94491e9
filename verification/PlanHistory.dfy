/** An event over time: failed is terminal until an admin names it, and a running Job keeps its clock. */
module PlanHistory {
  import opened Prelude
  import opened Naming
  import opened NodeDrain
  import opened RecoveryEvents
  import opened Detection
  import opened DetectionRules
  import opened Approvals
  import opened ApprovalRules
  import opened DrainRules
  import opened Reconciler
  import opened Runs
  import opened PlanRuns

  // ---------------------------------------------------------------- through one pass

  /** Entry i of a pass, where approvals had nothing to do with it and it was not draining. */
  lemma PassedBy(op: Operator, p: Pass, i: nat)
    requires ValidPass(op, p) && i < |p.detected| && p.outcomes[i] == Skipped && p.detected[i].state != Draining
    ensures p.drained[i] == p.approved[i] == p.detected[i]
  {
    PassKeepsKeys(op, p);
    PhaseFacts(CtxOf(op, p), p.detected, p.inputs.approvals, p.approved, p.outcomes, i);
  }

  lemma DecidedAt(op: Operator, p: Pass, i: nat)
    requires ValidPass(op, p) && i < |p.detected|
    ensures |p.approved| == |p.outcomes| == |p.detected|
    ensures ApproveEvent(CtxOf(op, p), Standing(p.detected, p.approved, i), p.detected[i], p.inputs.approvals(i))
      == (p.approved[i], p.outcomes[i])
  {
    assert Decided(CtxOf(op, p), Standing(p.detected, p.approved, i), p.detected[i], p.inputs.approvals(i),
                   p.approved[i], p.outcomes[i]);
  }

  // ---------------------------------------------------------------- failed is terminal

  ghost predicate NamedBy(approvals: seq<Approval>, id: string) {
    exists a :: a in approvals && !a.consumed && a.eventId == id
  }

  /** A pass over a failed event nobody names, and for which nothing more severe is published. */
  lemma UnnamedStaysFailed(op: Operator, p: Pass, i: nat)
    requires ValidPass(op, p) && i < |p.detected| && p.detected[i].state == Failed
    requires !NamedBy(p.approvals, p.detected[i].id)
    ensures |p.synced| == |p.detected| && p.synced[i] == p.detected[i]
  {
    DecidedAt(op, p, i);
    FailedWakesExactlyWhen(CtxOf(op, p), Standing(p.detected, p.approved, i), p.detected[i], p.inputs.approvals(i));
    PassedBy(op, p, i);
  }

  lemma ReflashStays(op: Operator, p: Pass, i: nat)
    requires ValidPass(op, p) && TypedOverrides(p.approvals) && i < |p.detected| && p.detected[i].rtype == Reflash
    ensures |p.synced| == |p.detected| && p.synced[i].rtype == Reflash
  {
    PassKeepsKeys(op, p);
    DecidedAt(op, p, i);
    ApprovedExactly(CtxOf(op, p), Standing(p.detected, p.approved, i), p.detected[i], p.inputs.approvals(i));
    FailedType(CtxOf(op, p), Standing(p.detected, p.approved, i), p.detected[i], p.inputs.approvals(i));
  }

  lemma FailedType(c: Ctx, events: seq<Event>, e: Event, i: ApprovalInput)
    ensures var (r, o) := ApproveEvent(c, events, e, i); o.NoApproval? ==> r.rtype == e.rtype
  {
    if Admitted(c, e).Some? {
      AdmittedFacts(c, e);
      var w := Admitted(c, e).value;
      var m := FirstCover(c.approvals, w, i.labels, 0);
      if m.Some? {
        var a := c.approvals[m.value];
        var ready := ApplyOverride(RecordApproval(w, a, c.now), a);
        AuthoriseOutcome(c, NodeBusy(events, w.id, w.key.node), ready, a, i);
      }
    }
  }

  /** The step is a pass that read an unspent approval naming the event, and its status was written. */
  ghost predicate Wakes(s: Server, step: Step, id: string) {
    step.Reconcile? && step.statusWritten && NamedBy(s.approvals, id)
  }

  lemma EscalatedIsReflash(op: Operator, spec: PlanSpec, events: seq<Event>, seen: Seen, e: Event, i: nat)
    requires Detects(op, spec, events, seen) && StatusOk(op, events) && e in events
    requires i < |seen.detected| && seen.detected[i].key == e.key
    ensures seen.detected[i] == e || (seen.detected[i].rtype == Reflash != e.rtype)
    ensures e.state == InProgress ==> seen.detected[i] == e
  {
    var j :| 0 <= j < |events| && events[j] == e;
    DetectedExactly(op, spec, seen.slices, seen.needs, events, seen.detected, seen.at, i);
    if e.state != InProgress && Overtaken(spec, seen.slices, e) {
      var t :| NeedIs(spec, seen.slices, e.key, t) && Outranks(t, e.rtype);
      assert IsEscalated(op, e, t, seen.at, seen.detected[i]);
    }
  }

  lemma FailedReconcile(op: Operator, p: Pass, e: Event, i: nat)
    requires ValidPass(op, p) && StatusOk(op, p.events) && TypedOverrides(p.approvals)
    requires e in p.events && e.state == Failed && i < |p.synced| && p.synced[i].key == e.key
    requires (p.synced[i].rtype == Reflash <==> e.rtype == Reflash) && !NamedBy(p.approvals, e.id)
    ensures p.synced[i] == e
  {
    PassKeepsKeys(op, p);
    EscalatedIsReflash(op, p.spec, p.events, SeenBy(p), e, i);
    if p.detected[i] == e {
      UnnamedStaysFailed(op, p, i);
    } else {
      ReflashStays(op, p, i);
    }
  }

  lemma FailedDetected(op: Operator, spec: PlanSpec, events: seq<Event>, seen: Seen, e: Event, e': Event)
    requires Detects(op, spec, events, seen) && StatusOk(op, events) && e in events
    requires e' in seen.detected && e'.key == e.key && (e'.rtype == Reflash <==> e.rtype == Reflash)
    ensures e' == e
  {
    var i :| 0 <= i < |seen.detected| && seen.detected[i] == e';
    EscalatedIsReflash(op, spec, events, seen, e, i);
  }

  lemma FailedStands(op: Operator, name: string, s: Server, step: Step, s': Server, e: Event, e': Event)
    requires Next(op, name, s, step, s') && InOrder(op, s)
    requires e in s.events && e' in s'.events && e.key == e'.key && e.state == Failed
    requires e'.rtype == Reflash <==> e.rtype == Reflash
    ensures e' == e || Wakes(s, step, e.id)
  {
    match step
    case Edit =>
    case Stopped(seen, statusWritten, _) =>
      if statusWritten {
        FailedDetected(op, s.spec, s.events, seen, e, e');
      }
    case Reconcile(p, statusWritten, _, _) =>
      if statusWritten && !NamedBy(s.approvals, e.id) {
        var i :| 0 <= i < |p.synced| && p.synced[i] == e';
        FailedReconcile(op, p, e, i);
      }
  }

  /**
   A failed event that is neither escalated nor removed stands as it is, until a pass reads an unspent approval
   that names it. No group approval, edit or lost write ever moves it.
   */
  lemma FailedIsTerminal(op: Operator, name: string, states: seq<Server>, steps: seq<Step>,
                         key: DeviceKey, m: nat, line: seq<Event>, n: nat)
    requires Run(op, name, states, steps) && n < |line| && m + |line| <= |states|
    requires forall k :: 0 <= k < |line| ==> EventFor(states[m + k].events, key, line[k])
    requires line[0].state == Failed
    requires forall k :: 0 <= k < |line| ==> (line[k].rtype == Reflash <==> line[0].rtype == Reflash)
    ensures line[n] == line[0] || exists k :: m <= k < m + n && Wakes(states[k], steps[k], line[0].id)
  {
    var next, e := (s, t, s') => Next(op, name, s, t, s'), line[0];
    var at := (s: Server, x: Event) => EventFor(s.events, key, x) && (x.rtype == Reflash <==> e.rtype == Reflash);
    OrderIsInductive(op, name);
    forall s, t, s', e' | InOrder(op, s) && next(s, t, s') && at(s, e) && at(s', e')
      ensures e' == e || Wakes(s, t, e.id)
    {
      FailedStands(op, name, s, t, s', e, e');
    }
    StandsUntil(next, s => InOrder(op, s), at, (s, t) => Wakes(s, t, e.id), states, steps, m, line, n);
  }

  // ---------------------------------------------------------------- a running Job keeps its clock

  /** The Job of an event that was not running: named for this attempt, its clock set when it was started. */
  lemma JobClockStarts(op: Operator, p: Pass, i: nat)
    requires ValidPass(op, p) && TypedOverrides(p.approvals) && i < |p.detected| == |p.synced|
    requires p.synced[i].state == InProgress && p.detected[i].state != InProgress
    ensures var e := p.synced[i];
      && e.jobName == op.names.job(e.id, |e.pastJobs|) && e.pastJobs == p.detected[i].pastJobs
      && |p.approved| == |p.detected|
      && e.lastUpdated == Some(if p.approved[i].state == InProgress then p.inputs.approvedAt else p.inputs.drainedAt)
  {
    PassKeepsKeys(op, p);
    DecidedAt(op, p, i);
    ApprovedExactly(CtxOf(op, p), Standing(p.detected, p.approved, i), p.detected[i], p.inputs.approvals(i));
    PhaseFacts(CtxOf(op, p), p.detected, p.inputs.approvals, p.approved, p.outcomes, i);
    if p.approved[i].state == Draining {
      DrainMovesExactly(op, p.spec, p.approved[i], DrainInputOf(p, i), p.inputs.drainedAt);
      DrainRecords(op, p.spec, p.approved[i], DrainInputOf(p, i), p.inputs.drainedAt);
    }
    SyncedStands(p.spec, p.drained[i], p.inputs.jobs(i), p.inputs.syncedAt);
  }

  lemma SyncedStands(spec: PlanSpec, e: Event, read: JobRead, now: Time)
    ensures var s := SyncEvent(spec, e, read, now); s.state == InProgress ==> s == e
  {
  }

  lemma RunningPass(op: Operator, p: Pass, i: nat)
    requires ValidPass(op, p) && TypedOverrides(p.approvals) && i < |p.detected| == |p.synced|
    requires p.detected[i].state == InProgress && p.synced[i].state == InProgress
    ensures p.synced[i] == p.detected[i]
    ensures p.detected[i].jobName != "" ==> !OutOfTime(p.spec, p.detected[i], p.inputs.jobs(i), p.inputs.syncedAt)
  {
    DecidedAt(op, p, i);
    OutcomeExactly(CtxOf(op, p), Standing(p.detected, p.approved, i), p.detected[i], p.inputs.approvals(i));
    PassedBy(op, p, i);
    SyncedStands(p.spec, p.drained[i], p.inputs.jobs(i), p.inputs.syncedAt);
    if p.detected[i].jobName != "" {
      JobKeepsItsDeadline(p.spec, p.drained[i], p.inputs.jobs(i), p.inputs.syncedAt);
    }
  }

  /** A stored pass read the Job of this running event before it was out of time. */
  ghost predicate ReadInTime(step: Step, e: Event) {
    step.Reconcile? && step.statusWritten ==> forall i ::
      0 <= i < |step.pass.detected| && step.pass.detected[i].key == e.key ==>
        !OutOfTime(step.pass.spec, e, step.pass.inputs.jobs(i), step.pass.inputs.syncedAt)
  }

  ghost predicate RunningFor(events: seq<Event>, key: DeviceKey, e: Event) {
    e in events && e.key == key && e.state == InProgress
  }

  lemma RunningReconcile(op: Operator, p: Pass, e: Event, j: nat)
    requires ValidPass(op, p) && StatusOk(op, p.events) && TypedOverrides(p.approvals)
    requires e in p.events && e.state == InProgress
    requires j < |p.synced| && p.synced[j].key == e.key && p.synced[j].state == InProgress
    ensures p.synced[j] == e
    ensures e.jobName != "" ==> forall i :: 0 <= i < |p.detected| && p.detected[i].key == e.key ==>
      !OutOfTime(p.spec, e, p.inputs.jobs(i), p.inputs.syncedAt)
  {
    PassKeepsKeys(op, p);
    EscalatedIsReflash(op, p.spec, p.events, SeenBy(p), e, j);
    RunningPass(op, p, j);
    assert UniqueKeys(p.detected) && p.detected[j].key == e.key;
  }

  lemma RunningDetected(op: Operator, spec: PlanSpec, events: seq<Event>, seen: Seen, e: Event, e': Event)
    requires Detects(op, spec, events, seen) && StatusOk(op, events) && e in events && e.state == InProgress
    requires e' in seen.detected && e'.key == e.key
    ensures e' == e
  {
    var i :| 0 <= i < |seen.detected| && seen.detected[i] == e';
    EscalatedIsReflash(op, spec, events, seen, e, i);
  }

  lemma RunningStands(op: Operator, name: string, s: Server, step: Step, s': Server, e: Event, e': Event)
    requires Next(op, name, s, step, s') && InOrder(op, s)
    requires e in s.events && e' in s'.events && e.key == e'.key && e.state == e'.state == InProgress
    ensures e' == e && (e.jobName != "" ==> ReadInTime(step, e))
  {
    match step
    case Edit =>
    case Stopped(seen, statusWritten, _) =>
      if statusWritten {
        RunningDetected(op, s.spec, s.events, seen, e, e');
      }
    case Reconcile(p, statusWritten, _, _) =>
      if statusWritten {
        var j :| 0 <= j < |p.synced| && p.synced[j] == e';
        RunningReconcile(op, p, e, j);
      }
  }

  lemma RunningLine(op: Operator, name: string, states: seq<Server>, steps: seq<Step>,
                    key: DeviceKey, m: nat, line: seq<Event>, n: nat)
    requires Run(op, name, states, steps) && n < |line| && m + |line| <= |states|
    requires forall k :: 0 <= k < |line| ==> RunningFor(states[m + k].events, key, line[k])
    ensures line[n] == line[0]
  {
    var next, e := (s, t, s') => Next(op, name, s, t, s'), line[0];
    var at := (s: Server, x: Event) => RunningFor(s.events, key, x);
    OrderIsInductive(op, name);
    forall s, t, s', e' | InOrder(op, s) && next(s, t, s') && at(s, e) && at(s', e') ensures e' == e {
      RunningStands(op, name, s, t, s', e, e');
    }
    StandsUntil(next, s => InOrder(op, s), at, (s, t) => false, states, steps, m, line, n);
  }

  lemma StepAt(op: Operator, name: string, states: seq<Server>, steps: seq<Step>, k: nat)
    requires Run(op, name, states, steps) && k < |steps|
    ensures Next(op, name, states[k], steps[k], states[k + 1])
  {
    var next := (s, t, s') => Next(op, name, s, t, s');
    assert next(states[k], steps[k], states[k + 1]);
  }

  /**
   While it stays in progress an event does not change at all: one Job, one clock, whatever is edited meanwhile.
   So every stored pass that read the Job came in time, counted from when it was started.
   */
  lemma JobRunsAgainstOneClock(op: Operator, name: string, states: seq<Server>, steps: seq<Step>,
                               key: DeviceKey, m: nat, line: seq<Event>, n: nat)
    requires GoodScheme(op.names) && Run(op, name, states, steps) && n < |line| && m + |line| <= |states|
    requires forall k :: 0 <= k < |line| ==> RunningFor(states[m + k].events, key, line[k])
    ensures line[n] == line[0]
    ensures 0 < n ==> ReadInTime(steps[m + n - 1], line[0])
  {
    RunningLine(op, name, states, steps, key, m, line, n);
    if n > 0 {
      RunningLine(op, name, states, steps, key, m, line, n - 1);
      var k := m + n - 1;
      assert RunningFor(states[m + (n - 1)].events, key, line[n - 1]) && RunningFor(states[m + n].events, key, line[n]);
      ReachableJobNames(op, name, states, steps, k, line[0]);
      ReachableStatus(op, name, states, steps, k);
      StepAt(op, name, states, steps, k);
      RunningStands(op, name, states[k], steps[k], states[k + 1], line[0], line[0]);
    }
  }
}
