/**
 Whole runs of a plan: admins edit it, passes read it, write their status and merge their approvals
 back, and either write may fail. What holds of every status such a run can reach.
 */
module PlanRuns {
  import opened Prelude
  import opened Naming
  import opened NodeDrain
  import opened NodeTaints
  import opened RecoveryEvents
  import opened Detection
  import opened Approvals
  import opened ApprovalMerge
  import opened Reconciler
  import opened Runs

  // ---------------------------------------------------------------- one pass keeps the status in order

  /** One event per device, at most a thousand, each of them in order. */
  ghost predicate StatusOk(op: Operator, events: seq<Event>) {
    && UniqueKeys(events)
    && |events| <= MAX_STATUS_EVENTS
    && forall e :: e in events ==> EventOk(op, e)
  }

  lemma DrainEventKeepsOk(op: Operator, spec: PlanSpec, e: Event, i: DrainInput, now: Time)
    requires EventOk(op, e)
    ensures EventOk(op, DrainEvent(op, spec, e, i, now))
  {
    if e.state.Draining? {
      DrainKeepsEventOk(op, spec, e, DrainCheck(ScopeOf(op, spec), i.view, e.key.node, e.key.bdf), i.accepted, now);
    }
  }

  /** What a pass makes of the slices: the needs it found and the events it then lists. */
  datatype Seen = Seen(slices: seq<Slice>, at: Time, needs: Needs, detected: seq<Event>)

  function SeenBy(p: Pass): Seen {
    Seen(p.inputs.slices, p.inputs.detectedAt, p.needs, p.detected)
  }

  ghost predicate Detects(op: Operator, spec: PlanSpec, events: seq<Event>, seen: Seen) {
    DetectionPhase(op, spec, seen.slices, seen.needs, events, seen.detected, seen.at)
  }

  lemma DetectionKeepsStatusOk(op: Operator, spec: PlanSpec, events: seq<Event>, seen: Seen)
    requires Detects(op, spec, events, seen) && StatusOk(op, events)
    ensures StatusOk(op, seen.detected)
  {
    DetectionCoversDevices(op, spec, seen.slices, seen.needs, events, seen.detected, seen.at);
    DetectionKeepsEventOk(op, spec, seen.slices, seen.needs, events, seen.detected, seen.at);
  }

  lemma PassKeepsStatusOk(op: Operator, p: Pass)
    requires ValidPass(op, p) && StatusOk(op, p.events) && TypedOverrides(p.approvals)
    ensures StatusOk(op, p.detected) && StatusOk(op, p.approved) && StatusOk(op, p.drained) && StatusOk(op, p.synced)
  {
    var c := CtxOf(op, p);
    DetectionKeepsStatusOk(op, p.spec, p.events, SeenBy(p));
    PassKeepsKeys(op, p);
    ApprovalsKeepEventOk(c, p.detected, p.inputs.approvals, p.approved, p.outcomes);
    forall i | 0 <= i < |p.detected| ensures EventOk(op, p.drained[i]) && EventOk(op, p.synced[i]) {
      DrainEventKeepsOk(op, p.spec, p.approved[i], DrainInputOf(p, i), p.inputs.drainedAt);
      SyncKeepsEventOk(op, p.spec, p.drained[i], p.inputs.jobs(i), p.inputs.syncedAt);
    }
  }

  /** An event the pass found and left behind is at least as severe as before. */
  lemma PassKeepsSeverity(op: Operator, p: Pass, i: nat, j: nat)
    requires ValidPass(op, p) && StatusOk(op, p.events) && TypedOverrides(p.approvals)
    requires i < |p.events| && j < |p.synced| && p.events[i].key == p.synced[j].key
    ensures Severity(p.synced[j].rtype) >= Severity(p.events[i].rtype)
  {
    PassKeepsStatusOk(op, p);
    PassKeepsKeys(op, p);
    DetectionKeepsOrEscalates(op, p.spec, p.inputs.slices, p.needs, p.events, p.detected, p.inputs.detectedAt, i, j);
    ApprovalsKeepEventOk(CtxOf(op, p), p.detected, p.inputs.approvals, p.approved, p.outcomes);
  }

  // ---------------------------------------------------------------- one recovery per node

  /** GPUs of one node whose addresses stay different after lower-casing. */
  ghost predicate CaseDistinct(hardware: set<DeviceKey>) {
    forall a, b :: a in hardware && b in hardware && a.node == b.node && LowerCase(a.bdf) == LowerCase(b.bdf) ==> a == b
  }

  ghost predicate Within(events: seq<Event>, hardware: set<DeviceKey>) {
    forall e :: e in events ==> e.key in hardware
  }

  lemma IdsDifferOnANode(op: Operator, events: seq<Event>, hardware: set<DeviceKey>)
    requires GoodScheme(op.names) && StatusOk(op, events) && Within(events, hardware) && CaseDistinct(hardware)
    ensures DistinctIdsPerNode(events)
  {
    forall i, j | 0 <= i < j < |events| && events[i].key.node == events[j].key.node
      ensures events[i].id != events[j].id
    {
      var a, b := events[i], events[j];
      assert a in events && b in events;
      assert a.key == DeviceKey(a.key.node, a.key.bdf) && b.key == DeviceKey(a.key.node, b.key.bdf);
    }
  }

  lemma DetectionKeepsExclusive(op: Operator, spec: PlanSpec, events: seq<Event>, seen: Seen)
    requires Detects(op, spec, events, seen) && UniqueKeys(events) && Exclusive(events)
    ensures Exclusive(seen.detected)
  {
    var post := seen.detected;
    forall i, j | 0 <= i < j < |post| && post[i].key.node == post[j].key.node
      ensures !(post[i].Active() && post[j].Active())
    {
      if post[i].Active() && post[j].Active() {
        var i' := ActiveWasThere(op, spec, events, seen, i);
        var j' := ActiveWasThere(op, spec, events, seen, j);
      }
    }
  }

  lemma ActiveWasThere(op: Operator, spec: PlanSpec, events: seq<Event>, seen: Seen, i: nat) returns (i': nat)
    requires Detects(op, spec, events, seen) && i < |seen.detected| && seen.detected[i].Active()
    ensures i' < |events| && events[i'] == seen.detected[i]
  {
    var kept := Unresolved(events, seen.needs);
    UnresolvedContents(events, seen.needs);
    assert i < |kept|;
    assert kept[i] in kept;
    i' :| 0 <= i' < |events| && events[i'] == kept[i];
  }

  lemma DetectionStaysWithin(op: Operator, spec: PlanSpec, events: seq<Event>, seen: Seen, hardware: set<DeviceKey>)
    requires Detects(op, spec, events, seen) && |events| <= MAX_STATUS_EVENTS
    requires Within(events, hardware) && seen.needs.Keys <= hardware
    ensures Within(seen.detected, hardware)
  {
    DetectionCoversDevices(op, spec, seen.slices, seen.needs, events, seen.detected, seen.at);
    forall e | e in seen.detected ensures e.key in hardware {
      KeyOf(seen.detected, e);
    }
  }

  lemma ContinuesKeepsExclusive(pre: seq<Event>, post: seq<Event>)
    requires |pre| == |post| && Exclusive(pre) && forall i :: 0 <= i < |pre| ==> Continues(pre[i], post[i])
    ensures Exclusive(post)
  {
    forall i, j | 0 <= i < j < |post| && post[i].key.node == post[j].key.node
      ensures !(post[i].Active() && post[j].Active())
    {
      assert Continues(pre[i], post[i]) && Continues(pre[j], post[j]);
    }
  }

  /** Every phase of a pass keeps one recovery per node, as long as addresses differ in more than letter case. */
  lemma PassKeepsExclusive(op: Operator, p: Pass, hardware: set<DeviceKey>)
    requires GoodScheme(op.names) && CaseDistinct(hardware)
    requires ValidPass(op, p) && StatusOk(op, p.events) && TypedOverrides(p.approvals)
    requires Within(p.events, hardware) && p.needs.Keys <= hardware
    requires Exclusive(p.events)
    ensures Exclusive(p.detected) && Exclusive(p.approved) && Exclusive(p.drained) && Exclusive(p.synced)
    ensures Within(p.synced, hardware)
  {
    PassKeepsStatusOk(op, p);
    PassKeepsKeys(op, p);
    DetectionKeepsExclusive(op, p.spec, p.events, SeenBy(p));
    DetectionStaysWithin(op, p.spec, p.events, SeenBy(p), hardware);
    IdsDifferOnANode(op, p.detected, hardware);
    ApprovalsKeepExclusive(CtxOf(op, p), p.detected, p.inputs.approvals, p.approved, p.outcomes);
    ContinuesKeepsExclusive(p.approved, p.drained);
    ContinuesKeepsExclusive(p.drained, p.synced);
  }

  // ---------------------------------------------------------------- runs

  datatype Server = Server(spec: PlanSpec, approvals: seq<Approval>, events: seq<Event>, nodes: Nodes)

  /** What admission lets into spec.approvals. */
  ghost predicate Admissible(approvals: seq<Approval>) {
    UniqueIds(approvals) && TypedOverrides(approvals) && forall a :: a in approvals ==> a.id != "" && WellShaped(a)
  }

  /**
   What can happen to a stored plan. Other actors edit its spec and approvals, and nodes and their taints
   in any way. A pass starts from the stored plan; `current` is the approval list as it stands when the
   write-back arrives. A pass that fails between detection and the approvals writes what it detected;
   one that fails before leaves everything to the edits around it.
   */
  datatype Step =
    | Edit
    | Stopped(seen: Seen, statusWritten: bool, current: seq<Approval>)
    | Reconcile(pass: Pass, statusWritten: bool, specWritten: bool, current: seq<Approval>)

  ghost predicate Next(op: Operator, name: string, s: Server, step: Step, s': Server) {
    match step
    case Edit =>
      s'.events == s.events && Admissible(s'.approvals)
    case Stopped(seen, statusWritten, current) =>
      && Detects(op, s.spec, s.events, seen) && Admissible(current)
      && s'.events == (if statusWritten then seen.detected else s.events)
      && s'.approvals == current && s'.nodes == s.nodes
    case Reconcile(p, statusWritten, specWritten, current) =>
      && ValidPass(op, p) && p.spec == s.spec && p.approvals == s.approvals && p.events == s.events
      && p.inputs.nodeNames == s.nodes.Keys
      && Admissible(current)
      && s'.events == (if statusWritten then p.synced else s.events)
      && s'.approvals == (if specWritten then Merge(Diff(s.approvals, p.kept), current) else current)
      && s'.nodes == PassTaints(s.nodes, name, p)
  }

  /** A run from a plan with an empty status. */
  ghost predicate Run(op: Operator, name: string, states: seq<Server>, steps: seq<Step>) {
    && Chain((s, t, s') => Next(op, name, s, t, s'), states, steps)
    && states[0].events == [] && Admissible(states[0].approvals)
  }

  ghost predicate InOrder(op: Operator, s: Server) {
    Admissible(s.approvals) && StatusOk(op, s.events)
  }

  lemma MergeKeepsAdmissible(ch: Changes, s: seq<Approval>)
    requires Admissible(s)
    ensures Admissible(Merge(ch, s))
  {
    MergeKeepsUniqueIds(ch, s);
    MergeContents(ch, s);
  }

  lemma NextKeepsOrder(op: Operator, name: string, s: Server, step: Step, s': Server)
    requires Next(op, name, s, step, s') && InOrder(op, s)
    ensures InOrder(op, s')
  {
    match step
    case Edit =>
    case Stopped(seen, _, _) => DetectionKeepsStatusOk(op, s.spec, s.events, seen);
    case Reconcile(p, _, _, current) =>
      PassKeepsStatusOk(op, p);
      MergeKeepsAdmissible(Diff(s.approvals, p.kept), current);
  }

  lemma OrderIsInductive(op: Operator, name: string)
    ensures Inductive((s, t, s') => Next(op, name, s, t, s'), s => InOrder(op, s))
  {
    forall s, t, s' | InOrder(op, s) && Next(op, name, s, t, s') ensures InOrder(op, s') {
      NextKeepsOrder(op, name, s, t, s');
    }
  }

  /** Every reachable plan: approvals stay admissible and the status in order. */
  lemma ReachableStatus(op: Operator, name: string, states: seq<Server>, steps: seq<Step>, n: nat)
    requires Run(op, name, states, steps) && n < |states|
    ensures Admissible(states[n].approvals) && StatusOk(op, states[n].events)
  {
    OrderIsInductive(op, name);
    Always((s, t, s') => Next(op, name, s, t, s'), s => InOrder(op, s), states, steps, n);
  }

  /** Steps whose passes are shown no GPU outside `hardware`. */
  ghost predicate NextWithin(op: Operator, name: string, hardware: set<DeviceKey>, s: Server, step: Step, s': Server) {
    && Next(op, name, s, step, s')
    && (step.Stopped? ==> step.seen.needs.Keys <= hardware)
    && (step.Reconcile? ==> step.pass.needs.Keys <= hardware)
  }

  ghost predicate OneRecoveryPerNode(op: Operator, hardware: set<DeviceKey>, s: Server) {
    InOrder(op, s) && Within(s.events, hardware) && Exclusive(s.events)
  }

  lemma NextKeepsExclusive(op: Operator, name: string, hardware: set<DeviceKey>, s: Server, step: Step, s': Server)
    requires GoodScheme(op.names) && CaseDistinct(hardware)
    requires NextWithin(op, name, hardware, s, step, s') && OneRecoveryPerNode(op, hardware, s)
    ensures Within(s'.events, hardware) && Exclusive(s'.events)
  {
    match step
    case Edit =>
    case Stopped(seen, _, _) =>
      DetectionKeepsExclusive(op, s.spec, s.events, seen);
      DetectionStaysWithin(op, s.spec, s.events, seen, hardware);
    case Reconcile(p, _, _, _) => PassKeepsExclusive(op, p, hardware);
  }

  lemma ExclusionIsInductive(op: Operator, name: string, hardware: set<DeviceKey>)
    requires GoodScheme(op.names) && CaseDistinct(hardware)
    ensures Inductive((s, t, s') => NextWithin(op, name, hardware, s, t, s'), s => OneRecoveryPerNode(op, hardware, s))
  {
    forall s, t, s' | OneRecoveryPerNode(op, hardware, s) && NextWithin(op, name, hardware, s, t, s')
      ensures OneRecoveryPerNode(op, hardware, s')
    {
      NextKeepsOrder(op, name, s, t, s');
      NextKeepsExclusive(op, name, hardware, s, t, s');
    }
  }

  /** A run whose passes are shown no GPU outside `hardware`. */
  ghost predicate RunWithin(op: Operator, name: string, hardware: set<DeviceKey>,
                            states: seq<Server>, steps: seq<Step>) {
    && Chain((s, t, s') => NextWithin(op, name, hardware, s, t, s'), states, steps)
    && states[0].events == [] && Admissible(states[0].approvals)
  }

  /** In every reachable status each node has at most one event draining or in progress. */
  lemma ReachableExclusive(op: Operator, name: string, hardware: set<DeviceKey>, states: seq<Server>,
                           steps: seq<Step>, n: nat)
    requires GoodScheme(op.names) && CaseDistinct(hardware)
    requires RunWithin(op, name, hardware, states, steps) && n < |states|
    ensures Exclusive(states[n].events)
  {
    ExclusionIsInductive(op, name, hardware);
    var next := (s, t, s') => NextWithin(op, name, hardware, s, t, s');
    Always(next, s => OneRecoveryPerNode(op, hardware, s), states, steps, n);
  }

  /** The Jobs of an event, in every reachable status: one while in progress, all under different names. */
  lemma ReachableJobNames(op: Operator, name: string, states: seq<Server>, steps: seq<Step>, n: nat, e: Event)
    requires GoodScheme(op.names) && Run(op, name, states, steps) && n < |states| && e in states[n].events
    ensures e.state.InProgress? <==> e.jobName != ""
    ensures e.state.InProgress? ==> e.jobName !in e.pastJobs
    ensures forall i, j :: 0 <= i < j < |e.pastJobs| ==> e.pastJobs[i] != e.pastJobs[j]
    ensures forall k :: 0 <= k < |e.pastJobs| ==> AttemptName(op, e.key, e.pastJobs[k], k)
    ensures e.state.Draining? ==> !e.rtype.Reflash? && e.drainStartedAt.Some?
  {
    ReachableStatus(op, name, states, steps, n);
    JobNamesAreDistinct(op, e);
  }

  ghost predicate EventFor(events: seq<Event>, key: DeviceKey, e: Event) {
    e in events && e.key == key
  }

  lemma DetectionKeepsSeverity(op: Operator, spec: PlanSpec, events: seq<Event>, seen: Seen, e: Event, e': Event)
    requires Detects(op, spec, events, seen) && UniqueKeys(events)
    requires e in events && e' in seen.detected && e.key == e'.key
    ensures Severity(e.rtype) <= Severity(e'.rtype)
  {
    var i :| 0 <= i < |events| && events[i] == e;
    var j :| 0 <= j < |seen.detected| && seen.detected[j] == e';
    DetectionKeepsOrEscalates(op, spec, seen.slices, seen.needs, events, seen.detected, seen.at, i, j);
  }

  lemma NextKeepsSeverity(op: Operator, name: string, s: Server, step: Step, s': Server, e: Event, e': Event)
    requires Next(op, name, s, step, s') && Admissible(s.approvals) && StatusOk(op, s.events)
    requires e in s.events && e' in s'.events && e.key == e'.key
    ensures Severity(e.rtype) <= Severity(e'.rtype)
  {
    if step.Stopped? && step.statusWritten {
      DetectionKeepsSeverity(op, s.spec, s.events, step.seen, e, e');
    } else if step.Reconcile? && step.statusWritten {
      var i :| 0 <= i < |s.events| && s.events[i] == e;
      var j :| 0 <= j < |s'.events| && s'.events[j] == e';
      PassKeepsSeverity(op, step.pass, i, j);
    }
  }

  /** While a device keeps its event, from state m on, the event's severity never drops. */
  lemma SeverityNeverDrops(op: Operator, name: string, states: seq<Server>, steps: seq<Step>, key: DeviceKey, m: nat,
                           line: seq<Event>, n: nat)
    requires Run(op, name, states, steps) && n < |line| && m + |line| <= |states|
    requires forall k :: 0 <= k < |line| ==> EventFor(states[m + k].events, key, line[k])
    ensures Severity(line[0].rtype) <= Severity(line[n].rtype)
  {
    var next := (s, t, s') => Next(op, name, s, t, s');
    var at := (s: Server, e: Event) => EventFor(s.events, key, e);
    OrderIsInductive(op, name);
    forall s, t, s', e, e' | InOrder(op, s) && next(s, t, s') && at(s, e) && at(s', e')
      ensures Severity(e.rtype) <= Severity(e'.rtype)
    {
      NextKeepsSeverity(op, name, s, t, s', e, e');
    }
    Rises(next, s => InOrder(op, s), at, (s: Server, e: Event) => Severity(e.rtype), states, steps, m, line, n);
  }
}
