/** Two ways an approval comes to nothing: deleted while the pass that spent it runs, or by its own override. */
module LostApprovals {
  import opened Prelude
  import opened Naming
  import opened NodeTaints
  import opened RecoveryEvents
  import opened Detection
  import opened Approvals
  import opened ApprovalMerge
  import opened Reconciler
  import opened Runs
  import opened PlanRuns
  import opened PlanAccounts
  import opened Scenarios
  import opened CaseVariants

  // ---------------------------------------------------------------- deleted meanwhile

  function Once(id: string): Approval {
    Approval("app-00000001", id, None, None, false, false)
  }

  lemma OneStarts(op: Operator, k: DeviceKey, a: Approval)
    requires ValidBdf(k.bdf) && a.override.None? && Covers(a, NewEvent(op, k, Sbr, 0), None)
    ensures Startable(op, [k], a)
  {
  }

  /** One tainted GPU under an approval that covers it. */
  lemma OneGpuPass(op: Operator, k: DeviceKey, a: Approval) returns (p: Pass)
    requires ValidBdf(k.bdf) && a.override.None? && Covers(a, NewEvent(op, k, Sbr, 0), None)
    ensures ValidPass(op, p) && p.spec == SPEC && p.events == [] && p.approvals == [a] && p.inputs.nodeNames == {k.node}
    ensures p.detected == [NewEvent(op, k, Sbr, 0)] && p.outcomes == [Started(a)]
    ensures p.synced == [Resetting(op, NewEvent(op, k, Sbr, 0), a)]
    ensures |p.approved| == 1 && p.approved[0].state.Draining?
  {
    OneStarts(op, k, a);
    p := FreshPassRuns(op, [k], a);
    OneNode(k);
    assert p.synced[0] == Resetting(op, NewEvent(op, [k][0], Sbr, 0), a);
    assert p.outcomes[0] == Started(a);
  }

  lemma OneNode(k: DeviceKey)
    ensures NodesOf([k]) == {k.node}
  {
    assert [k][0] == k;
  }

  lemma OnceRuns(op: Operator, name: string, k: DeviceKey) returns (p: Pass)
    requires ValidBdf(k.bdf) && op.names.event(k, Sbr) != ""
    ensures ValidPass(op, p) && Run(op, name, [Before(p), After(name, p, [])], [Reconcile(p, true, true, [])])
    ensures AllByEventId(p.approvals) && DistinctIds(p.detected) && |StartedSet(p.outcomes)| == 1
  {
    var a := Once(op.names.event(k, Sbr));
    p := OneGpuPass(op, k, a);
    IsAdmissible(a);
    OnePassRun(op, name, p, []);
    OneStarted(a);
  }

  lemma OneStarted(a: Approval)
    ensures |StartedSet([Started(a)])| == 1
  {
    assert StartedSet([Started(a)]) == {0};
  }

  lemma OneStepCounts(s: Server, step: Step, s': Server)
    requires step.Reconcile? && s'.approvals == []
    ensures RecoveriesStarted([step]) == |StartedSet(step.pass.outcomes)| && ApprovalsConsumed([s, s'], [step]) == 0
  {
    assert [step][..0] == [] && RecoveriesStarted([step][..0]) == 0;
    assert ApprovalsConsumed([s, s'][..1], [step][..0]) == 0;
    assert ConsumedIds(s'.approvals) == {};
  }

  /** An admin deletes the approval between the read and the write-back: one recovery, no approval consumed. */
  lemma DeletedApprovalIsMissed(op: Operator, name: string, k: DeviceKey)
    returns (states: seq<Server>, steps: seq<Step>)
    requires ValidBdf(k.bdf) && op.names.event(k, Sbr) != ""
    ensures Run(op, name, states, steps) && forall i :: 0 <= i < |steps| ==> OneToOne(states[i], steps[i])
    ensures RecoveriesStarted(steps) == 1 && ApprovalsConsumed(states, steps) == 0
  {
    var p := OnceRuns(op, name, k);
    states, steps := [Before(p), After(name, p, [])], [Reconcile(p, true, true, [])];
    OneStepCounts(states[0], steps[0], states[1]);
  }

  // ---------------------------------------------------------------- escaped by override

  /** One-shot, for resets of one kind, asking for another. */
  const GROUP := Approval("app-00000002", "", Some(Selector(Sbr, "", map[])), Some(Slot), false, false)

  /** A waiting event held back under it. */
  function HeldUnderGroup(e: Event): Event {
    SetState(ApplyOverride(RecordApproval(e, GROUP, 0), GROUP), Blocked, 0)
  }

  /** A pass that finds one reset running on the node and a second GPU tainted. */
  function EscapePass(op: Operator, running: Event, k': DeviceKey): Pass {
    var found := NewEvent(op, k', Sbr, 0);
    var held, outcomes := [running, HeldUnderGroup(found)], [Skipped, HeldBack(GROUP)];
    Pass(SPEC, [GROUP], [running], Granting([running.key, k']), NeedsFor([running.key, k']), [running, found],
         held, outcomes, held, held, Pruned(Spend([GROUP], SpentIds(outcomes)), ReferencedIds(held)))
  }

  ghost predicate RunningOn(running: Event, k': DeviceKey, id': string) {
    && running.state.InProgress? && ValidBdf(running.key.bdf) && ValidBdf(k'.bdf) && !running.rtype.Untyped?
    && running.key != k' && running.key.node == k'.node && running.id != id' && id' != ""
    && running.jobName != "" && SyncEvent(SPEC, running, STARTED, 0) == running
  }

  lemma GroupHolds(op: Operator, standing: seq<Event>, e: Event)
    requires e.state.WaitingApproval? && e.rtype.Sbr? && e.id != "" && NodeBusy(standing, e.id, e.key.node)
    ensures Decided(Ctx(op, SPEC, [GROUP], 0), standing, e, YES, HeldUnderGroup(e), HeldBack(GROUP))
  {
    assert Covers(GROUP, e, None);
    assert FirstCover([GROUP], e, None, 0) == Some(0);
  }

  lemma RunningSkipped(op: Operator, standing: seq<Event>, e: Event)
    requires e.state.InProgress?
    ensures Decided(Ctx(op, SPEC, [GROUP], 0), standing, e, YES, e, Skipped)
  {
  }

  lemma TwoDecided(c: Ctx, events: seq<Event>, inputs: nat -> ApprovalInput, post: seq<Event>, outcomes: seq<Outcome>)
    requires |events| == |post| == |outcomes| == 2
    requires Decided(c, Standing(events, post, 0), events[0], inputs(0), post[0], outcomes[0])
    requires Decided(c, Standing(events, post, 1), events[1], inputs(1), post[1], outcomes[1])
    ensures ApprovalPhase(c, events, inputs, post, outcomes)
  {
  }

  lemma BusyBehind(running: Event, e: Event, post: Event)
    requires running.Active() && running.id != e.id && running.key.node == e.key.node
    ensures NodeBusy(Standing([running, e], [running, post], 1), e.id, e.key.node)
  {
    assert Occupies(Standing([running, e], [running, post], 1)[0], e.id, e.key.node);
  }

  lemma EscapeApproval(op: Operator, running: Event, k': DeviceKey)
    requires RunningOn(running, k', op.names.event(k', Sbr))
    ensures var p := EscapePass(op, running, k');
      ApprovalPhase(CtxOf(op, p), p.detected, p.inputs.approvals, p.approved, p.outcomes)
  {
    var e := NewEvent(op, k', Sbr, 0);
    var c, events, post := Ctx(op, SPEC, [GROUP], 0), [running, e], [running, HeldUnderGroup(e)];
    RunningSkipped(op, Standing(events, post, 0), running);
    BusyBehind(running, e, post[1]);
    GroupHolds(op, Standing(events, post, 1), e);
    TwoDecided(c, events, Granting([running.key, k']).approvals, post, [Skipped, HeldBack(GROUP)]);
  }

  lemma EscapeDetection(op: Operator, running: Event, k': DeviceKey)
    requires RunningOn(running, k', op.names.event(k', Sbr))
    ensures Detects(op, SPEC, [running], SeenBy(EscapePass(op, running, k')))
  {
    GpusDetected(op, [running.key, k'], [running], [running, NewEvent(op, k', Sbr, 0)]);
  }

  lemma EscapeRest(op: Operator, running: Event, k': DeviceKey)
    requires RunningOn(running, k', op.names.event(k', Sbr))
    ensures var p := EscapePass(op, running, k');
      && DrainPhase(op, p.spec, p.approved, p.inputs.drains, p.inputs.nodeNames, p.inputs.drainedAt, p.drained)
      && SyncPhase(p.spec, p.drained, p.inputs.jobs, p.inputs.syncedAt, p.synced)
  {
  }

  lemma EscapePassIsValid(op: Operator, running: Event, k': DeviceKey)
    requires RunningOn(running, k', op.names.event(k', Sbr))
    ensures ValidPass(op, EscapePass(op, running, k'))
  {
    EscapeDetection(op, running, k');
    EscapeApproval(op, running, k');
    EscapeRest(op, running, k');
  }

  /** Held back, its type changed, and no entry of the list covers it any more. */
  ghost predicate Stranded(approvals: seq<Approval>, e: Event) {
    e.state.Blocked? && forall a, labels :: a in approvals ==> !Covers(a, e, labels)
  }

  lemma GroupStrands(op: Operator, k': DeviceKey, ch: Changes)
    requires op.names.event(k', Sbr) != ""
    ensures Stranded(Merge(ch, [GROUP]), HeldUnderGroup(NewEvent(op, k', Sbr, 0)))
  {
    MergeContents(ch, [GROUP]);
  }

  lemma ResettingRuns(op: Operator, k: DeviceKey, k': DeviceKey)
    requires GoodScheme(op.names) && ValidBdf(k.bdf) && ValidBdf(k'.bdf) && k.node == k'.node
    requires op.names.event(k, Sbr) != op.names.event(k', Sbr)
    ensures RunningOn(Resetting(op, NewEvent(op, k, Sbr, 0), ANY), k', op.names.event(k', Sbr))
  {
    StillResetting(op, NewEvent(op, k, Sbr, 0), ANY);
  }

  lemma EscapePassRuns(op: Operator, running: Event, k': DeviceKey) returns (p: Pass)
    requires RunningOn(running, k', op.names.event(k', Sbr))
    ensures ValidPass(op, p) && p.spec == SPEC && p.approvals == [GROUP] && p.events == [running]
    ensures p.inputs.nodeNames == {k'.node} && p.outcomes == [Skipped, HeldBack(GROUP)]
    ensures p.synced == [running, HeldUnderGroup(NewEvent(op, k', Sbr, 0))]
  {
    p := EscapePass(op, running, k');
    EscapePassIsValid(op, running, k');
    Pair(running.key, k');
  }

  /** A pass over the stored plan from there: the second event is held back, and stranded in what is stored. */
  lemma EscapeStep(op: Operator, name: string, s: Server, running: Event, k': DeviceKey)
    returns (step: Step, s': Server)
    requires RunningOn(running, k', op.names.event(k', Sbr))
    requires s.spec == SPEC && s.events == [running] && s.approvals == [GROUP] && s.nodes.Keys == {k'.node}
    ensures Next(op, name, s, step, s') && StrandedBy(step, s, s', k')
  {
    var p := EscapePassRuns(op, running, k');
    IsAdmissible(GROUP);
    GroupStrands(op, k', Diff([GROUP], p.kept));
    step := Reconcile(p, true, true, [GROUP]);
    s' := Server(SPEC, Merge(Diff([GROUP], p.kept), [GROUP]), p.synced, PassTaints(s.nodes, name, p));
  }

  lemma ThenEdit(op: Operator, name: string, states: seq<Server>, steps: seq<Step>, s: Server)
    requires Run(op, name, states, steps) && s.events == states[|steps|].events && Admissible(s.approvals)
    ensures Run(op, name, states + [s], steps + [Edit])
  {
    var next := (s, t, s') => Next(op, name, s, t, s');
    assert next(states[|steps|], Edit, s);
    Append(next, states, steps, Edit, s);
  }

  lemma SameNodes(name: string, p: Pass, current: seq<Approval>)
    ensures After(name, p, current).nodes.Keys == p.inputs.nodeNames
  {
  }

  lemma FirstReset(op: Operator, name: string, k: DeviceKey) returns (states: seq<Server>, steps: seq<Step>)
    requires ValidBdf(k.bdf)
    ensures Run(op, name, states, steps) && |steps| == 1
    ensures states[1].spec == SPEC && states[1].events == [Resetting(op, NewEvent(op, k, Sbr, 0), ANY)]
    ensures states[1].nodes.Keys == {k.node}
  {
    var p := OneGpuPass(op, k, ANY);
    IsAdmissible(ANY);
    OnePassRun(op, name, p, [ANY]);
    SameNodes(name, p, [ANY]);
    states, steps := [Before(p), After(name, p, [ANY])], [Reconcile(p, true, true, [ANY])];
  }

  /** The plan after the first reset has been started, with the group approval put in by an admin. */
  lemma FirstResetThenEdit(op: Operator, name: string, k: DeviceKey) returns (states: seq<Server>, steps: seq<Step>)
    requires ValidBdf(k.bdf)
    ensures Run(op, name, states, steps) && |steps| == 2
    ensures states[2].spec == SPEC && states[2].events == [Resetting(op, NewEvent(op, k, Sbr, 0), ANY)]
    ensures states[2].approvals == [GROUP] && states[2].nodes.Keys == {k.node}
  {
    states, steps := FirstReset(op, name, k);
    var edited := states[1].(approvals := [GROUP]);
    IsAdmissible(GROUP);
    ThenEdit(op, name, states, steps, edited);
    states, steps := states + [edited], steps + [Edit];
  }

  lemma StrandingRun(op: Operator, name: string, k: DeviceKey, k': DeviceKey)
    returns (states: seq<Server>, steps: seq<Step>)
    requires k.node == k'.node && ValidBdf(k.bdf)
    requires RunningOn(Resetting(op, NewEvent(op, k, Sbr, 0), ANY), k', op.names.event(k', Sbr))
    ensures Run(op, name, states, steps) && |steps| == 3 && StrandedBy(steps[2], states[2], states[3], k')
  {
    states, steps := FirstResetThenEdit(op, name, k);
    var step, last := EscapeStep(op, name, states[2], states[2].events[0], k');
    var next := (s, t, s') => Next(op, name, s, t, s');
    assert next(states[2], step, last);
    Append(next, states, steps, step, last);
    states, steps := states + [last], steps + [step];
  }

  /** A pass whose writes land over an unedited list holds the device's event back and strands it. */
  ghost predicate StrandedBy(step: Step, s: Server, s': Server, k': DeviceKey) {
    && step.Reconcile? && step.statusWritten && step.specWritten && step.current == s.approvals
    && |step.pass.outcomes| == 2 && step.pass.outcomes[1] == HeldBack(GROUP)
    && |s'.events| == 2 && s'.events[1].key == k' && Stranded(s'.approvals, s'.events[1])
  }

  /** For any two GPUs of a node there is a run in which one is held back and left with no approval that covers it. */
  lemma HeldEventCanBeStranded(op: Operator, name: string, k: DeviceKey, k': DeviceKey)
    returns (states: seq<Server>, steps: seq<Step>)
    requires GoodScheme(op.names) && ValidBdf(k.bdf) && ValidBdf(k'.bdf) && k.node == k'.node
    requires op.names.event(k, Sbr) != op.names.event(k', Sbr)
    ensures Run(op, name, states, steps) && |steps| == 3 && StrandedBy(steps[2], states[2], states[3], k')
  {
    ResettingRuns(op, k, k');
    states, steps := StrandingRun(op, name, k, k');
  }
}
