/** A pass whose approvals are written back and whose status is lost: the reset runs, and the plan does not know. */
module LostStatus {
  import opened Prelude
  import opened Naming
  import opened NodeDrain
  import opened NodeTaints
  import opened RecoveryEvents
  import opened Detection
  import opened Approvals
  import opened ApprovalMerge
  import opened Reconciler
  import opened Runs
  import opened PlanRuns
  import opened PlanAccounts
  import opened PlanPasses
  import opened PlanTaints
  import opened Scenarios
  import opened LostApprovals

  // ---------------------------------------------------------------- when a recovery is forgotten

  /** What a pass started and left running was not stored before. */
  lemma StartedIsNew(op: Operator, p: Pass, i: nat)
    requires ValidPass(op, p) && StatusOk(op, p.events) && TypedOverrides(p.approvals)
    requires i < |p.outcomes| == |p.synced| && p.outcomes[i].Started? && p.synced[i].Active()
    ensures p.synced[i] !in p.events
  {
    PassKeepsStatusOk(op, p);
    PassKeepsKeys(op, p);
    PhaseFacts(CtxOf(op, p), p.detected, p.inputs.approvals, p.approved, p.outcomes, i);
    ApprovalsKeepEventOk(CtxOf(op, p), p.detected, p.inputs.approvals, p.approved, p.outcomes);
    forall j | 0 <= j < |p.events| ensures p.events[j] != p.synced[i] {
      if p.events[j].key == p.detected[i].key {
        var seen := SeenBy(p);
        DetectionKeepsOrEscalates(op, p.spec, seen.slices, p.needs, p.events, p.detected, seen.at, j, i);
      }
    }
  }

  /** The stored plan neither shows the running recovery nor leaves its approval open for another try. */
  ghost predicate Forgotten(step: Step, s': Server, i: nat)
    requires step.Reconcile? && i < |step.pass.outcomes| == |step.pass.synced| && step.pass.outcomes[i].Started?
  {
    step.pass.synced[i] !in s'.events && step.pass.outcomes[i].approval.id in NewlyConsumed(step, s')
  }

  /**
   A recovery a pass started and left running is forgotten exactly when the status write is lost and the write
   that marks its spent approval lands on a list that still shows it open.
   */
  lemma ForgottenExactlyWhen(op: Operator, name: string, s: Server, step: Step, s': Server, i: nat)
    requires Next(op, name, s, step, s') && InOrder(op, s) && step.Reconcile?
    requires i < |step.pass.outcomes| == |step.pass.synced|
    requires step.pass.outcomes[i].Started? && step.pass.synced[i].Active()
    ensures var id := step.pass.outcomes[i].approval.id;
      Forgotten(step, s', i) <==>
        !step.statusWritten && step.specWritten && id in SpentIds(step.pass.outcomes) && id in OpenIds(step.current)
  {
    StartedIsNew(op, step.pass, i);
    StoredConsumesExactly(op, name, s, step, s');
    var id := step.pass.outcomes[i].approval.id;
    assert id in NewlyConsumed(step, s') <==> id in SpentIds(step.pass.outcomes) && id !in Missed(step);
  }

  // ---------------------------------------------------------------- when neither write lands

  lemma RunningKeepsPastJobs(op: Operator, p: Pass, i: nat)
    requires ValidPass(op, p) && i < |p.detected| == |p.synced| && p.synced[i].state.InProgress?
    ensures p.synced[i].pastJobs == p.detected[i].pastJobs && p.synced[i].id == p.detected[i].id
  {
    PassKeepsKeys(op, p);
    var e := p.approved[i];
    assert p.drained[i] == DrainEvent(op, p.spec, e, DrainInputOf(p, i), p.inputs.drainedAt);
    assert p.synced[i] == SyncEvent(p.spec, p.drained[i], p.inputs.jobs(i), p.inputs.syncedAt) == p.drained[i];
    DrainKeepsPastJobs(op, p.spec, e, DrainInputOf(p, i), p.inputs.drainedAt);
  }

  lemma DrainKeepsPastJobs(op: Operator, spec: PlanSpec, e: Event, i: DrainInput, now: Time)
    ensures DrainEvent(op, spec, e, i, now).pastJobs == e.pastJobs
  {
    var found := DrainCheck(ScopeOf(op, spec), i.view, e.key.node, e.key.bdf);
    DrainStepKeepsPastJobs(op, spec, e, found, i.accepted, now);
  }

  lemma DrainStepKeepsPastJobs(op: Operator, spec: PlanSpec, e: Event, found: DrainResult, accepted: bool, now: Time)
    ensures DrainStep(op, spec, e, found, accepted, now).pastJobs == e.pastJobs
  {
  }

  /** A retry that finds the event as the lost pass found it, and starts it again, adopts the Job already there. */
  lemma RetryAdoptsTheJob(op: Operator, p: Pass, i: nat, p': Pass, j: nat)
    requires ValidPass(op, p) && StatusOk(op, p.events) && TypedOverrides(p.approvals)
    requires ValidPass(op, p') && StatusOk(op, p'.events) && TypedOverrides(p'.approvals)
    requires i < |p.detected| == |p.synced| && j < |p'.detected| == |p'.synced| && p.detected[i] == p'.detected[j]
    requires p.synced[i].state.InProgress? && p'.synced[j].state.InProgress?
    ensures p'.synced[j].jobName == p.synced[i].jobName
  {
    PassKeepsStatusOk(op, p);
    PassKeepsStatusOk(op, p');
    RunningKeepsPastJobs(op, p, i);
    RunningKeepsPastJobs(op, p', j);
    assert EventOk(op, p.synced[i]) && EventOk(op, p'.synced[j]);
  }

  // ---------------------------------------------------------------- what becomes of the node

  /** Every event of the node waits, and nothing approves it. */
  ghost predicate Unapproved(p: Pass, n: string) {
    |p.detected| == |p.outcomes| && forall i :: 0 <= i < |p.detected| && p.detected[i].key.node == n ==>
      p.detected[i].state.WaitingApproval? && p.outcomes[i].NoApproval?
  }

  lemma UnapprovedIsUnwanted(op: Operator, p: Pass, n: string)
    requires ValidPass(op, p) && Unapproved(p, n)
    ensures !NodeNeeded(p, n)
  {
    PassKeepsKeys(op, p);
    forall i | 0 <= i < |p.synced| && p.synced[i].key.node == n ensures !NeedsNode(p.spec, p.synced[i]) {
      assert Decided(CtxOf(op, p), Standing(p.detected, p.approved, i), p.detected[i], p.inputs.approvals(i),
                     p.approved[i], p.outcomes[i]);
    }
  }

  /** The next pass whose node calls are served takes the taint off such a node, whatever runs on it. */
  lemma UnapprovedNodeIsReleased(op: Operator, name: string, s: Server, step: Step, s': Server, n: string)
    requires Next(op, name, s, step, s') && step.Reconcile? && n in s.nodes && Unapproved(step.pass, n)
    requires step.pass.inputs.nodesListed && n !in step.pass.inputs.nodesFailing
    ensures n in s'.nodes && !CarriesPlanTaint(s'.nodes[n], name)
  {
    UnapprovedIsUnwanted(op, step.pass, n);
    PassTaintsExactly(name, step.pass, s.nodes, n);
  }

  // ---------------------------------------------------------------- such a run

  function Spent(op: Operator, k: DeviceKey): Approval {
    Once(op.names.event(k, Sbr)).(consumed := true)
  }

  /** The pass after: it sees the GPU as new, finds its approval spent, and prunes it. */
  function AfterLoss(op: Operator, k: DeviceKey): Pass {
    var e := NewEvent(op, k, Sbr, 0);
    Pass(SPEC, [Spent(op, k)], [], Granting([k]), NeedsFor([k]), [e], [e], [NoApproval], [e], [e], [])
  }

  lemma AfterLossApproves(op: Operator, k: DeviceKey)
    ensures var p := AfterLoss(op, k);
      ApprovalPhase(CtxOf(op, p), p.detected, p.inputs.approvals, p.approved, p.outcomes)
  {
    var p := AfterLoss(op, k);
    assert FirstCover(p.approvals, p.detected[0], YES.labels, 0).None?;
  }

  lemma AfterLossPrunes(op: Operator, k: DeviceKey)
    ensures var p := AfterLoss(op, k);
      p.kept == Pruned(Spend(p.approvals, SpentIds(p.outcomes)), ReferencedIds(p.synced))
  {
    var p := AfterLoss(op, k);
    assert SpentIds(p.outcomes) == {} && ReferencedIds(p.synced) == {};
    var s := Spend(p.approvals, {});
    assert s == p.approvals && s[..0] == [] && Prunable(s[0], {});
  }

  lemma AfterLossIsValid(op: Operator, k: DeviceKey)
    requires ValidBdf(k.bdf)
    ensures ValidPass(op, AfterLoss(op, k)) && AfterLoss(op, k).inputs.nodeNames == {k.node}
  {
    GpusDetected(op, [k], [], [NewEvent(op, k, Sbr, 0)]);
    AfterLossApproves(op, k);
    AfterLossPrunes(op, k);
    OneNode(k);
  }

  lemma SpentIsMarked(op: Operator, k: DeviceKey, p: Pass)
    requires ValidPass(op, p) && p.approvals == [Once(op.names.event(k, Sbr))]
    requires p.outcomes == [Started(p.approvals[0])] && |p.synced| == 1 && p.synced[0].approvalId == p.approvals[0].id
    ensures Merge(Diff(p.approvals, p.kept), p.approvals) == [Spent(op, k)]
  {
    var a, spent := p.approvals[0], Spent(op, k);
    assert UsedIds(p.outcomes) == {a.id} by {
      assert p.outcomes[0].Started?;
    }
    assert HeldIds(p.outcomes) == {} && SpentIds(p.outcomes) == {a.id};
    assert Spend(p.approvals, {a.id}) == [spent];
    assert a.id in ReferencedIds(p.synced);
    OnePruned(spent, ReferencedIds(p.synced));
    OneMerged(a, spent);
  }

  lemma OnePruned(a: Approval, referenced: set<string>)
    requires a.id in referenced
    ensures Pruned([a], referenced) == [a]
  {
    assert [a][..0] == [];
  }

  lemma OneMerged(a: Approval, spent: Approval)
    requires spent == a.(consumed := true) && !a.consumed
    ensures Merge(Diff([a], [spent]), [a]) == [spent]
  {
    assert ConsumedIds([spent]) == {a.id} by {
      assert [spent][0].consumed;
    }
    assert ConsumedIds([a]) == {} && IdsOf([a]) == {a.id} == IdsOf([spent]) by {
      assert [a][0] == a && [spent][0] == spent;
    }
    assert [a][..0] == [];
  }

  lemma OneDropped(a: Approval)
    ensures Merge(Diff([a], []), [a]) == []
  {
    assert IdsOf([a]) == {a.id} by {
      assert [a][0] == a;
    }
    assert IdsOf([]) == {} && [a][..0] == [];
  }

  /** The first pass: its approval is stored as spent, its status is not stored, its reset runs over a tainted node. */
  lemma LosingPass(op: Operator, name: string, k: DeviceKey) returns (s: Server, step: Step, s': Server)
    requires ValidBdf(k.bdf) && op.names.event(k, Sbr) != ""
    ensures Next(op, name, s, step, s') && s.events == [] && Admissible(s.approvals)
    ensures step.Reconcile? && |step.pass.outcomes| == |step.pass.synced| == 1 && step.pass.outcomes[0].Started?
    ensures step.pass.synced[0].key == k && step.pass.synced[0].state.InProgress?
    ensures s' == Server(SPEC, [Spent(op, k)], [], s'.nodes) && s'.nodes.Keys == {k.node}
    ensures CarriesPlanTaint(s'.nodes[k.node], name)
    ensures !step.statusWritten && step.specWritten && step.current == step.pass.approvals == s.approvals
    ensures step.pass.outcomes == [Started(s.approvals[0])] && s.approvals == [Once(op.names.event(k, Sbr))]
  {
    var a := Once(op.names.event(k, Sbr));
    var p := OneGpuPass(op, k, a);
    IsAdmissible(a);
    SpentIsMarked(op, k, p);
    s := Before(p);
    DrainedNodeIsTainted(op, name, p, s.nodes, 0);
    step := Reconcile(p, false, true, [a]);
    s' := Server(SPEC, [Spent(op, k)], [], PassTaints(s.nodes, name, p));
  }

  /** The second: it sees the GPU as new and unapproved, prunes the approval and takes the taint off the node. */
  lemma ForgettingPass(op: Operator, name: string, k: DeviceKey, s: Server) returns (step: Step, s': Server)
    requires ValidBdf(k.bdf) && op.names.event(k, Sbr) != ""
    requires s.spec == SPEC && s.approvals == [Spent(op, k)] && s.events == [] && s.nodes.Keys == {k.node}
    ensures Next(op, name, s, step, s') && step.Reconcile? && step.statusWritten && step.specWritten
    ensures s'.events == [NewEvent(op, k, Sbr, 0)] && s'.approvals == []
    ensures k.node in s'.nodes && !CarriesPlanTaint(s'.nodes[k.node], name)
  {
    var p := AfterLoss(op, k);
    AfterLossIsValid(op, k);
    IsAdmissible(Spent(op, k));
    OneDropped(Spent(op, k));
    step := Reconcile(p, true, true, s.approvals);
    s' := Server(SPEC, [], p.synced, PassTaints(s.nodes, name, p));
    UnapprovedNodeIsReleased(op, name, s, step, s', k.node);
  }

  lemma OnceIsSpent(a: Approval)
    requires !a.consumed && !a.persistent
    ensures a.id in SpentIds([Started(a)]) && a.id in OpenIds([a])
  {
    assert [Started(a)][0].Started? && [a][0] == a;
  }

  lemma LosingPassForgets(op: Operator, name: string, s: Server, step: Step, s': Server)
    requires Next(op, name, s, step, s') && s.events == [] && Admissible(s.approvals) && step.Reconcile?
    requires |s.approvals| == 1 && !s.approvals[0].consumed && !s.approvals[0].persistent
    requires step.pass.outcomes == [Started(s.approvals[0])] && |step.pass.synced| == 1 && step.pass.synced[0].Active()
    requires !step.statusWritten && step.specWritten && step.current == s.approvals
    ensures Forgotten(step, s', 0)
  {
    assert s.approvals == [s.approvals[0]];
    OnceIsSpent(s.approvals[0]);
    ForgottenExactlyWhen(op, name, s, step, s', 0);
  }

  lemma TwoSteps(op: Operator, name: string, a: Server, p: Step, b: Server, q: Step, c: Server)
    requires a.events == [] && Admissible(a.approvals) && Next(op, name, a, p, b) && Next(op, name, b, q, c)
    ensures Run(op, name, [a, b, c], [p, q])
  {
  }

  /** A pass that starts the GPU's reset, over a tainted node, and is forgotten. */
  ghost predicate ForgetsReset(name: string, step: Step, s': Server, k: DeviceKey) {
    && step.Reconcile? && |step.pass.outcomes| == |step.pass.synced| == 1 && step.pass.outcomes[0].Started?
    && step.pass.synced[0].key == k && step.pass.synced[0].state.InProgress? && Forgotten(step, s', 0)
    && k.node in s'.nodes && CarriesPlanTaint(s'.nodes[k.node], name)
  }

  /**
   For any GPU there is a run of two passes in which the first starts its reset and loses the status write, and
   the second finds the event waiting, its approval gone, and takes the taint off the node under reset.
   */
  lemma ResetCanBeForgotten(op: Operator, name: string, k: DeviceKey) returns (states: seq<Server>, steps: seq<Step>)
    requires GoodScheme(op.names) && ValidBdf(k.bdf)
    ensures Run(op, name, states, steps) && |steps| == 2 && ForgetsReset(name, steps[0], states[1], k)
    ensures states[2].events == [NewEvent(op, k, Sbr, 0)] && states[2].approvals == []
    ensures k.node in states[2].nodes && !CarriesPlanTaint(states[2].nodes[k.node], name)
  {
    var s, step, s' := LosingPass(op, name, k);
    LosingPassForgets(op, name, s, step, s');
    var step', s'' := ForgettingPass(op, name, k, s');
    TwoSteps(op, name, s, step, s', step', s'');
    states, steps := [s, s', s''], [step, step'];
  }
}
