/** What one pass over an orderly status guarantees: held-back approvals, clocks, and safe resets. */
module PlanPasses {
  import opened Prelude
  import opened Naming
  import opened NodeDrain
  import opened RecoveryEvents
  import opened DrainRules
  import opened Approvals
  import opened ApprovalMerge
  import opened Reconciler
  import opened PlanRuns
  import opened PlanAccounts

  /** At the end of a pass an event held back is blocked and its approval is still listed unspent for it. */
  lemma PassKeepsHeldApproval(op: Operator, p: Pass, i: nat)
    requires ValidPass(op, p) && Admissible(p.approvals) && i < |p.outcomes| && p.outcomes[i].HeldBack?
    ensures var a := p.outcomes[i].approval;
      && p.synced[i].state.Blocked? && a in p.kept && !a.consumed
      && (Covers(a, p.synced[i], p.inputs.approvals(i).labels) <==> !OverrideEscapes(a, p.detected[i]))
  {
    var c := CtxOf(op, p);
    HeldBackKeepsItsApproval(c, p.detected, p.inputs.approvals, p.approved, p.outcomes, i);
    PassKeepsKeys(op, p);
    assert p.synced[i] == p.drained[i] == p.approved[i];
    PrunedContents(Spend(p.approvals, SpentIds(p.outcomes)), ReferencedIds(p.synced));
  }

  /** No event outlives its clock in a pass over an orderly status. */
  lemma PassKeepsClocks(op: Operator, p: Pass, i: nat)
    requires GoodScheme(op.names)
    requires ValidPass(op, p) && StatusOk(op, p.events) && TypedOverrides(p.approvals)
    requires i < |p.synced| == |p.drained| == |p.approved| == |p.outcomes|
    ensures p.drained[i].state.Draining? ==>
      p.drained[i].drainStartedAt.Some? && !DrainLate(p.spec, p.drained[i], p.inputs.drainedAt)
    ensures p.outcomes[i].Started? && p.approved[i].state.Draining? ==>
      p.approved[i].drainStartedAt == Some(p.inputs.approvedAt)
    ensures p.approved[i].state.Draining? && p.drained[i].state.Failed? ==>
      DrainLate(p.spec, p.approved[i], p.inputs.drainedAt)
    ensures p.synced[i].state.InProgress? ==>
      !OutOfTime(p.spec, p.synced[i], p.inputs.jobs(i), p.inputs.syncedAt) && p.synced[i] == p.drained[i]
  {
    PassKeepsStatusOk(op, p);
    PassKeepsKeys(op, p);
    var e := p.approved[i];
    assert EventOk(op, e) && EventOk(op, p.drained[i]);
    PhaseFacts(CtxOf(op, p), p.detected, p.inputs.approvals, p.approved, p.outcomes, i);
    var input := OnNode(p.inputs.drains(i), e.key.node in p.inputs.nodeNames);
    if e.state.Draining? {
      var found := DrainCheck(ScopeOf(op, p.spec), input.view, e.key.node, e.key.bdf);
      DrainKeepsItsDeadline(op, p.spec, e, found, input.accepted, p.inputs.drainedAt);
    }
    DrainContinues(op, p.spec, e, input, p.inputs.drainedAt);
    if p.drained[i].state.InProgress? {
      JobNameIsSet(op, p.drained[i]);
      JobKeepsItsDeadline(p.spec, p.drained[i], p.inputs.jobs(i), p.inputs.syncedAt);
    }
  }

  lemma JobNameIsSet(op: Operator, e: Event)
    requires GoodScheme(op.names) && EventOk(op, e) && e.state.InProgress?
    ensures e.jobName != ""
  {
  }

  /**
   The Job of a drained event is created exactly when, as this very pass saw it, the node is there and tainted and
   emptied, the GPU released and the Job accepted.
   */
  lemma PassResetsExactlyWhenSafe(op: Operator, p: Pass, i: nat)
    requires ValidPass(op, p) && i < |p.drained| && p.approved[i].state.Draining?
    ensures var e, input := p.approved[i], p.inputs.drains(i);
      p.drained[i].state.InProgress? <==>
        && e.key.node in p.inputs.nodeNames && SafeToReset(op, p.spec, input.view, e.key)
        && input.accepted && Runnable(p.spec, e)
  {
    DrainMovesExactly(op, p.spec, p.approved[i], DrainInputOf(p, i), p.inputs.drainedAt);
  }
}
