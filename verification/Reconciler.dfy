/** One reconcile pass over a plan, phase by phase, as the controller runs it. */
module Reconciler {
  import opened Prelude
  import opened NodeDrain
  import opened NodeTaints
  import opened RecoveryEvents
  import opened Detection
  import opened Approvals
  import opened ApprovalMerge

  const RECOVERY_TAINT_KEY := "gpurecoveryplan.intel.com/recovery"

  function RecoveryTaint(planName: string): Taint {
    Taint(RECOVERY_TAINT_KEY, planName, "NoSchedule", None)
  }

  /** What the cluster shows and answers over one pass, and the clock as each phase reads it. */
  datatype Inputs = Inputs(
    slices: seq<Slice>, detectedAt: Time,
    approvals: nat -> ApprovalInput, approvedAt: Time,
    drains: nat -> DrainInput, drainedAt: Time,
    jobs: nat -> JobRead, syncedAt: Time,
    nodeNames: set<string>, nodesListed: bool, nodesFailing: set<string>)

  /** A pass with everything it went through: the plan it read, each phase's result, the approvals it leaves. */
  datatype Pass = Pass(
    spec: PlanSpec, approvals: seq<Approval>, events: seq<Event>, inputs: Inputs,
    needs: Needs, detected: seq<Event>, approved: seq<Event>, outcomes: seq<Outcome>,
    drained: seq<Event>, synced: seq<Event>, kept: seq<Approval>)

  /** The taint call can only have succeeded on a node that exists. */
  function OnNode(i: DrainInput, known: bool): DrainInput {
    i.(view := i.view.(taintSet := i.view.taintSet && known))
  }

  function CtxOf(op: Operator, p: Pass): Ctx {
    Ctx(op, p.spec, p.approvals, p.inputs.approvedAt)
  }

  function DrainInputOf(p: Pass, i: nat): DrainInput
    requires i < |p.approved|
  {
    OnNode(p.inputs.drains(i), p.approved[i].key.node in p.inputs.nodeNames)
  }

  ghost predicate DrainPhase(op: Operator, spec: PlanSpec, pre: seq<Event>, inputs: nat -> DrainInput,
                             names: set<string>, now: Time, post: seq<Event>) {
    |post| == |pre| && forall i :: 0 <= i < |pre| ==>
      post[i] == DrainEvent(op, spec, pre[i], OnNode(inputs(i), pre[i].key.node in names), now)
  }

  ghost predicate SyncPhase(spec: PlanSpec, pre: seq<Event>, jobs: nat -> JobRead, now: Time, post: seq<Event>) {
    |post| == |pre| && forall i :: 0 <= i < |pre| ==> post[i] == SyncEvent(spec, pre[i], jobs(i), now)
  }

  ghost predicate ValidPass(op: Operator, p: Pass) {
    && DetectionPhase(op, p.spec, p.inputs.slices, p.needs, p.events, p.detected, p.inputs.detectedAt)
    && ApprovalPhase(CtxOf(op, p), p.detected, p.inputs.approvals, p.approved, p.outcomes)
    && DrainPhase(op, p.spec, p.approved, p.inputs.drains, p.inputs.nodeNames, p.inputs.drainedAt, p.drained)
    && SyncPhase(p.spec, p.drained, p.inputs.jobs, p.inputs.syncedAt, p.synced)
    && p.kept == Pruned(Spend(p.approvals, SpentIds(p.outcomes)), ReferencedIds(p.synced))
  }

  /** The nodes the drain phase managed to taint. */
  function DrainingNodes(events: seq<Event>, inputs: nat -> DrainInput): set<string> {
    set i | 0 <= i < |events| && events[i].state.Draining? && inputs(i).view.taintSet :: events[i].key.node
  }

  predicate WantsTaint(spec: PlanSpec, e: Event) {
    e.Active() || (e.state.Blocked? && NeedsDrain(spec, e))
  }

  function WantedNodes(spec: PlanSpec, events: seq<Event>): set<string> {
    set i | 0 <= i < |events| && WantsTaint(spec, events[i]) :: events[i].key.node
  }

  /** How far a pass got. */
  datatype Exit = NothingDone | DetectionDone(needs: Needs) | PassDone(pass: Pass)

  /** One event's turn at tainting its node, seen from all of them. */
  lemma HeldTurn(nodes: Nodes, t: Taint, events: seq<Event>, inputs: nat -> DrainInput, i: nat)
    requires i < |events|
    ensures var e, was := events[i], Held(nodes, t, DrainingNodes(events[..i], inputs));
      Held(nodes, t, DrainingNodes(events[..i + 1], inputs)) ==
        if e.state.Draining? && inputs(i).view.taintSet && e.key.node in was
        then was[e.key.node := WithTaint(was[e.key.node], t)] else was
  {
    DrainingGrows(events, inputs, i);
    var held, n := DrainingNodes(events[..i], inputs), events[i].key.node;
    if n in nodes {
      HeldMore(nodes, t, held, n);
    } else {
      assert Held(nodes, t, held + {n}) == Held(nodes, t, held);
    }
    assert held + {} == held;
  }

  /** The approval loop after i events. */
  ghost predicate DecidedUpTo(c: Ctx, events: seq<Event>, inputs: nat -> ApprovalInput, post: seq<Event>,
                              outcomes: seq<Outcome>, i: nat)
  {
    && |outcomes| == i <= |events| == |post| && post[i..] == events[i..]
    && forall j :: 0 <= j < i ==> Decided(c, Standing(events, post, j), events[j], inputs(j), post[j], outcomes[j])
  }

  lemma DecidedNext(c: Ctx, events: seq<Event>, inputs: nat -> ApprovalInput, post: seq<Event>,
                    outcomes: seq<Outcome>, i: nat, evt: Event, o: Outcome)
    requires DecidedUpTo(c, events, inputs, post, outcomes, i) && i < |events|
    requires Decided(c, post, post[i], inputs(i), evt, o)
    ensures DecidedUpTo(c, events, inputs, post[i := evt], outcomes + [o], i + 1)
  {
    assert post == Standing(events, post, i) && post[i] == events[i];
    assert forall j :: 0 <= j <= i ==> Standing(events, post[i := evt], j) == Standing(events, post, j);
  }

  class RecoveryPlan {
    const op: Operator
    const name: string
    var spec: PlanSpec
    var approvals: seq<Approval>
    var events: seq<Event>

    constructor (op: Operator, name: string, spec: PlanSpec, approvals: seq<Approval>)
      ensures this.op == op && this.name == name && this.spec == spec && this.approvals == approvals && events == []
    {
      this.op, this.name, this.spec, this.approvals, events := op, name, spec, approvals, [];
    }

    /** One event per device. */
    ghost predicate Valid()
      reads this
    {
      UniqueKeys(events)
    }

    /** listed: the API server answered the list call. */
    method SyncRecoveryEventsFromSlices(slices: seq<Slice>, listed: bool, now: Time)
      returns (ok: bool, ghost needs: Needs)
      requires Valid()
      modifies this`events
      ensures ok == listed && Valid()
      ensures if ok then DetectionPhase(op, spec, slices, needs, old(events), events, now) else events == old(events)
    {
      needs := map[];
      if !listed { return false, needs; }
      var active := ScanSlices(spec, slices);
      UnresolvedKeeps(events, active);
      events := RemoveResolved(events, active);
      events := AddNewEvents(op, events, active, now);
      return true, active;
    }

    method ProcessApprovals(inputs: nat -> ApprovalInput, now: Time) returns (ghost outcomes: seq<Outcome>)
      modifies this`events, this`approvals
      ensures ApprovalPhase(Ctx(op, spec, old(approvals), now), old(events), inputs, events, outcomes)
      ensures approvals == Spend(old(approvals), SpentIds(outcomes))
    {
      var c := Ctx(op, spec, approvals, now);
      var consumedIds, blockedIds := {}, {};
      outcomes := [];
      for i := 0 to |events|
        invariant approvals == old(approvals) && DecidedUpTo(c, old(events), inputs, events, outcomes, i)
        invariant consumedIds == UsedIds(outcomes) && blockedIds == HeldIds(outcomes)
      {
        var evt, o := DecideEvent(c, events, events[i], inputs(i));
        if o.HeldBack? {
          blockedIds := blockedIds + {o.approval.id};
        } else if o.Started? && !o.approval.persistent {
          consumedIds := consumedIds + {o.approval.id};
        }
        DecidedNext(c, old(events), inputs, events, outcomes, i, evt, o);
        IdsAfter(outcomes, o);
        events := events[i := evt];
        outcomes := outcomes + [o];
      }
      ConsumeApprovals(consumedIds, blockedIds);
    }

    /** Marks every used approval that holds nothing back, in whatever order the IDs come. */
    method ConsumeApprovals(consumedIds: set<string>, blockedIds: set<string>)
      modifies this`approvals
      ensures approvals == Spend(old(approvals), consumedIds - blockedIds)
    {
      var todo := consumedIds;
      ghost var done := {};
      assert approvals == Spend(approvals, {});
      while todo != {}
        invariant todo <= consumedIds && done == consumedIds - todo - blockedIds
        invariant approvals == Spend(old(approvals), done)
        decreases todo
      {
        var id :| id in todo;
        todo := todo - {id};
        if id in blockedIds { continue; }
        SpendMore(old(approvals), done, id);
        SetApprovalConsumed(id);
        done := done + {id};
      }
    }

    method SetApprovalConsumed(id: string)
      modifies this`approvals
      ensures approvals == Spend(old(approvals), {id})
    {
      for i := 0 to |approvals|
        invariant approvals == old(approvals)
        invariant forall j :: 0 <= j < i ==> approvals[j].id != id
      {
        if approvals[i].id == id {
          approvals := approvals[i := approvals[i].(consumed := true)];
          return;
        }
      }
    }

    method ProcessDrains(cluster: Cluster, inputs: nat -> DrainInput, now: Time)
      modifies this`events, cluster
      ensures DrainPhase(op, spec, old(events), inputs, old(cluster.nodes.Keys), now, events)
      ensures cluster.nodes == Held(old(cluster.nodes), RecoveryTaint(name), DrainingNodes(old(events), inputs))
    {
      var taint := RecoveryTaint(name);
      assert cluster.nodes == Held(cluster.nodes, taint, DrainingNodes(events[..0], inputs));
      for i := 0 to |events|
        invariant |events| == |old(events)| && events[i..] == old(events)[i..]
        invariant forall j :: 0 <= j < i ==>
          events[j] == DrainEvent(op, spec, old(events)[j],
            OnNode(inputs(j), old(events)[j].key.node in old(cluster.nodes)), now)
        invariant cluster.nodes == Held(old(cluster.nodes), taint, DrainingNodes(old(events)[..i], inputs))
      {
        var evt := events[i];
        HeldTurn(old(cluster.nodes), taint, old(events), inputs, i);
        if !evt.state.Draining? { continue; }
        evt := DrainTurn(cluster, taint, evt, inputs(i), now);
        events := events[i := evt];
      }
      assert old(events)[..|events|] == old(events);
    }

    /** Taint the node, then see how far the drain has come. */
    method DrainTurn(cluster: Cluster, taint: Taint, e: Event, i: DrainInput, now: Time) returns (evt: Event)
      requires e.state.Draining?
      modifies cluster
      ensures evt == DrainEvent(op, spec, e, OnNode(i, e.key.node in old(cluster.nodes)), now) && evt.key == e.key
      ensures var n, was := e.key.node, old(cluster.nodes);
        cluster.nodes == if i.view.taintSet && n in was then was[n := WithTaint(was[n], taint)] else was
    {
      var known := e.key.node in cluster.nodes;
      var tainted, _ := cluster.EnsureNodeTaint(e.key.node, taint, i.view.taintSet && known);
      assert OnNode(i, tainted) == OnNode(i, known);
      DrainContinues(op, spec, e, OnNode(i, known), now);
      evt := AdvanceDrain(op, spec, e, OnNode(i, tainted), now);
    }

    method SyncJobStatuses(jobs: nat -> JobRead, now: Time)
      modifies this`events
      ensures SyncPhase(spec, old(events), jobs, now, events)
    {
      for i := 0 to |events|
        invariant |events| == |old(events)| && events[i..] == old(events)[i..]
        invariant forall j :: 0 <= j < i ==> events[j] == SyncEvent(spec, old(events)[j], jobs(j), now)
      {
        var evt := events[i];
        if !evt.state.InProgress? || evt.jobName == "" { continue; }
        match jobs(i) {
          case JobReadFailed =>
          case JobGone =>
            if Overdue(JobTimeout(spec, evt), evt.lastUpdated, now) { evt := CloseJob(evt, Failed, now); }
          case JobSeen(conditions, startTime, created, deadline) =>
            var verdict := Verdict(conditions);
            if verdict.Some? {
              evt := CloseJob(evt, if verdict.value.JobComplete? then Succeeded else Failed, now);
            } else if Overdue(JobDeadline(spec, evt, jobs(i)), if startTime.Some? then startTime else created, now) {
              evt := CloseJob(evt, Failed, now);
            }
        }
        events := events[i := evt];
      }
    }

    method PruneConsumedApprovals()
      modifies this`approvals
      ensures approvals == Pruned(old(approvals), ReferencedIds(events))
    {
      var referenced := {};
      for i := 0 to |events|
        invariant referenced == ReferencedIds(events[..i])
      {
        assert events[..i + 1] == events[..i] + [events[i]];
        if events[i].approvalId != "" { referenced := referenced + {events[i].approvalId}; }
      }
      assert events[..|events|] == events;
      var kept := [];
      for i := 0 to |approvals|
        invariant kept == Pruned(approvals[..i], referenced) && approvals == old(approvals)
      {
        assert approvals[..i + 1][..i] == approvals[..i];
        var a := approvals[i];
        if a.consumed && !a.persistent && a.id !in referenced { continue; }
        kept := kept + [a];
      }
      assert approvals[..|approvals|] == approvals;
      approvals := kept;
    }

    method ReconcileDrainTaints(cluster: Cluster, listed: bool, failing: set<string>)
      modifies cluster
      ensures var was, keep := old(cluster.nodes), WantedNodes(spec, events) + failing;
        cluster.nodes == if listed then Released(was, RecoveryTaint(name), keep) else was
    {
      var wanted := {};
      for i := 0 to |events|
        invariant wanted == WantedNodes(spec, events[..i])
      {
        assert events[..i + 1] == events[..i] + [events[i]];
        match events[i].state {
          case Draining => wanted := wanted + {events[i].key.node};
          case InProgress => wanted := wanted + {events[i].key.node};
          case Blocked => if NeedsDrain(spec, events[i]) { wanted := wanted + {events[i].key.node}; }
          case _ =>
        }
      }
      assert events[..|events|] == events;
      cluster.UntaintNodesExcept(RecoveryTaint(name), wanted, listed, failing);
    }

    /**
     The phases in their fixed order. A failed list call ends the pass before it has done anything; a failure
     to set up the OpenShift resources (`ready`) ends it after detection; otherwise it runs to its end.
     */
    method Reconcile(cluster: Cluster, inputs: Inputs, listed: bool, ready: bool) returns (ghost exit: Exit)
      requires Valid()
      requires inputs.nodeNames == cluster.nodes.Keys
      modifies this`events, this`approvals, cluster
      ensures Valid() && exit.NothingDone? == !listed && exit.DetectionDone? == (listed && !ready)
      ensures !exit.PassDone? ==> approvals == old(approvals) && cluster.nodes == old(cluster.nodes)
      ensures exit.NothingDone? ==> events == old(events)
      ensures exit.DetectionDone? ==>
        DetectionPhase(op, spec, inputs.slices, exit.needs, old(events), events, inputs.detectedAt)
      ensures exit.PassDone? ==>
        && ValidPass(op, exit.pass) && exit.pass.inputs == inputs
        && exit.pass.spec == spec && exit.pass.approvals == old(approvals) && exit.pass.events == old(events)
        && events == exit.pass.synced && approvals == exit.pass.kept
        && cluster.nodes == PassTaints(old(cluster.nodes), name, exit.pass)
    {
      ghost var approvals0, events0 := approvals, events;
      var ok;
      ghost var needs;
      ok, needs := SyncRecoveryEventsFromSlices(inputs.slices, listed, inputs.detectedAt);
      if !ok { return NothingDone; }
      if !ready { return DetectionDone(needs); }
      ghost var detected := events;
      ghost var outcomes := ProcessApprovals(inputs.approvals, inputs.approvedAt);
      ghost var approved := events;
      ProcessDrains(cluster, inputs.drains, inputs.drainedAt);
      ghost var drained := events;
      SyncJobStatuses(inputs.jobs, inputs.syncedAt);
      PruneConsumedApprovals();
      ReconcileDrainTaints(cluster, inputs.nodesListed, inputs.nodesFailing);
      ghost var pass := Pass(spec, approvals0, events0, inputs, needs, detected, approved, outcomes,
                             drained, events, approvals);
      PassKeepsKeys(op, pass);
      exit := PassDone(pass);
    }
  }

  lemma IdsAfter(outcomes: seq<Outcome>, o: Outcome)
    ensures UsedIds(outcomes + [o]) ==
      UsedIds(outcomes) + if o.Started? && !o.approval.persistent then {o.approval.id} else {}
    ensures HeldIds(outcomes + [o]) == HeldIds(outcomes) + if o.HeldBack? then {o.approval.id} else {}
  {
    var s := outcomes + [o];
    assert forall i :: 0 <= i < |outcomes| ==> s[i] == outcomes[i];
    assert s[|outcomes|] == o;
  }

  lemma DrainingGrows(events: seq<Event>, inputs: nat -> DrainInput, i: nat)
    requires i < |events|
    ensures DrainingNodes(events[..i + 1], inputs) == DrainingNodes(events[..i], inputs) +
      if events[i].state.Draining? && inputs(i).view.taintSet then {events[i].key.node} else {}
  {
    var a, b := events[..i], events[..i + 1];
    assert forall j :: 0 <= j < i ==> b[j] == a[j];
    assert b[i] == events[i];
  }

  /** The node taints a pass leaves behind. */
  function PassTaints(nodes: Nodes, planName: string, p: Pass): Nodes {
    var held := Held(nodes, RecoveryTaint(planName), DrainingNodes(p.approved, p.inputs.drains));
    if p.inputs.nodesListed
    then Released(held, RecoveryTaint(planName), WantedNodes(p.spec, p.synced) + p.inputs.nodesFailing)
    else held
  }

  /** From detection to the end of the pass, every event keeps its place, its device and its ID. */
  lemma PassKeepsKeys(op: Operator, p: Pass)
    requires ValidPass(op, p)
    ensures |p.synced| == |p.drained| == |p.approved| == |p.detected|
    ensures forall i :: 0 <= i < |p.detected| ==>
      && SameRecovery(p.approved[i], p.detected[i])
      && Continues(p.approved[i], p.drained[i]) && Continues(p.drained[i], p.synced[i])
    ensures UniqueKeys(p.detected) ==> UniqueKeys(p.synced)
  {
    forall i | 0 <= i < |p.detected|
      ensures SameRecovery(p.approved[i], p.detected[i]) && Continues(p.approved[i], p.drained[i])
      ensures Continues(p.drained[i], p.synced[i])
    {
      EventThroughPass(op, p, i);
    }
  }

  lemma EventThroughPass(op: Operator, p: Pass, i: nat)
    requires ValidPass(op, p) && i < |p.detected|
    ensures SameRecovery(p.approved[i], p.detected[i]) && Continues(p.approved[i], p.drained[i])
    ensures Continues(p.drained[i], p.synced[i])
    ensures p.synced[i].state.Draining? ==> p.approved[i].state.Draining? && p.synced[i] == p.drained[i]
  {
    PhaseFacts(CtxOf(op, p), p.detected, p.inputs.approvals, p.approved, p.outcomes, i);
    DrainContinues(op, p.spec, p.approved[i], DrainInputOf(p, i), p.inputs.drainedAt);
    SyncContinues(p.spec, p.drained[i], p.inputs.jobs(i), p.inputs.syncedAt);
  }
}
