/** The plan's node taint over passes and runs. */
module PlanTaints {
  import opened Prelude
  import opened NodeTaints
  import opened RecoveryEvents
  import opened Reconciler
  import opened Runs
  import opened PlanRuns
  import opened PlanPasses

  ghost predicate IsPlanTaint(x: Taint, name: string) {
    x.key == "gpurecoveryplan.intel.com/recovery" && x.value == name && x.effect == "NoSchedule"
  }

  /** The node carries the plan's taint. */
  ghost predicate CarriesPlanTaint(taints: seq<Taint>, name: string) {
    exists x :: x in taints && IsPlanTaint(x, name)
  }

  lemma PlanTaintIs(taints: seq<Taint>, name: string)
    ensures CarriesPlanTaint(taints, name) <==> Carries(taints, RecoveryTaint(name))
  {
    forall x ensures IsPlanTaint(x, name) <==> SameTaint(x, RecoveryTaint(name)) {
    }
  }

  /** After the pass some event of the node is draining or recovering, or is a reset that waits to drain it. */
  ghost predicate NodeNeeded(p: Pass, n: string) {
    exists e :: e in p.synced && e.key.node == n && NeedsNode(p.spec, e)
  }

  ghost predicate NeedsNode(spec: PlanSpec, e: Event) {
    match e.state
    case Draining => true
    case InProgress => true
    case Blocked => spec.drainEnabled && e.rtype != Reflash
    case _ => false
  }

  /** The pass came to a draining event of the node, and the taint call succeeded. */
  ghost predicate TaintedNow(p: Pass, n: string) {
    exists i :: 0 <= i < |p.approved| && p.approved[i].state == Draining && p.approved[i].key.node == n
      && p.inputs.drains(i).view.taintSet
  }

  lemma NeededAreWanted(p: Pass, n: string)
    ensures NodeNeeded(p, n) <==> n in WantedNodes(p.spec, p.synced)
  {
    if NodeNeeded(p, n) {
      var e :| e in p.synced && e.key.node == n && NeedsNode(p.spec, e);
      var i :| 0 <= i < |p.synced| && p.synced[i] == e;
      assert WantsTaint(p.spec, p.synced[i]);
    }
    if n in WantedNodes(p.spec, p.synced) {
      var i :| 0 <= i < |p.synced| && WantsTaint(p.spec, p.synced[i]) && p.synced[i].key.node == n;
      assert p.synced[i] in p.synced && NeedsNode(p.spec, p.synced[i]);
    }
  }

  /**
   Who carries the plan's taint after a pass, whatever calls failed, and that every other taint is as it was. A node
   keeps or gets the taint exactly when it had it or was tainted just now, and it is still needed, could not be
   untainted, or nodes could not be listed.
   */
  lemma PassTaintsExactly(name: string, p: Pass, nodes: Nodes, n: string)
    requires n in nodes
    ensures var after := PassTaints(nodes, name, p);
      && n in after
      && (CarriesPlanTaint(after[n], name) <==>
            && (CarriesPlanTaint(nodes[n], name) || TaintedNow(p, n))
            && (NodeNeeded(p, n) || n in p.inputs.nodesFailing || !p.inputs.nodesListed))
      && Others(after[n], RecoveryTaint(name)) == Others(nodes[n], RecoveryTaint(name))
      && forall other :: other != name ==> (CarriesPlanTaint(after[n], other) <==> CarriesPlanTaint(nodes[n], other))
  {
    var t, after := RecoveryTaint(name), PassTaints(nodes, name, p);
    var held, keep := DrainingNodes(p.approved, p.inputs.drains), WantedNodes(p.spec, p.synced) + p.inputs.nodesFailing;
    HeldThenReleased(nodes, t, held, keep, n);
    OthersFacts(nodes[n], t);
    NeededAreWanted(p, n);
    PlanTaintIs(nodes[n], name);
    PlanTaintIs(after[n], name);
    forall other | other != name ensures CarriesPlanTaint(after[n], other) <==> CarriesPlanTaint(nodes[n], other) {
      PlanTaintIs(nodes[n], other);
      PlanTaintIs(after[n], other);
      OtherTaintStays(after[n], nodes[n], t, RecoveryTaint(other));
    }
  }

  /** The pass put the taint on an event's node: the call succeeded, as it has whenever the reset now runs. */
  ghost predicate DrainsNode(p: Pass, i: nat) {
    && i < |p.approved| == |p.synced| && p.approved[i].state.Draining? && p.synced[i].Active()
    && (p.synced[i].state.Draining? ==> DrainInputOf(p, i).view.taintSet)
  }

  lemma ResetRunsOverTaint(op: Operator, p: Pass, i: nat)
    requires ValidPass(op, p) && DrainsNode(p, i)
    ensures DrainInputOf(p, i).view.taintSet && p.approved[i].key == p.synced[i].key
  {
    EventThroughPass(op, p, i);
    if p.synced[i].state.InProgress? {
      PassResetsExactlyWhenSafe(op, p, i);
    }
  }

  /** A node drained this pass for an event that still drains, or whose reset now runs, is tainted. */
  lemma DrainedNodeIsTainted(op: Operator, name: string, p: Pass, nodes: Nodes, i: nat)
    requires ValidPass(op, p) && DrainsNode(p, i) && p.inputs.nodeNames == nodes.Keys
    ensures var n := p.synced[i].key.node; n in nodes && CarriesPlanTaint(PassTaints(nodes, name, p)[n], name)
  {
    ResetRunsOverTaint(op, p, i);
    var n := p.synced[i].key.node;
    assert TaintedNow(p, n) && p.synced[i] in p.synced;
    PassTaintsExactly(name, p, nodes, n);
  }

  /** A step in which the status write lands and nobody else takes the plan's taint away; node calls may fail. */
  ghost predicate NextHolding(op: Operator, name: string, s: Server, step: Step, s': Server) {
    && Next(op, name, s, step, s')
    && (step.Edit? ==> forall n :: Tainted(s, n, name) <= Tainted(s', n, name))
    && (step.Reconcile? ==> step.statusWritten)
  }

  ghost predicate ActiveFor(events: seq<Event>, key: DeviceKey, e: Event) {
    e in events && e.key == key && e.Active()
  }

  ghost function Tainted(s: Server, node: string, name: string): nat {
    if node in s.nodes && CarriesPlanTaint(s.nodes[node], name) then 1 else 0
  }

  lemma PassKeepsTaint(name: string, p: Pass, nodes: Nodes, e: Event)
    requires e in p.synced && e.Active() && e.key.node in nodes && CarriesPlanTaint(nodes[e.key.node], name)
    ensures var after := PassTaints(nodes, name, p);
      e.key.node in after && CarriesPlanTaint(after[e.key.node], name)
  {
    assert NodeNeeded(p, e.key.node);
    PassTaintsExactly(name, p, nodes, e.key.node);
  }

  lemma StepKeepsTaint(op: Operator, name: string, s: Server, step: Step, s': Server, key: DeviceKey, e': Event)
    requires NextHolding(op, name, s, step, s') && ActiveFor(s'.events, key, e')
    ensures Tainted(s, key.node, name) <= Tainted(s', key.node, name)
  {
    if step.Reconcile? && Tainted(s, key.node, name) == 1 {
      PassKeepsTaint(name, step.pass, s.nodes, e');
    }
  }

  /** The pass drained the node of an event and left the event draining or its reset running. */
  ghost predicate LeavesDrained(step: Step, e: Event) {
    step.Reconcile? && exists i: nat :: DrainsNode(step.pass, i) && step.pass.synced[i] == e
  }

  /**
   From the pass that drained it, a node keeps the plan's taint for as long as its event stays draining
   or in progress, whatever is edited meanwhile, the drain switch included, and whatever node calls fail.
   The pass may be the one that approved the event, and may already have started the reset.
   */
  lemma NodeStaysTainted(op: Operator, name: string, states: seq<Server>, steps: seq<Step>, key: DeviceKey, m: nat,
                         line: seq<Event>, n: nat)
    requires Chain((s, t, s') => NextHolding(op, name, s, t, s'), states, steps)
    requires n < |line| && 0 < m && m + |line| <= |states|
    requires forall k :: 0 <= k < |line| ==> ActiveFor(states[m + k].events, key, line[k])
    requires LeavesDrained(steps[m - 1], line[0])
    ensures key.node in states[m + n].nodes && CarriesPlanTaint(states[m + n].nodes[key.node], name)
  {
    var next := (s, step, s') => NextHolding(op, name, s, step, s');
    assert next(states[m - 1], steps[m - 1], states[m]);
    assert ActiveFor(states[m].events, key, line[0]) by {
      assert states[m + 0] == states[m];
    }
    FirstIsTainted(op, name, states[m - 1], steps[m - 1], states[m], key, line[0]);
    var at := (s: Server, e: Event) => ActiveFor(s.events, key, e);
    forall s, step, s', e, e' | next(s, step, s') && at(s, e) && at(s', e')
      ensures Tainted(s, key.node, name) <= Tainted(s', key.node, name)
    {
      StepKeepsTaint(op, name, s, step, s', key, e');
    }
    Rises(next, s => true, at, (s: Server, e: Event) => Tainted(s, key.node, name), states, steps, m, line, n);
  }

  lemma FirstIsTainted(op: Operator, name: string, s: Server, step: Step, s': Server, key: DeviceKey, e: Event)
    requires NextHolding(op, name, s, step, s') && LeavesDrained(step, e) && e.key == key && e.Active()
    ensures Tainted(s', key.node, name) == 1
  {
    var p := step.pass;
    var i: nat :| DrainsNode(p, i) && p.synced[i] == e;
    DrainedNodeIsTainted(op, name, p, s.nodes, i);
  }
}
