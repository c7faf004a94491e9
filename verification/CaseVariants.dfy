/** Two GPUs of one node whose addresses differ in letter case alone defeat the one-recovery-per-node rule. */
module CaseVariants {
  import opened Prelude
  import opened Naming
  import opened RecoveryEvents
  import opened Approvals
  import opened ApprovalMerge
  import opened Reconciler
  import opened Runs
  import opened PlanRuns
  import opened Scenarios

  /** A standing approval for everything. */
  const ANY := Approval("app-00000000", "", Some(Selector(Untyped, "", map[])), None, true, false)

  /** Two GPUs whose events get one ID, on one node or two: both resets run, under one Job. */
  lemma TwinPass(op: Operator, k: DeviceKey, k': DeviceKey) returns (p: Pass)
    requires ValidBdf(k.bdf) && ValidBdf(k'.bdf) && k != k' && op.names.event(k, Sbr) == op.names.event(k', Sbr)
    ensures ValidPass(op, p) && p.spec == SPEC && p.events == [] && p.approvals == [ANY]
    ensures p.inputs.nodeNames == {k.node, k'.node} && p.needs.Keys == {k, k'} && |p.synced| == 2
    ensures p.synced[0].key == k && p.synced[1].key == k'
    ensures p.synced[0].state.InProgress? && p.synced[1].state.InProgress? && p.synced[0].jobName == p.synced[1].jobName
  {
    var keys := [k, k'];
    TwinsStart(op, k, k');
    Pair(k, k');
    p := FreshPassRuns(op, keys, ANY);
    assert p.synced[0].key == keys[0] && p.synced[1].key == keys[1];
  }

  lemma TwinsStart(op: Operator, k: DeviceKey, k': DeviceKey)
    requires ValidBdf(k.bdf) && ValidBdf(k'.bdf) && k != k' && op.names.event(k, Sbr) == op.names.event(k', Sbr)
    ensures Startable(op, [k, k'], ANY)
  {
  }

  lemma Pair(k: DeviceKey, k': DeviceKey)
    ensures NodesOf([k, k']) == {k.node, k'.node} && Elems([k, k']) == {k, k'}
  {
    assert [k, k'][0] == k && [k, k'][1] == k';
  }

  lemma VariantsShareId(op: Operator, k: DeviceKey, k': DeviceKey)
    requires GoodScheme(op.names) && ValidBdf(k.bdf) && ValidBdf(k'.bdf)
    requires k.node == k'.node && LowerCase(k.bdf) == LowerCase(k'.bdf)
    ensures op.names.event(k, Sbr) == op.names.event(k', Sbr)
  {
    assert k == DeviceKey(k.node, k.bdf) && k' == DeviceKey(k.node, k'.bdf);
  }

  lemma CollidingRun(op: Operator, name: string, hardware: set<DeviceKey>, k: DeviceKey, k': DeviceKey)
    returns (states: seq<Server>, steps: seq<Step>)
    requires ValidBdf(k.bdf) && ValidBdf(k'.bdf) && k != k' && op.names.event(k, Sbr) == op.names.event(k', Sbr)
    requires k.node == k'.node && {k, k'} <= hardware
    ensures RunWithin(op, name, hardware, states, steps) && |states| == 2 && !Exclusive(states[1].events)
  {
    var p := TwinPass(op, k, k');
    IsAdmissible(ANY);
    OnePassRunWithin(op, name, hardware, p, [ANY]);
    TwoActive(p.synced);
    states, steps := [Before(p), After(name, p, [ANY])], [Reconcile(p, true, true, [ANY])];
  }

  lemma TwoActive(events: seq<Event>)
    requires |events| == 2 && events[0].key.node == events[1].key.node && events[0].Active() && events[1].Active()
    ensures !Exclusive(events)
  {
  }

  /**
   One recovery per node is guaranteed over every run exactly when the addresses on each node stay
   different after lower-casing.
   */
  lemma ExclusiveExactlyWhenCaseDistinct(op: Operator, name: string, hardware: set<DeviceKey>)
    requires GoodScheme(op.names)
    requires forall key :: key in hardware ==> ValidBdf(key.bdf)
    ensures CaseDistinct(hardware) <==> forall states: seq<Server>, steps: seq<Step>, n ::
      RunWithin(op, name, hardware, states, steps) && 0 <= n < |states| ==> Exclusive(states[n].events)
  {
    if CaseDistinct(hardware) {
      forall states: seq<Server>, steps: seq<Step>, n |
        RunWithin(op, name, hardware, states, steps) && 0 <= n < |states|
        ensures Exclusive(states[n].events)
      {
        ReachableExclusive(op, name, hardware, states, steps, n);
      }
    } else {
      var a, b :| a in hardware && b in hardware && a.node == b.node && LowerCase(a.bdf) == LowerCase(b.bdf) && a != b;
      VariantsShareId(op, a, b);
      var states, steps := CollidingRun(op, name, hardware, a, b);
      assert RunWithin(op, name, hardware, states, steps) && !Exclusive(states[1].events);
    }
  }
}
