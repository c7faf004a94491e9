/** When two events, of one node or of two, run under one and the same Job. */
module SharedJobs {
  import opened Prelude
  import opened Naming
  import opened RecoveryEvents
  import opened Approvals
  import opened ApprovalMerge
  import opened Reconciler
  import opened Runs
  import opened PlanRuns
  import opened Scenarios
  import opened CaseVariants

  function BaseType(e: Event): RecoveryType {
    if e.suggested.Untyped? then e.rtype else e.suggested
  }

  /**
   In every reachable status, two running events share their Job exactly when they are at the same attempt
   and share their ID, or the hash both names fell back to, which none does in its first hundred attempts.
   */
  lemma JobSharedExactlyWhen(h: HashFn, ns: string, name: string, states: seq<Server>, steps: seq<Step>, n: nat,
                             e: Event, e': Event)
    requires Run(Operator(ns, OperatorScheme(h)), name, states, steps) && n < |states|
    requires e in states[n].events && e' in states[n].events && e.state.InProgress? && e'.state.InProgress?
    ensures var k := |e.pastJobs|;
      && (e.jobName == e'.jobName <==> k == |e'.pastJobs| && (e.id == e'.id || HashesMeet(h, e.id, e'.id, k)))
      && (k <= 99 ==> !HashesMeet(h, e.id, e'.id, k))
  {
    var op := Operator(ns, OperatorScheme(h));
    ReachableStatus(op, name, states, steps, n);
    assert EventOk(op, e) && EventOk(op, e');
    JobNamesAgreeExactlyWhen(h, e.key.node, e.key.bdf, BaseType(e), |e.pastJobs|,
                             e'.key.node, e'.key.bdf, BaseType(e'), |e'.pastJobs|);
  }

  /** They share their ID exactly when the segment kept of the node name, the base type and the address agree. */
  lemma IdSharedExactlyWhen(h: HashFn, ns: string, name: string, states: seq<Server>, steps: seq<Step>, n: nat,
                            e: Event, e': Event)
    requires Run(Operator(ns, OperatorScheme(h)), name, states, steps) && n < |states|
    requires e in states[n].events && e' in states[n].events
    ensures e.id == e'.id <==>
      && NodeSegment(h, e.key.node) == NodeSegment(h, e'.key.node) && BaseType(e) == BaseType(e')
      && LowerCase(e.key.bdf) == LowerCase(e'.key.bdf)
  {
    var op := Operator(ns, OperatorScheme(h));
    ReachableStatus(op, name, states, steps, n);
    assert EventOk(op, e) && EventOk(op, e');
    IdsAgreeExactlyWhen(h, e.key.node, e.key.bdf, BaseType(e), e'.key.node, e'.key.bdf, BaseType(e'));
  }

  /** GPUs of two nodes whose events get one ID do end up under one Job. */
  lemma TwinsShareAJob(op: Operator, name: string, k: DeviceKey, k': DeviceKey)
    returns (states: seq<Server>, steps: seq<Step>)
    requires ValidBdf(k.bdf) && ValidBdf(k'.bdf)
    requires k.node != k'.node && op.names.event(k, Sbr) == op.names.event(k', Sbr)
    ensures Run(op, name, states, steps) && |states| == 2 && |states[1].events| == 2
    ensures var a, b := states[1].events[0], states[1].events[1];
      && a.key == k && b.key == k' && a.state.InProgress? && b.state.InProgress? && a.jobName == b.jobName
  {
    var p := TwinPass(op, k, k');
    IsAdmissible(ANY);
    OnePassRun(op, name, p, [ANY]);
    states, steps := [Before(p), After(name, p, [ANY])], [Reconcile(p, true, true, [ANY])];
  }

  /** Nodes `a.b` and `a-b` are such nodes. */
  lemma DottedNodesShareAJob(h: HashFn, ns: string, name: string, bdf: string)
    returns (states: seq<Server>, steps: seq<Step>)
    requires ValidBdf(bdf)
    ensures Run(Operator(ns, OperatorScheme(h)), name, states, steps) && |states| == 2 && |states[1].events| == 2
    ensures var a, b := states[1].events[0], states[1].events[1];
      && a.key.node == "a.b" && b.key.node == "a-b" && a.jobName == b.jobName
      && a.state.InProgress? && b.state.InProgress?
  {
    var op := Operator(ns, OperatorScheme(h));
    assert Dashed("a.b") == "a-b" == Dashed("a-b");
    SegmentsAgreeExactlyWhen(h, "a.b", "a-b");
    IdsAgreeExactlyWhen(h, "a.b", bdf, Sbr, "a-b", bdf, Sbr);
    assert "a.b"[1] != "a-b"[1];
    states, steps := TwinsShareAJob(op, name, DeviceKey("a.b", bdf), DeviceKey("a-b", bdf));
  }
}
