/** Passes over tainted GPUs in which the cluster grants everything: what the counterexamples are built from. */
module Scenarios {
  import opened Prelude
  import opened Naming
  import opened NodeDrain
  import opened NodeTaints
  import opened RecoveryEvents
  import opened Detection
  import opened Approvals
  import opened ApprovalMerge
  import opened Reconciler
  import opened Runs
  import opened PlanRuns

  const SPEC :=
    PlanSpec("0xe20b", Sbr, 1, true, 300, [], 300, 600, None, "registry.example/xpumanager:1.3", false, false)

  // ---------------------------------------------------------------- detection

  function SliceFor(k: DeviceKey): Slice {
    Slice(GPU_DRIVER, Some(k.node), k.node, [Device(k.bdf, "0xe20b", k.bdf, [TAINT_RESET])])
  }

  function SlicesFor(keys: seq<DeviceKey>): seq<Slice> {
    seq(|keys|, i requires 0 <= i < |keys| => SliceFor(keys[i]))
  }

  function NeedsFor(keys: seq<DeviceKey>): Needs {
    map k | k in keys :: Sbr
  }

  lemma OneDemand(k: DeviceKey)
    requires ValidBdf(k.bdf)
    ensures SliceDemands(SPEC, SliceFor(k), 1) == {(k, Sbr)}
  {
    var s := SliceFor(k);
    var taints := s.devices[0].taints;
    assert TaintDemands(SPEC, k, taints) == {(k, Sbr)} by {
      assert taints[0] == TAINT_RESET;
    }
    assert SliceDemands(SPEC, s, 0) == {};
  }

  lemma {:induction false} DemandsFor(keys: seq<DeviceKey>)
    requires forall k :: k in keys ==> ValidBdf(k.bdf)
    ensures Demands(SPEC, SlicesFor(keys)) == set k | k in keys :: (k, Sbr)
  {
    if keys != [] {
      var n := |keys| - 1;
      DemandsFor(keys[..n]);
      OneDemand(keys[n]);
      assert SlicesFor(keys)[..n] == SlicesFor(keys[..n]);
      assert forall k :: k in keys <==> k in keys[..n] || k == keys[n];
    }
  }

  lemma NeedsAreMet(keys: seq<DeviceKey>)
    requires forall k :: k in keys ==> ValidBdf(k.bdf)
    ensures IsNeeds(Demands(SPEC, SlicesFor(keys)), NeedsFor(keys))
  {
    DemandsFor(keys);
  }

  lemma AllHaveKeys(keys: seq<DeviceKey>, events: seq<Event>)
    requires |events| == |keys| && forall i :: 0 <= i < |keys| ==> events[i].key == keys[i]
    ensures forall k :: k in keys ==> HasKey(events, k)
    ensures forall i :: 0 <= i < |keys| ==> events[i].key in NeedsFor(keys).Keys
    ensures Distinct(keys) ==> UniqueKeys(events)
  {
    forall k | k in keys ensures HasKey(events, k) {
      var i :| 0 <= i < |keys| && keys[i] == k;
      assert events[i].key == k;
    }
  }

  /** GPUs that have their event keep it as it is; those listed for the first time get one each, behind them. */
  lemma GpusDetected(op: Operator, keys: seq<DeviceKey>, events: seq<Event>, post: seq<Event>)
    requires Distinct(keys) && |keys| <= MAX_STATUS_EVENTS && forall k :: k in keys ==> ValidBdf(k.bdf)
    requires |events| <= |keys| == |post| && post[..|events|] == events
    requires forall i :: 0 <= i < |keys| ==> post[i].key == keys[i] && !post[i].rtype.Untyped?
    requires forall i :: |events| <= i < |keys| ==> post[i] == NewEvent(op, keys[i], Sbr, 0)
    ensures Detects(op, SPEC, events, Seen(SlicesFor(keys), 0, NeedsFor(keys), post))
  {
    NeedsAreMet(keys);
    AllHaveKeys(keys, post);
    assert forall i :: 0 <= i < |events| ==> events[i] == post[i];
    AllUnresolved(events, NeedsFor(keys));
    AllDetected(op, NeedsFor(keys), events, post);
  }

  lemma AllDetected(op: Operator, needs: Needs, events: seq<Event>, post: seq<Event>)
    requires |events| <= |post| <= MAX_STATUS_EVENTS && UniqueKeys(post)
    requires forall i :: 0 <= i < |events| ==> post[i] == events[i] && !events[i].rtype.Untyped?
    requires forall k :: k in needs.Keys ==> HasKey(post, k) && needs[k] == Sbr
    requires forall i :: |events| <= i < |post| ==> post[i].key in needs && post[i] == NewEvent(op, post[i].key, Sbr, 0)
    ensures Detected(op, events, needs, needs.Keys, post, 0)
  {
  }

  lemma {:induction false} AllUnresolved(events: seq<Event>, needs: Needs)
    requires forall i :: 0 <= i < |events| ==> events[i].key in needs
    ensures Unresolved(events, needs) == events
  {
    if events != [] {
      AllUnresolved(events[..|events| - 1], needs);
    }
  }

  // ---------------------------------------------------------------- approval, drain and Job

  /** A waiting event under its approval, sent into its drain. */
  function Drained(e: Event, a: Approval): Event {
    BeginDrain(RecordApproval(e, a, 0), 0)
  }

  /** The same event with its reset running. */
  function Resetting(op: Operator, e: Event, a: Approval): Event {
    SetState(Drained(e, a).(jobName := op.names.job(e.id, 0)), InProgress, 0)
  }

  const YES := ApprovalInput(None, (image: Image) => true, true)

  function Cleared(slices: seq<Slice>): DrainInput {
    DrainInput(View(true, Some([]), Some(slices), Some([]), (ns: string, name: string) => NotFound), true)
  }

  const STARTED := JobSeen([], Some(0), Some(0), None)

  /** A waiting event with no other ID active on its node is sent into its drain. */
  lemma WaitingDrains(op: Operator, a: Approval, standing: seq<Event>, e: Event)
    requires e.state.WaitingApproval? && e.rtype.Sbr? && e.imageGeneration == 0
    requires a.override.None? && Covers(a, e, None) && !NodeBusy(standing, e.id, e.key.node)
    ensures Decided(Ctx(op, SPEC, [a], 0), standing, e, YES, Drained(e, a), Started(a))
  {
    var c := Ctx(op, SPEC, [a], 0);
    assert FirstCover(c.approvals, e, None, 0) == Some(0);
    assert AfterImageCheck(SPEC, RecordApproval(e, a, 0), YES.pullable, 0) == RecordApproval(e, a, 0);
  }

  /** Over a clear node the reset starts at once. */
  lemma ClearNodeResets(op: Operator, e: Event, slices: seq<Slice>)
    requires e.state.Draining? && e.rtype.Sbr? && e.podsBlocking == [] && e.claimsBlocking == [] && e.pastJobs == []
    ensures DrainEvent(op, SPEC, e, Cleared(slices), 0) == SetState(e.(jobName := op.names.job(e.id, 0)), InProgress, 0)
  {
    ReadyExactlyWhenSafe(ScopeOf(op, SPEC), Cleared(slices).view, e.key.node, e.key.bdf);
  }

  // ---------------------------------------------------------------- the pass

  function NodesOf(keys: seq<DeviceKey>): set<string> {
    set k | k in keys :: k.node
  }

  function Granting(keys: seq<DeviceKey>): Inputs {
    Inputs(SlicesFor(keys), 0, (n: nat) => YES, 0, (n: nat) => Cleared(SlicesFor(keys)), 0, (n: nat) => STARTED, 0,
           NodesOf(keys), true, {})
  }

  function NewEvents(op: Operator, keys: seq<DeviceKey>): seq<Event> {
    seq(|keys|, i requires 0 <= i < |keys| => NewEvent(op, keys[i], Sbr, 0))
  }

  /** The first pass over some tainted GPUs, all under one approval: every reset is running at its end. */
  function FreshPass(op: Operator, keys: seq<DeviceKey>, a: Approval): Pass {
    var found := NewEvents(op, keys);
    var approved := seq(|keys|, i requires 0 <= i < |keys| => Drained(found[i], a));
    var running := seq(|keys|, i requires 0 <= i < |keys| => Resetting(op, found[i], a));
    var outcomes := seq(|keys|, i => Started(a));
    Pass(SPEC, [a], [], Granting(keys), NeedsFor(keys), found, approved, outcomes, running, running,
         Pruned(Spend([a], SpentIds(outcomes)), ReferencedIds(running)))
  }

  ghost predicate Startable(op: Operator, keys: seq<DeviceKey>, a: Approval) {
    && Distinct(keys) && |keys| <= MAX_STATUS_EVENTS && a.override.None?
    && (forall k :: k in keys ==> ValidBdf(k.bdf))
    && (forall i :: 0 <= i < |keys| ==> Covers(a, NewEvent(op, keys[i], Sbr, 0), None))
    && (forall i, j :: 0 <= i < j < |keys| && keys[i].node == keys[j].node ==>
      op.names.event(keys[i], Sbr) == op.names.event(keys[j], Sbr))
  }

  lemma FreshApproval(op: Operator, keys: seq<DeviceKey>, a: Approval)
    requires Startable(op, keys, a)
    ensures var p := FreshPass(op, keys, a);
      ApprovalPhase(CtxOf(op, p), p.detected, p.inputs.approvals, p.approved, p.outcomes)
  {
    var p := FreshPass(op, keys, a);
    forall j | 0 <= j < |keys|
      ensures Decided(Ctx(op, SPEC, [a], 0), Standing(p.detected, p.approved, j), p.detected[j], YES,
                      p.approved[j], p.outcomes[j])
    {
      var standing := Standing(p.detected, p.approved, j);
      forall i | 0 <= i < |standing| ensures !Occupies(standing[i], p.detected[j].id, p.detected[j].key.node) {
      }
      WaitingDrains(op, a, standing, p.detected[j]);
    }
  }

  lemma FreshDrain(op: Operator, keys: seq<DeviceKey>, a: Approval)
    ensures var p := FreshPass(op, keys, a);
      DrainPhase(op, p.spec, p.approved, p.inputs.drains, p.inputs.nodeNames, p.inputs.drainedAt, p.drained)
  {
    var p := FreshPass(op, keys, a);
    forall i | 0 <= i < |keys|
      ensures p.drained[i] == DrainEvent(op, SPEC, p.approved[i], DrainInputOf(p, i), 0)
    {
      assert keys[i] in keys && keys[i].node in NodesOf(keys);
      ClearNodeResets(op, p.approved[i], SlicesFor(keys));
      assert OnNode(p.inputs.drains(i), true) == Cleared(SlicesFor(keys));
    }
  }

  lemma StillResetting(op: Operator, e: Event, a: Approval)
    ensures SyncEvent(SPEC, Resetting(op, e, a), STARTED, 0) == Resetting(op, e, a)
  {
  }

  lemma FreshSync(op: Operator, keys: seq<DeviceKey>, a: Approval)
    ensures var p := FreshPass(op, keys, a); SyncPhase(p.spec, p.drained, p.inputs.jobs, p.inputs.syncedAt, p.synced)
  {
    var p := FreshPass(op, keys, a);
    forall i | 0 <= i < |keys| ensures p.synced[i] == SyncEvent(SPEC, p.drained[i], STARTED, 0) {
      StillResetting(op, p.detected[i], a);
    }
  }

  lemma FreshPassIsValid(op: Operator, keys: seq<DeviceKey>, a: Approval)
    requires Startable(op, keys, a)
    ensures ValidPass(op, FreshPass(op, keys, a))
  {
    GpusDetected(op, keys, [], NewEvents(op, keys));
    FreshApproval(op, keys, a);
    FreshDrain(op, keys, a);
    FreshSync(op, keys, a);
  }

  lemma FreshEvents(op: Operator, keys: seq<DeviceKey>, a: Approval)
    ensures var p := FreshPass(op, keys, a);
      && |p.synced| == |p.approved| == |keys|
      && forall i :: 0 <= i < |keys| ==>
           && p.synced[i] == Resetting(op, NewEvent(op, keys[i], Sbr, 0), a) && p.approved[i].state.Draining?
           && p.synced[i].key == keys[i] && p.synced[i].state.InProgress?
           && p.synced[i].jobName == op.names.job(op.names.event(keys[i], Sbr), 0)
  {
  }

  /** The pass is one the controller can run, and it leaves every reset running under the Job of attempt 0. */
  lemma FreshPassRuns(op: Operator, keys: seq<DeviceKey>, a: Approval) returns (p: Pass)
    requires Startable(op, keys, a)
    ensures ValidPass(op, p) && p.spec == SPEC && p.events == [] && p.approvals == [a]
    ensures p.inputs.nodeNames == NodesOf(keys)
    ensures p.needs.Keys == Elems(keys) && p.outcomes == seq(|keys|, i => Started(a))
    ensures p.detected == NewEvents(op, keys)
    ensures |p.synced| == |p.approved| == |keys| && forall i :: 0 <= i < |keys| ==>
      && p.synced[i] == Resetting(op, NewEvent(op, keys[i], Sbr, 0), a) && p.approved[i].state.Draining?
      && p.synced[i].key == keys[i] && p.synced[i].state.InProgress?
      && p.synced[i].jobName == op.names.job(op.names.event(keys[i], Sbr), 0)
  {
    p := FreshPass(op, keys, a);
    FreshPassIsValid(op, keys, a);
    FreshEvents(op, keys, a);
    assert p.needs.Keys == Elems(keys);
  }

  /** The same cluster, without taints. */
  function Bare(names: set<string>): Nodes {
    map n | n in names :: []
  }

  function Before(p: Pass): Server {
    Server(p.spec, p.approvals, p.events, Bare(p.inputs.nodeNames))
  }

  /** The plan and the nodes after a pass whose writes both land over the list as `current` stands. */
  function After(name: string, p: Pass, current: seq<Approval>): Server {
    Server(p.spec, Merge(Diff(p.approvals, p.kept), current), p.synced, PassTaints(Bare(p.inputs.nodeNames), name, p))
  }

  /** A pass over an empty status is a run of one step. */
  lemma OnePassRun(op: Operator, name: string, p: Pass, current: seq<Approval>)
    requires ValidPass(op, p) && p.events == [] && Admissible(p.approvals) && Admissible(current)
    ensures Next(op, name, Before(p), Reconcile(p, true, true, current), After(name, p, current))
    ensures Run(op, name, [Before(p), After(name, p, current)], [Reconcile(p, true, true, current)])
  {
    assert Bare(p.inputs.nodeNames).Keys == p.inputs.nodeNames;
  }

  lemma OnePassRunWithin(op: Operator, name: string, hardware: set<DeviceKey>, p: Pass, current: seq<Approval>)
    requires ValidPass(op, p) && p.events == [] && Admissible(p.approvals) && Admissible(current)
    requires p.needs.Keys <= hardware
    ensures RunWithin(op, name, hardware, [Before(p), After(name, p, current)], [Reconcile(p, true, true, current)])
  {
    OnePassRun(op, name, p, current);
    assert NextWithin(op, name, hardware, Before(p), Reconcile(p, true, true, current), After(name, p, current));
  }

  lemma IsAdmissible(a: Approval)
    requires a.id != "" && WellShaped(a) && (a.override.Some? ==> !a.override.value.Untyped?)
    ensures Admissible([a])
  {
  }
}
