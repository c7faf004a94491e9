/** A blocked event waits for its node and for nothing else. */
module PlanProgress {
  import opened Prelude
  import opened RecoveryEvents
  import opened Detection
  import opened Approvals
  import opened ApprovalMerge
  import opened Reconciler
  import opened Runs
  import opened PlanRuns
  import opened PlanAccounts
  import opened PlanPasses

  type Labels = Option<map<string, string>>

  /** The device's event is blocked and a stored approval covers it. */
  ghost predicate Promised(s: Server, key: DeviceKey, labels: Labels, e: Event, a: Approval) {
    e in s.events && e.key == key && e.state.Blocked? && a in s.approvals && Covers(a, e, labels)
  }

  ghost predicate Waiting(s: Server, key: DeviceKey, labels: Labels) {
    exists e, a :: Promised(s, key, labels, e, a)
  }

  /** Entry i of the pass is this event, as stored, on a node with these labels. */
  ghost predicate Considers(p: Pass, e: Event, labels: Labels, i: nat) {
    i < |p.detected| && p.detected[i] == e && p.inputs.approvals(i).labels == labels
  }

  ghost predicate FindsNodeBusy(p: Pass, i: nat)
    requires i < |p.detected| == |p.approved|
  {
    NodeBusy(Standing(p.detected, p.approved, i), p.detected[i].id, p.detected[i].key.node)
  }

  // ---------------------------------------------------------------- the node is free

  lemma ResetsAlike(spec: PlanSpec, e: Event, a: Approval, pullable: Image -> bool, accepted: bool)
    requires !e.rtype.Untyped? && (a.override.Some? ==> !a.override.value.Untyped?)
    ensures var t := ApplyOverride(e, a).rtype;
      && (ImagesOk(spec, e.imageGeneration, t, pullable) <==> ImagesOk(spec, e.imageGeneration, e.rtype, pullable))
      && (Launches(spec, t, accepted) <==> Launches(spec, e.rtype, accepted))
  {
    assert ImagesFor(spec, ApplyOverride(e, a).rtype) == ImagesFor(spec, e.rtype);
  }

  /** An override never decides whether an event starts, nor which of several approvals covers it. */
  lemma EligibleStartsExactlyWhen(c: Ctx, events: seq<Event>, e: Event, i: ApprovalInput)
    requires Eligible(e) && !e.rtype.Untyped? && TypedOverrides(c.approvals)
    ensures ApproveEvent(c, events, e, i).1.Started? <==>
      && (exists a :: a in c.approvals && Covers(a, e, i.labels))
      && !NodeBusy(events, e.id, e.key.node)
      && ImagesOk(c.spec, e.imageGeneration, e.rtype, i.pullable) && Launches(c.spec, e.rtype, i.accepted)
  {
    StartsExactlyWhen(c, events, e, i);
    var m := FirstCover(c.approvals, e, i.labels, 0);
    if m.Some? {
      assert c.approvals[m.value] in c.approvals;
      ResetsAlike(c.spec, e, c.approvals[m.value], i.pullable, i.accepted);
    } else {
      forall a | a in c.approvals ensures !Covers(a, e, i.labels) {
        var j :| 0 <= j < |c.approvals| && c.approvals[j] == a;
      }
    }
  }

  /** A pass that finds the node of a waiting event free and its images pullable starts it. */
  lemma FreePassStarts(op: Operator, name: string, s: Server, step: Step, s': Server, key: DeviceKey, labels: Labels,
                       e: Event, a: Approval, i: nat)
    requires Next(op, name, s, step, s') && step.Reconcile? && Admissible(s.approvals) && StatusOk(op, s.events)
    requires Promised(s, key, labels, e, a) && Considers(step.pass, e, labels, i)
    requires |step.pass.detected| == |step.pass.approved| == |step.pass.outcomes|
    ensures step.pass.outcomes[i].Started? <==>
      && !FindsNodeBusy(step.pass, i)
      && ImagesOk(s.spec, e.imageGeneration, e.rtype, step.pass.inputs.approvals(i).pullable)
      && Launches(s.spec, e.rtype, step.pass.inputs.approvals(i).accepted)
  {
    var p := step.pass;
    assert EventOk(op, e);
    EligibleStartsExactlyWhen(CtxOf(op, p), Standing(p.detected, p.approved, i), e, p.inputs.approvals(i));
    var standing := Standing(p.detected, p.approved, i);
    assert Decided(CtxOf(op, p), standing, e, p.inputs.approvals(i), p.approved[i], p.outcomes[i]);
  }

  // ---------------------------------------------------------------- the node is busy

  /** An approval an event is held back under covered the event as it was, and is in the list. */
  lemma HeldUnderCover(op: Operator, p: Pass, i: nat)
    requires ValidPass(op, p) && i < |p.detected| == |p.outcomes|
    requires p.outcomes[i].HeldBack? && p.detected[i].state.Blocked?
    ensures p.outcomes[i].approval in p.approvals
    ensures Covers(p.outcomes[i].approval, p.detected[i], p.inputs.approvals(i).labels)
  {
    var c, standing := CtxOf(op, p), Standing(p.detected, p.approved, i);
    assert Decided(c, standing, p.detected[i], p.inputs.approvals(i), p.approved[i], p.outcomes[i]);
    CoverOfHeld(c, standing, p.detected[i], p.inputs.approvals(i));
  }

  lemma CoverOfHeld(c: Ctx, events: seq<Event>, e: Event, i: ApprovalInput)
    requires e.state.Blocked? && ApproveEvent(c, events, e, i).1.HeldBack?
    ensures ApproveEvent(c, events, e, i).1.approval in c.approvals
    ensures Covers(ApproveEvent(c, events, e, i).1.approval, e, i.labels)
  {
    var m := FirstCover(c.approvals, e, i.labels, 0);
    var a := c.approvals[m.value];
    AuthoriseFacts(c, NodeBusy(events, e.id, e.key.node), ApplyOverride(RecordApproval(e, a, c.now), a), a, i);
  }

  /** Whether or not its write lands, a pass leaves an approval it holds an event back under in the stored list. */
  lemma HeldApprovalStaysStored(op: Operator, name: string, s: Server, step: Step, s': Server, i: nat)
    requires Next(op, name, s, step, s') && step.Reconcile? && Admissible(s.approvals)
    requires i < |step.pass.outcomes| && step.pass.outcomes[i].HeldBack?
    requires step.pass.outcomes[i].approval in step.current
    ensures step.pass.outcomes[i].approval in s'.approvals
  {
    var p := step.pass;
    var a, ch := p.outcomes[i].approval, Diff(p.approvals, p.kept);
    PassKeepsHeldApproval(op, p, i);
    PassConsumesId(op, p, a.id);
    assert a.id in HeldIds(p.outcomes);
    assert a.id in IdsOf(p.kept);
    MergeContents(ch, step.current);
    assert Mark(ch, a) == a;
  }

  /**
   A pass that holds an event back leaves it waiting, whether or not the approvals are written, if the
   approval is not deleted meanwhile and does not escape by its override.
   */
  lemma HeldBackWaits(op: Operator, name: string, s: Server, step: Step, s': Server, labels: Labels, i: nat)
    requires Next(op, name, s, step, s') && step.Reconcile? && step.statusWritten && Admissible(s.approvals)
    requires i < |step.pass.detected| == |step.pass.outcomes| && step.pass.inputs.approvals(i).labels == labels
    requires step.pass.outcomes[i].HeldBack? && step.pass.outcomes[i].approval in step.current
    requires !OverrideEscapes(step.pass.outcomes[i].approval, step.pass.detected[i])
    ensures Waiting(s', step.pass.detected[i].key, labels)
  {
    var p := step.pass;
    PassKeepsHeldApproval(op, p, i);
    PassKeepsKeys(op, p);
    HeldApprovalStaysStored(op, name, s, step, s', i);
    assert Promised(s', p.detected[i].key, labels, p.synced[i], p.outcomes[i].approval);
  }

  /** If the status write is lost the event waits as before, its approval still stored, override or not. */
  lemma LostStatusWaits(op: Operator, name: string, s: Server, step: Step, s': Server, labels: Labels, e: Event, i: nat)
    requires Next(op, name, s, step, s') && step.Reconcile? && !step.statusWritten && Admissible(s.approvals)
    requires e in s.events && e.state.Blocked? && Considers(step.pass, e, labels, i)
    requires |step.pass.detected| == |step.pass.outcomes|
    requires step.pass.outcomes[i].HeldBack? && step.pass.outcomes[i].approval in step.current
    ensures Waiting(s', e.key, labels)
  {
    HeldUnderCover(op, step.pass, i);
    HeldApprovalStaysStored(op, name, s, step, s', i);
    assert Promised(s', e.key, labels, e, step.pass.outcomes[i].approval);
  }

  /** A covered, eligible event on a busy node is held back. */
  lemma BusyPassHolds(op: Operator, name: string, s: Server, step: Step, s': Server, key: DeviceKey, labels: Labels,
                      e: Event, a: Approval, i: nat)
    requires Next(op, name, s, step, s') && step.Reconcile? && StatusOk(op, s.events)
    requires Promised(s, key, labels, e, a) && Considers(step.pass, e, labels, i)
    requires |step.pass.detected| == |step.pass.approved| == |step.pass.outcomes| && FindsNodeBusy(step.pass, i)
    ensures step.pass.outcomes[i].HeldBack?
  {
    var p := step.pass;
    var c, standing := CtxOf(op, p), Standing(p.detected, p.approved, i);
    assert EventOk(op, e);
    assert Decided(c, standing, e, p.inputs.approvals(i), p.approved[i], p.outcomes[i]);
    var j :| 0 <= j < |c.approvals| && c.approvals[j] == a;
    assert FirstCover(c.approvals, e, labels, 0).Some?;
  }

  // ---------------------------------------------------------------- over a run

  /** No approval that covers the device's event is taken from the list. */
  ghost predicate KeepsCovers(s: Server, later: seq<Approval>, key: DeviceKey, labels: Labels) {
    forall e, a :: Promised(s, key, labels, e, a) ==> a in later
  }

  /** The pass comes to this event, unchanged by detection, and finds its node busy. */
  ghost predicate HoldsBack(p: Pass, e: Event, labels: Labels, i: nat) {
    |p.detected| == |p.approved| == |p.outcomes| && Considers(p, e, labels, i) && FindsNodeBusy(p, i)
  }

  ghost predicate Escapes(p: Pass, i: nat)
    requires i < |p.outcomes| == |p.detected|
  {
    p.outcomes[i].HeldBack? && OverrideEscapes(p.outcomes[i].approval, p.detected[i])
  }

  /**
   The step gives the device's event no way out of its wait: its node is busy, the approvals that cover
   it stay, and no status written takes it away. Writes may be lost.
   */
  ghost predicate Idles(s: Server, step: Step, s': Server, key: DeviceKey, labels: Labels) {
    match step
    case Edit => KeepsCovers(s, s'.approvals, key, labels)
    case Stopped(seen, statusWritten, current) =>
      && KeepsCovers(s, current, key, labels)
      && (statusWritten ==> forall e :: e in s.events && e.key == key ==> e in seen.detected)
    case Reconcile(p, statusWritten, _, current) =>
      && KeepsCovers(s, current, key, labels)
      && forall e :: e in s.events && e.key == key ==>
           exists i :: HoldsBack(p, e, labels, i) && (statusWritten ==> !Escapes(p, i))
  }

  /** Whatever writes are lost, a pass that finds the node busy leaves the event waiting. */
  lemma BusyPassWaits(op: Operator, name: string, s: Server, step: Step, s': Server, key: DeviceKey, labels: Labels,
                      e: Event, a: Approval, i: nat)
    requires Next(op, name, s, step, s') && step.Reconcile? && InOrder(op, s) && Promised(s, key, labels, e, a)
    requires HoldsBack(step.pass, e, labels, i) && (step.statusWritten ==> !Escapes(step.pass, i))
    requires KeepsCovers(s, step.current, key, labels)
    ensures Waiting(s', key, labels)
  {
    BusyPassHolds(op, name, s, step, s', key, labels, e, a, i);
    HeldUnderCover(op, step.pass, i);
    assert Promised(s, key, labels, e, step.pass.outcomes[i].approval);
    if step.statusWritten {
      HeldBackWaits(op, name, s, step, s', labels, i);
    } else {
      LostStatusWaits(op, name, s, step, s', labels, e, i);
    }
  }

  lemma WaitContinues(op: Operator, name: string, s: Server, step: Step, s': Server, key: DeviceKey, labels: Labels)
    requires Next(op, name, s, step, s') && InOrder(op, s) && Waiting(s, key, labels) && Idles(s, step, s', key, labels)
    ensures Waiting(s', key, labels)
  {
    var e, a :| Promised(s, key, labels, e, a);
    if step.Reconcile? {
      var i :| HoldsBack(step.pass, e, labels, i) && (step.statusWritten ==> !Escapes(step.pass, i));
      BusyPassWaits(op, name, s, step, s', key, labels, e, a, i);
    } else {
      assert Promised(s', key, labels, e, a);
    }
  }

  /**
   However long its node stays busy, and whatever writes are lost meanwhile, a blocked event starts in the
   first pass that finds the node free, its images pullable and the Job accepted, and in no pass that does not.
   */
  lemma BlockedEventStarts(op: Operator, name: string, states: seq<Server>, steps: seq<Step>,
                           key: DeviceKey, labels: Labels, step: Step, after: Server, i: nat)
    requires Chain((s, t, s') => Next(op, name, s, t, s') && Idles(s, t, s', key, labels), states, steps)
    requires InOrder(op, states[0]) && Waiting(states[0], key, labels)
    requires var s := states[|steps|];
      && Next(op, name, s, step, after) && step.Reconcile?
      && i < |step.pass.detected| == |step.pass.approved| == |step.pass.outcomes|
      && step.pass.detected[i].key == key && step.pass.detected[i] in s.events
      && step.pass.inputs.approvals(i).labels == labels
    ensures var p, e := step.pass, step.pass.detected[i];
      p.outcomes[i].Started? <==>
        && !FindsNodeBusy(p, i)
        && ImagesOk(p.spec, e.imageGeneration, e.rtype, p.inputs.approvals(i).pullable)
        && Launches(p.spec, e.rtype, p.inputs.approvals(i).accepted)
  {
    var next := (s, t, s') => Next(op, name, s, t, s') && Idles(s, t, s', key, labels);
    var inv := s => InOrder(op, s) && Waiting(s, key, labels);
    forall s, t, s' | inv(s) && next(s, t, s') ensures inv(s') {
      NextKeepsOrder(op, name, s, t, s');
      WaitContinues(op, name, s, t, s', key, labels);
    }
    Always(next, inv, states, steps, |steps|);
    var s := states[|steps|];
    var e, a :| Promised(s, key, labels, e, a);
    OneEventPerDevice(s.events, e, step.pass.detected[i]);
    FreePassStarts(op, name, s, step, after, key, labels, e, a, i);
  }

  lemma OneEventPerDevice(events: seq<Event>, a: Event, b: Event)
    requires UniqueKeys(events) && a in events && b in events && a.key == b.key
    ensures a == b
  {
  }
}
