/**
 What becomes of an event when approvals are processed, told by the fields of the event, the approvals, the other
 events and the plan: which outcome it has, and what the event then looks like.
 */
module ApprovalRules {
  import opened Prelude
  import opened RecoveryEvents
  import opened Approvals

  type Labels = Option<map<string, string>>

  // ---------------------------------------------------------------- the conditions

  /** An unspent approval that names the event. */
  ghost predicate NamesEvent(a: Approval, e: Event) {
    !a.consumed && a.eventId == e.id
  }

  /** An unspent approval that names the event, or whose selector has no field the event contradicts. */
  ghost predicate Authorises(a: Approval, e: Event, labels: Labels) {
    || NamesEvent(a, e)
    || (!a.consumed && a.selector.Some?
        && a.selector.value.rtype in {Untyped, e.rtype} && a.selector.value.nodeName in {"", e.key.node}
        && forall k :: k in a.selector.value.labels ==>
             labels.Some? && k in labels.value && labels.value[k] == a.selector.value.labels[k])
  }

  /** The phase looks at the event: it waits, or it has failed and is named again. */
  ghost predicate Awake(approvals: seq<Approval>, e: Event) {
    match e.state
    case WaitingApproval => true
    case Blocked => true
    case MissingFirmware => true
    case Failed => exists a :: a in approvals && NamesEvent(a, e)
    case Draining => false
    case InProgress => false
    case Succeeded => false
  }

  ghost predicate Authorised(approvals: seq<Approval>, e: Event, labels: Labels) {
    e.rtype != Untyped && exists a :: a in approvals && Authorises(a, e, labels)
  }

  /** Another event is draining or recovering a GPU of the node. */
  ghost predicate NodeTaken(events: seq<Event>, e: Event) {
    exists x :: x in events && x.id != e.id && x.key.node == e.key.node && x.state in {Draining, InProgress}
  }

  ghost predicate XpuSmiPulls(spec: PlanSpec, pullable: Image -> bool) {
    spec.xpuSmiPullNever || spec.xpuSmiImage == "" || pullable(Image(spec.xpuSmiImage, ""))
  }

  ghost predicate FirmwarePulls(spec: PlanSpec, pullable: Image -> bool) {
    match spec.firmware
    case None => true
    case Some(Firmware(file, None)) => true
    case Some(Firmware(file, Some(image))) =>
      file == "" || image == "" || pullable(Image(image, "/fwupdate/" + file))
  }

  /** The images of the event's Job can be pulled: always the tool's, for a reflash the firmware's too. */
  ghost predicate ImagesPull(spec: PlanSpec, e: Event, pullable: Image -> bool) {
    XpuSmiPulls(spec, pullable) && (e.rtype == Reflash ==> FirmwarePulls(spec, pullable))
  }

  /** A failed check is repeated only against an edited plan. */
  ghost predicate ImagesUsable(spec: PlanSpec, e: Event, pullable: Image -> bool) {
    || spec.skipImageVerification
    || (ImagesPull(spec, e, pullable) && (e.imageGeneration == 0 || e.imageGeneration != spec.generation))
  }

  /** A firmware file and the container image it comes in are configured. */
  ghost predicate HasFirmware(spec: PlanSpec) {
    match spec.firmware
    case None => false
    case Some(f) => f.file != "" && f.image != None
  }

  /** A reset drains first if the plan says so; everything else needs its Job accepted, a reflash its firmware. */
  ghost predicate GetsGoing(spec: PlanSpec, e: Event, accepted: bool) {
    if e.rtype == Reflash then HasFirmware(spec) && accepted else spec.drainEnabled || accepted
  }

  // ---------------------------------------------------------------- the outcome

  lemma AuthorisesIsCovers(a: Approval, e: Event, labels: Labels)
    ensures Authorises(a, e, labels) <==> Covers(a, e, labels)
  {
    if a.selector.Some? {
      var wanted := a.selector.value.labels;
      if |wanted| != 0 {
        var k :| k in wanted.Keys;
        assert k in wanted;
      } else {
        assert wanted.Keys == {};
      }
    }
  }

  lemma AwakeIsAdmitted(c: Ctx, e: Event)
    ensures Awake(c.approvals, e) <==> Admitted(c, e).Some?
    ensures Admitted(c, e).Some? ==> var w := Admitted(c, e).value;
      && w.id == e.id && w.key == e.key && w.rtype == e.rtype && w.imageGeneration == e.imageGeneration
  {
    if e.state.Failed? {
      forall a ensures NamesEvent(a, e) <==> Names(a, e) {
      }
    }
  }

  lemma AuthorisedIsCovered(approvals: seq<Approval>, e: Event, w: Event, labels: Labels)
    requires w.id == e.id && w.key == e.key && w.rtype == e.rtype
    ensures Authorised(approvals, e, labels) <==> FirstCover(approvals, w, labels, 0).Some?
  {
    forall a ensures Authorises(a, e, labels) <==> Covers(a, w, labels) {
      AuthorisesIsCovers(a, w, labels);
      assert Authorises(a, e, labels) <==> Authorises(a, w, labels);
    }
  }

  lemma TakenIsBusy(events: seq<Event>, e: Event)
    ensures NodeTaken(events, e) <==> NodeBusy(events, e.id, e.key.node)
  {
    if NodeTaken(events, e) {
      var x :| x in events && x.id != e.id && x.key.node == e.key.node && x.state in {Draining, InProgress};
      var j :| 0 <= j < |events| && events[j] == x;
      assert Occupies(events[j], e.id, e.key.node);
    }
  }

  lemma UsableIsImagesOk(spec: PlanSpec, e: Event, t: RecoveryType, pullable: Image -> bool)
    requires t.Reflash? <==> e.rtype.Reflash?
    ensures ImagesUsable(spec, e, pullable) <==> ImagesOk(spec, e.imageGeneration, t, pullable)
  {
    var images := ImagesFor(spec, t);
    var tool := !spec.xpuSmiPullNever && spec.xpuSmiImage != "";
    assert AllPullable(images, pullable) <==> ImagesPull(spec, e, pullable) by {
      if tool {
        assert images[0] == Image(spec.xpuSmiImage, "");
      }
      if t.Reflash? && FirmwareReady(spec) && spec.firmware.value.image.value != "" {
        assert images[|images| - 1] == Image(spec.firmware.value.image.value, "/fwupdate/" + spec.firmware.value.file);
      }
    }
  }

  lemma GoingIsLaunches(spec: PlanSpec, e: Event, t: RecoveryType, accepted: bool)
    requires (t.Reflash? <==> e.rtype.Reflash?) && !t.Untyped?
    ensures GetsGoing(spec, e, accepted) <==> Launches(spec, t, accepted)
  {
  }

  /** What the conditions say about one event. */
  ghost predicate OutcomeIs(c: Ctx, events: seq<Event>, e: Event, i: ApprovalInput, o: Outcome) {
    var awake, ok := Awake(c.approvals, e), Authorised(c.approvals, e, i.labels);
    var taken, usable := NodeTaken(events, e), ImagesUsable(c.spec, e, i.pullable);
    && (o.Skipped? <==> !awake)
    && (o.NoApproval? <==> awake && !ok)
    && (o.HeldBack? <==> awake && ok && taken)
    && (o.ImagesUnusable? <==> awake && ok && !taken && !usable)
    && (o.NotStarted? <==> awake && ok && !taken && usable && !GetsGoing(c.spec, e, i.accepted))
    && (o.Started? <==> awake && ok && !taken && usable && GetsGoing(c.spec, e, i.accepted))
  }

  lemma OverrideStaysAReset(e: Event, w: Event, a: Approval, now: Time)
    requires w.rtype == e.rtype && !e.rtype.Untyped? && (a.override.Some? ==> !a.override.value.Untyped?)
    ensures var t := ApplyOverride(RecordApproval(w, a, now), a).rtype;
      (t.Reflash? <==> e.rtype.Reflash?) && !t.Untyped?
  {
  }

  lemma AuthoriseOutcome(c: Ctx, busy: bool, ready: Event, a: Approval, i: ApprovalInput)
    requires Eligible(ready)
    ensures var o := Authorise(c, busy, ready, a, i).1;
      var usable := ImagesOk(c.spec, ready.imageGeneration, ready.rtype, i.pullable);
      && !o.Skipped? && !o.NoApproval? && (o.HeldBack? <==> busy) && (o.ImagesUnusable? <==> !busy && !usable)
      && (o.Started? <==> !busy && usable && Launches(c.spec, ready.rtype, i.accepted))
  {
    if !busy && ImagesOk(c.spec, ready.imageGeneration, ready.rtype, i.pullable) {
      LaunchFacts(c, AfterImageCheck(c.spec, ready, i.pullable, c.now), a, i.accepted);
    }
  }

  /** Which outcome an event has, exactly: one clause for each. */
  lemma OutcomeExactly(c: Ctx, events: seq<Event>, e: Event, i: ApprovalInput)
    requires TypedOverrides(c.approvals)
    ensures OutcomeIs(c, events, e, i, ApproveEvent(c, events, e, i).1)
  {
    AwakeIsAdmitted(c, e);
    TakenIsBusy(events, e);
    if Admitted(c, e).Some? {
      var w := Admitted(c, e).value;
      AdmittedFacts(c, e);
      AuthorisedIsCovered(c.approvals, e, w, i.labels);
      var m := FirstCover(c.approvals, w, i.labels, 0);
      if m.Some? {
        var a := c.approvals[m.value];
        var ready := ApplyOverride(RecordApproval(w, a, c.now), a);
        OverrideStaysAReset(e, w, a, c.now);
        UsableIsImagesOk(c.spec, e, ready.rtype, i.pullable);
        GoingIsLaunches(c.spec, e, ready.rtype, i.accepted);
        AuthoriseOutcome(c, NodeBusy(events, w.id, w.key.node), ready, a, i);
      }
    }
  }

  /** A failed event is left alone exactly when no unspent approval names it; a selector never wakes it. */
  lemma FailedWakesExactlyWhen(c: Ctx, events: seq<Event>, e: Event, i: ApprovalInput)
    requires e.state == Failed
    ensures var (r, o) := ApproveEvent(c, events, e, i);
      && (o != Skipped <==> exists a :: a in c.approvals && !a.consumed && a.eventId == e.id)
      && (o == Skipped ==> r == e)
  {
    AwakeIsAdmitted(c, e);
    if Admitted(c, e).Some? {
      AdmittedFacts(c, e);
      var w := Admitted(c, e).value;
      var m := FirstCover(c.approvals, w, i.labels, 0);
      if m.Some? {
        var a := c.approvals[m.value];
        var ready := ApplyOverride(RecordApproval(w, a, c.now), a);
        AuthoriseOutcome(c, NodeBusy(events, w.id, w.key.node), ready, a, i);
      }
    }
    assert Awake(c.approvals, e) <==> exists a :: a in c.approvals && !a.consumed && a.eventId == e.id by {
      if a :| a in c.approvals && !a.consumed && a.eventId == e.id {
        assert NamesEvent(a, e);
      }
    }
  }

  // ---------------------------------------------------------------- the event afterwards

  /** The first listed approval that authorises the event. */
  ghost predicate IsFirst(approvals: seq<Approval>, e: Event, labels: Labels, a: Approval) {
    exists m :: 0 <= m < |approvals| && approvals[m] == a && Authorises(a, e, labels)
      && forall j :: 0 <= j < m ==> !Authorises(approvals[j], e, labels)
  }

  /** An override turns one reset into another, each time it is met; the type first suggested is remembered. */
  ghost predicate TypeFollows(e: Event, a: Approval, r: Event) {
    if e.rtype != Reflash && a.override.Some? && a.override.value !in {Reflash, e.rtype} then
      r.rtype == a.override.value && r.suggested == if e.suggested == Untyped then e.rtype else e.suggested
    else r.rtype == e.rtype && r.suggested == e.suggested
  }

  /** What approving never touches. */
  ghost predicate Untouched(e: Event, r: Event) {
    && r.id == e.id && r.key == e.key && r.pastJobs == e.pastJobs
    && r.podsBlocking == e.podsBlocking && r.claimsBlocking == e.claimsBlocking
  }

  /** The state an event is looked at in: a failed one counts as waiting again. */
  ghost function Base(e: Event): EventState {
    if e.state == Failed then WaitingApproval else e.state
  }

  /** The stamp moves when the state or the approval does, and stands when neither changed. */
  ghost predicate Stamped(e: Event, r: Event, now: Time) {
    && (r.state != e.state || r.approvalId != e.approvalId ==> r.lastUpdated == Some(now))
    && (r.state == e.state && r.approvalId == e.approvalId && e.lastUpdated.Some? ==> r.lastUpdated == e.lastUpdated)
  }

  /** The state, the Job, the drain clock and the image check after each outcome of an authorised event. */
  ghost predicate StateFollows(c: Ctx, e: Event, o: Outcome, r: Event) {
    var refused := e.imageGeneration != 0 && e.imageGeneration == c.spec.generation;
    match o
    case HeldBack(_) =>
      r.state == Blocked && r.jobName == e.jobName && r.drainStartedAt == e.drainStartedAt
      && r.imageGeneration == e.imageGeneration
    case ImagesUnusable(_) =>
      r.state == (if refused then Base(e) else WaitingApproval) && r.imageGeneration == c.spec.generation
      && r.jobName == e.jobName && r.drainStartedAt == e.drainStartedAt
    case NotStarted(_) =>
      r.state == (if e.rtype == Reflash && !HasFirmware(c.spec) then MissingFirmware else Base(e))
      && r.jobName == e.jobName && r.drainStartedAt == e.drainStartedAt
    case Started(_) =>
      if c.spec.drainEnabled && e.rtype != Reflash then
        r.state == Draining && r.drainStartedAt == Some(c.now) && r.jobName == e.jobName
      else
        r.state == InProgress && r.jobName == c.op.names.job(e.id, |e.pastJobs|) && r.drainStartedAt == e.drainStartedAt
    case _ => true
  }

  /** The event after it was authorised by a, whatever came of it. */
  ghost predicate Follows(c: Ctx, e: Event, a: Approval, o: Outcome, r: Event) {
    && !o.Skipped? && !o.NoApproval? && o.approval == a && r.approvalId == a.id
    && Untouched(e, r) && TypeFollows(e, a, r) && StateFollows(c, e, o, r) && Stamped(e, r, c.now)
    && (o.NotStarted? || o.Started? ==>
          r.imageGeneration == if c.spec.skipImageVerification then e.imageGeneration else 0)
  }

  ghost predicate EventIs(c: Ctx, e: Event, i: ApprovalInput, o: Outcome, r: Event) {
    if o.Skipped? then r == e
    else if o.NoApproval? then e.state != Failed ==> r == e
    else IsFirst(c.approvals, e, i.labels, o.approval) && Follows(c, e, o.approval, o, r)
  }

  /** A woken event under its approval, before anything is tried. */
  ghost predicate IsReady(e: Event, a: Approval, now: Time, ready: Event) {
    && Untouched(e, ready) && TypeFollows(e, a, ready) && ready.approvalId == a.id && ready.state == Base(e)
    && ready.jobName == e.jobName && ready.drainStartedAt == e.drainStartedAt
    && ready.imageGeneration == e.imageGeneration && Stamped(e, ready, now)
    && (e.state == Failed ==> ready.lastUpdated == Some(now))
  }

  lemma WokenIsReady(c: Ctx, e: Event, a: Approval)
    requires Admitted(c, e).Some?
    ensures IsReady(e, a, c.now, ApplyOverride(RecordApproval(Admitted(c, e).value, a, c.now), a))
  {
  }

  lemma LaunchedEvent(c: Ctx, e: Event, ready: Event, a: Approval, accepted: bool)
    requires IsReady(e, a, c.now, ready.(imageGeneration := e.imageGeneration)) && Eligible(ready)
    requires e.rtype.Reflash? <==> ready.rtype.Reflash?
    requires ready.imageGeneration == if c.spec.skipImageVerification then e.imageGeneration else 0
    ensures var (r, o) := Launch(c, ready, a, accepted); (o.Started? || o.NotStarted?) && Follows(c, e, a, o, r)
  {
  }

  lemma UncheckedEvent(c: Ctx, e: Event, ready: Event, a: Approval, i: ApprovalInput)
    requires IsReady(e, a, c.now, ready) && !ImagesOk(c.spec, ready.imageGeneration, ready.rtype, i.pullable)
    ensures Follows(c, e, a, ImagesUnusable(a), AfterImageCheck(c.spec, ready, i.pullable, c.now))
  {
  }

  lemma AuthoriseEvent(c: Ctx, busy: bool, e: Event, ready: Event, a: Approval, i: ApprovalInput)
    requires Eligible(ready) && IsReady(e, a, c.now, ready) && (e.rtype.Reflash? <==> ready.rtype.Reflash?)
    ensures var (r, o) := Authorise(c, busy, ready, a, i); Follows(c, e, a, o, r)
  {
    if !busy {
      var checked := AfterImageCheck(c.spec, ready, i.pullable, c.now);
      if ImagesOk(c.spec, ready.imageGeneration, ready.rtype, i.pullable) {
        assert checked.(imageGeneration := e.imageGeneration) == ready;
        LaunchedEvent(c, e, checked, a, i.accepted);
      } else {
        UncheckedEvent(c, e, ready, a, i);
      }
    }
  }

  lemma CoverIsFirst(approvals: seq<Approval>, e: Event, w: Event, labels: Labels)
    requires w.id == e.id && w.key == e.key && w.rtype == e.rtype && FirstCover(approvals, w, labels, 0).Some?
    ensures IsFirst(approvals, e, labels, approvals[FirstCover(approvals, w, labels, 0).value])
  {
    forall a ensures Authorises(a, e, labels) <==> Covers(a, w, labels) {
      AuthorisesIsCovers(a, w, labels);
      assert Authorises(a, e, labels) <==> Authorises(a, w, labels);
    }
  }

  /** What the event looks like after each outcome, field by field. */
  lemma ApprovedExactly(c: Ctx, events: seq<Event>, e: Event, i: ApprovalInput)
    requires TypedOverrides(c.approvals)
    ensures var (r, o) := ApproveEvent(c, events, e, i); EventIs(c, e, i, o, r)
  {
    if Admitted(c, e).Some? {
      var w := Admitted(c, e).value;
      AdmittedFacts(c, e);
      var m := FirstCover(c.approvals, w, i.labels, 0);
      if m.Some? {
        var a := c.approvals[m.value];
        var ready := ApplyOverride(RecordApproval(w, a, c.now), a);
        OverrideStaysAReset(e, w, a, c.now);
        WokenIsReady(c, e, a);
        AuthoriseEvent(c, NodeBusy(events, w.id, w.key.node), e, ready, a, i);
        CoverIsFirst(c.approvals, e, w, i.labels);
      }
    }
  }
}
