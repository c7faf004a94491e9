/**
 spec.approvals and the phase that acts on them: which approval covers an event, whether the event
 may start, and which one-shot approvals the pass has used up.
 */
module Approvals {
  import opened Prelude
  import opened RecoveryEvents

  /** Unset fields mean any: Untyped, the empty name, no labels. */
  datatype Selector = Selector(rtype: RecoveryType, nodeName: string, labels: map<string, string>)

  datatype Approval = Approval(id: string, eventId: string, selector: Option<Selector>, override: Option<RecoveryType>,
                               persistent: bool, consumed: bool)

  datatype Image = Image(name: string, file: string)

  /** What the cluster answers while one event is looked at: node labels, registry, Job creation. */
  datatype ApprovalInput = ApprovalInput(labels: Option<map<string, string>>, pullable: Image -> bool, accepted: bool)

  // ---------------------------------------------------------------- matching

  predicate LabelsMatch(wanted: map<string, string>, labels: Option<map<string, string>>) {
    |wanted| == 0 || (labels.Some? && forall k :: k in wanted ==> k in labels.value && labels.value[k] == wanted[k])
  }

  predicate SelectorMatches(s: Selector, e: Event, labels: Option<map<string, string>>) {
    && (s.rtype.Untyped? || s.rtype == e.rtype)
    && (s.nodeName == "" || s.nodeName == e.key.node)
    && LabelsMatch(s.labels, labels)
  }

  /** The approval authorises the event and is not spent. */
  predicate Covers(a: Approval, e: Event, labels: Option<map<string, string>>) {
    !a.consumed && (a.eventId == e.id || (a.selector.Some? && SelectorMatches(a.selector.value, e, labels)))
  }

  predicate Names(a: Approval, e: Event) {
    !a.consumed && a.eventId == e.id
  }

  method FindMatchingApproval(approvals: seq<Approval>, e: Event, labels: Option<map<string, string>>)
    returns (m: Option<nat>)
    ensures m == FirstCover(approvals, e, labels, 0)
  {
    if e.rtype.Untyped? { return None; }
    for i := 0 to |approvals|
      invariant FirstCover(approvals, e, labels, 0) == FirstCover(approvals, e, labels, i)
    {
      var a := approvals[i];
      if a.consumed { continue; }
      if a.eventId == e.id { return Some(i); }
      if a.selector.Some? {
        var s := a.selector.value;
        if !s.rtype.Untyped? && s.rtype != e.rtype { continue; }
        if s.nodeName != "" && s.nodeName != e.key.node { continue; }
        if !LabelsMatch(s.labels, labels) { continue; }
        return Some(i);
      }
    }
    m := None;
  }

  /** The first listed approval that covers the event; an event without a type is covered by none. */
  function FirstCover(approvals: seq<Approval>, e: Event, labels: Option<map<string, string>>,
                      from: nat): (m: Option<nat>)
    requires from <= |approvals|
    ensures m.Some? ==> from <= m.value < |approvals| && Covers(approvals[m.value], e, labels) && !e.rtype.Untyped?
    ensures m.Some? ==> forall j :: from <= j < m.value ==> !Covers(approvals[j], e, labels)
    ensures m.None? ==> e.rtype.Untyped? || forall j :: from <= j < |approvals| ==> !Covers(approvals[j], e, labels)
    decreases |approvals| - from
  {
    if from == |approvals| || e.rtype.Untyped? then None
    else if Covers(approvals[from], e, labels) then Some(from)
    else FirstCover(approvals, e, labels, from + 1)
  }

  method FindExplicitApproval(approvals: seq<Approval>, e: Event) returns (m: Option<nat>)
    ensures m == FirstNaming(approvals, e, 0)
  {
    for i := 0 to |approvals|
      invariant FirstNaming(approvals, e, 0) == FirstNaming(approvals, e, i)
    {
      if approvals[i].eventId == e.id && !approvals[i].consumed { return Some(i); }
    }
    m := None;
  }

  function FirstNaming(approvals: seq<Approval>, e: Event, from: nat): (m: Option<nat>)
    requires from <= |approvals|
    ensures m.Some? ==> from <= m.value < |approvals| && Names(approvals[m.value], e)
    ensures m.None? ==> forall j :: from <= j < |approvals| ==> !Names(approvals[j], e)
    decreases |approvals| - from
  {
    if from == |approvals| then None
    else if Names(approvals[from], e) then Some(from)
    else FirstNaming(approvals, e, from + 1)
  }

  // ---------------------------------------------------------------- one event

  /** What the pass did with one event, and under which approval. */
  datatype Outcome =
    | Skipped
    | NoApproval
    | HeldBack(approval: Approval)
    | ImagesUnusable(approval: Approval)
    | NotStarted(approval: Approval)
    | Started(approval: Approval)

  datatype Ctx = Ctx(op: Operator, spec: PlanSpec, approvals: seq<Approval>, now: Time)

  predicate Eligible(e: Event) {
    e.state.WaitingApproval? || e.state.Blocked? || e.state.MissingFirmware?
  }

  /** A failed event an admin has named again goes back to waiting. */
  function Reopen(e: Event, a: Approval, now: Time): Event {
    SetState(e, WaitingApproval, now).(approvalId := a.id)
  }

  function RecordApproval(e: Event, a: Approval, now: Time): Event {
    if e.approvalId == a.id then e else e.(approvalId := a.id, lastUpdated := Some(now))
  }

  /** applyOverride: one reset for another; never to or from a reflash. */
  function ApplyOverride(e: Event, a: Approval): Event {
    if a.override.None? || e.rtype.Reflash? || a.override.value.Reflash? || e.rtype == a.override.value then e
    else e.(suggested := if e.suggested.Untyped? then e.rtype else e.suggested, rtype := a.override.value)
  }

  predicate Occupies(other: Event, id: string, node: string) {
    other.id != id && other.key.node == node && other.Active()
  }

  /** nodeBusyWith: some event with another ID is recovering a GPU of the same node. */
  predicate NodeBusy(events: seq<Event>, id: string, node: string) {
    exists j :: 0 <= j < |events| && Occupies(events[j], id, node)
  }

  method NodeBusyWith(events: seq<Event>, e: Event) returns (busy: bool)
    ensures busy <==> NodeBusy(events, e.id, e.key.node)
  {
    for i := 0 to |events|
      invariant forall j :: 0 <= j < i ==> !Occupies(events[j], e.id, e.key.node)
    {
      if events[i].id == e.id || events[i].key.node != e.key.node { continue; }
      if events[i].state.Draining? || events[i].state.InProgress? { return true; }
    }
    busy := false;
  }

  function ImagesFor(spec: PlanSpec, t: RecoveryType): seq<Image> {
    (if !spec.xpuSmiPullNever && spec.xpuSmiImage != "" then [Image(spec.xpuSmiImage, "")] else []) +
    (if t.Reflash? && FirmwareReady(spec) && spec.firmware.value.image.value != ""
     then [Image(spec.firmware.value.image.value, "/fwupdate/" + spec.firmware.value.file)] else [])
  }

  /** The check already failed against this very spec and is not repeated. */
  predicate AlreadyRefused(spec: PlanSpec, generation: nat) {
    generation != 0 && generation == spec.generation
  }

  predicate AllPullable(images: seq<Image>, pullable: Image -> bool) {
    forall i :: 0 <= i < |images| ==> pullable(images[i])
  }

  predicate ImagesOk(spec: PlanSpec, generation: nat, t: RecoveryType, pullable: Image -> bool) {
    spec.skipImageVerification || (!AlreadyRefused(spec, generation) && AllPullable(ImagesFor(spec, t), pullable))
  }

  function AfterImageCheck(spec: PlanSpec, e: Event, pullable: Image -> bool, now: Time): Event {
    if spec.skipImageVerification || AlreadyRefused(spec, e.imageGeneration) then e
    else if AllPullable(ImagesFor(spec, e.rtype), pullable) then e.(imageGeneration := 0)
    else SetState(e.(imageGeneration := spec.generation), WaitingApproval, now)
  }

  method EnsureImagesUsable(spec: PlanSpec, e: Event, pullable: Image -> bool, now: Time) returns (r: Event, ok: bool)
    ensures r == AfterImageCheck(spec, e, pullable, now) && ok == ImagesOk(spec, e.imageGeneration, e.rtype, pullable)
  {
    if spec.skipImageVerification { return e, true; }
    if e.imageGeneration != 0 && e.imageGeneration == spec.generation { return e, false; }
    var images := ImagesFor(spec, e.rtype);
    for i := 0 to |images|
      invariant forall j :: 0 <= j < i ==> pullable(images[j])
    {
      if !pullable(images[i]) { return SetState(e.(imageGeneration := spec.generation), WaitingApproval, now), false; }
    }
    r, ok := e.(imageGeneration := 0), true;
  }

  /** An event held for its images stays held, unchecked, until the spec is edited; then only the images decide. */
  lemma ImageHoldLasts(spec: PlanSpec, e: Event, pullable: Image -> bool, now: Time, later: PlanSpec,
                       again: Image -> bool, t: RecoveryType, next: Time)
    requires !ImagesOk(spec, e.imageGeneration, e.rtype, pullable) && spec.generation != 0
    requires !later.skipImageVerification
    ensures var held := AfterImageCheck(spec, e, pullable, now);
      && held.imageGeneration == spec.generation
      && (ImagesOk(later, held.imageGeneration, t, again) <==>
        later.generation != spec.generation && AllPullable(ImagesFor(later, t), again))
      && (later.generation == spec.generation ==> AfterImageCheck(later, held, again, next) == held)
  {
  }

  /** A recovery of this type gets going: it has to drain first, or its Job is created at once. */
  predicate Launches(spec: PlanSpec, t: RecoveryType, accepted: bool) {
    (spec.drainEnabled && !t.Reflash?) || (accepted && !t.Untyped? && (t.Reflash? ==> FirmwareReady(spec)))
  }

  function Launch(c: Ctx, e: Event, a: Approval, accepted: bool): (Event, Outcome) {
    if NeedsDrain(c.spec, e) then (BeginDrain(e, c.now), Started(a))
    else if JobRefused(c.spec, e, accepted) then (e, NotStarted(a))
    else
      var d := CreateJob(c.op, c.spec, e, accepted, c.now);
      (d, if d.Active() then Started(a) else NotStarted(a))
  }

  function Authorise(c: Ctx, busy: bool, e: Event, a: Approval, i: ApprovalInput): (Event, Outcome) {
    if busy then (if e.state.Blocked? then e else SetState(e, Blocked, c.now), HeldBack(a))
    else
      var checked := AfterImageCheck(c.spec, e, i.pullable, c.now);
      if ImagesOk(c.spec, e.imageGeneration, e.rtype, i.pullable) then Launch(c, checked, a, i.accepted)
        else (checked, ImagesUnusable(a))
  }

  /** The event as it stands when approvals are matched, or nothing when the phase passes it by. */
  function Admitted(c: Ctx, e: Event): Option<Event> {
    if e.state.Failed? then
      match FirstNaming(c.approvals, e, 0)
      case None => None
      case Some(m) => Some(Reopen(e, c.approvals[m], c.now))
    else if Eligible(e) then Some(e) else None
  }

  function ApproveEvent(c: Ctx, events: seq<Event>, e: Event, i: ApprovalInput): (Event, Outcome) {
    match Admitted(c, e)
    case None => (e, Skipped)
    case Some(w) =>
      match FirstCover(c.approvals, w, i.labels, 0)
      case None => (w, NoApproval)
      case Some(m) =>
        var a := c.approvals[m];
        Authorise(c, NodeBusy(events, w.id, w.key.node), ApplyOverride(RecordApproval(w, a, c.now), a), a, i)
  }

  /** The body of the approval loop for one event. */
  method DecideEvent(c: Ctx, events: seq<Event>, e: Event, i: ApprovalInput) returns (evt: Event, o: Outcome)
    ensures Decided(c, events, e, i, evt, o)
  {
    evt := e;
    if evt.state.Failed? {
      var explicit := FindExplicitApproval(c.approvals, evt);
      if explicit.None? { return evt, Skipped; }
      evt := Reopen(evt, c.approvals[explicit.value], c.now);
    }
    if !evt.state.WaitingApproval? && !evt.state.Blocked? && !evt.state.MissingFirmware? { return evt, Skipped; }
    var found := FindMatchingApproval(c.approvals, evt, i.labels);
    if found.None? { return evt, NoApproval; }
    var approval := c.approvals[found.value];
    evt := ApplyOverride(RecordApproval(evt, approval, c.now), approval);
    var busy := NodeBusyWith(events, evt);
    if busy {
      if !evt.state.Blocked? { evt := SetState(evt, Blocked, c.now); }
      return evt, HeldBack(approval);
    }
    var usable;
    evt, usable := EnsureImagesUsable(c.spec, evt, i.pullable, c.now);
    if !usable { return evt, ImagesUnusable(approval); }
    if NeedsDrain(c.spec, evt) {
      evt := BeginDrain(evt, c.now);
    } else {
      if JobRefused(c.spec, evt, i.accepted) { return evt, NotStarted(approval); }
      evt := CreateJob(c.op, c.spec, evt, i.accepted, c.now);
    }
    o := if evt.state.InProgress? || evt.state.Draining? then Started(approval) else NotStarted(approval);
  }

  // ---------------------------------------------------------------- all events

  ghost predicate Decided(c: Ctx, standing: seq<Event>, e: Event, i: ApprovalInput, r: Event, o: Outcome) {
    ApproveEvent(c, standing, e, i) == (r, o)
  }

  /** The events when event j has its turn: those before it already handled, the rest as they were. */
  function Standing(events: seq<Event>, post: seq<Event>, j: nat): seq<Event>
    requires j <= |events| == |post|
  {
    post[..j] + events[j..]
  }

  /** processApprovals: every event is decided once, in list order, against the events as they then stand. */
  ghost predicate ApprovalPhase(c: Ctx, events: seq<Event>, inputs: nat -> ApprovalInput, post: seq<Event>,
                                outcomes: seq<Outcome>) {
    && |post| == |outcomes| == |events|
    && forall j :: 0 <= j < |events| ==>
         Decided(c, Standing(events, post, j), events[j], inputs(j), post[j], outcomes[j])
  }

  /** The one-shot approvals some event started under. */
  function UsedIds(outcomes: seq<Outcome>): set<string> {
    set i | 0 <= i < |outcomes| && outcomes[i].Started? && !outcomes[i].approval.persistent :: outcomes[i].approval.id
  }

  /** The approvals some event is still held back under. */
  function HeldIds(outcomes: seq<Outcome>): set<string> {
    set i | 0 <= i < |outcomes| && outcomes[i].HeldBack? :: outcomes[i].approval.id
  }

  function SpentIds(outcomes: seq<Outcome>): set<string> {
    UsedIds(outcomes) - HeldIds(outcomes)
  }

  predicate FirstWithId(approvals: seq<Approval>, i: nat)
    requires i < |approvals|
  {
    forall j :: 0 <= j < i ==> approvals[j].id != approvals[i].id
  }

  /** setApprovalConsumed for every spent ID: the first entry carrying it is marked. */
  function Spend(approvals: seq<Approval>, ids: set<string>): seq<Approval> {
    seq(|approvals|, i requires 0 <= i < |approvals| =>
      if approvals[i].id in ids && FirstWithId(approvals, i) then approvals[i].(consumed := true) else approvals[i])
  }

  lemma SpendMore(approvals: seq<Approval>, ids: set<string>, id: string)
    ensures Spend(Spend(approvals, ids), {id}) == Spend(approvals, ids + {id})
  {
    var s := Spend(approvals, ids);
    assert forall i :: 0 <= i < |approvals| ==> s[i].id == approvals[i].id;
    assert forall i :: 0 <= i < |approvals| ==> (FirstWithId(s, i) <==> FirstWithId(approvals, i));
  }

  ghost predicate UniqueIds(approvals: seq<Approval>) {
    forall i, j :: 0 <= i < j < |approvals| ==> approvals[i].id != approvals[j].id
  }

  // ---------------------------------------------------------------- facts about one event

  /** What approving never touches: the device, the ID and the Jobs already run. */
  ghost predicate SameRecovery(a: Event, b: Event) {
    a.id == b.id && a.key == b.key && a.pastJobs == b.pastJobs
  }

  ghost predicate TypedOverrides(approvals: seq<Approval>) {
    forall a :: a in approvals && a.override.Some? ==> !a.override.value.Untyped?
  }

  lemma LaunchFacts(c: Ctx, e: Event, a: Approval, accepted: bool)
    requires Eligible(e)
    ensures var (r, o) := Launch(c, e, a, accepted);
      && SameRecovery(r, e) && r.rtype == e.rtype && r.approvalId == e.approvalId
      && (o == Started(a) || o == NotStarted(a))
      && (o.Started? <==> r.Active())
      && (o.Started? <==> Launches(c.spec, e.rtype, accepted))
      && (r.state.Draining? ==> r.drainStartedAt == Some(c.now))
      && (!r.state.Blocked? || r == e)
  {
  }

  lemma AdmittedFacts(c: Ctx, e: Event)
    requires Admitted(c, e).Some?
    ensures var w := Admitted(c, e).value;
      && SameRecovery(w, e) && w.rtype == e.rtype && w.imageGeneration == e.imageGeneration
      && Eligible(w) && !e.Active() && (EventOk(c.op, e) ==> EventOk(c.op, w))
  {
  }

  lemma MatchFacts(op: Operator, e: Event, a: Approval, now: Time)
    requires Eligible(e)
    ensures var r := ApplyOverride(RecordApproval(e, a, now), a);
      && SameRecovery(r, e) && r.state == e.state && r.approvalId == a.id
      && (EventOk(op, e) && (a.override.Some? ==> !a.override.value.Untyped?) ==>
            EventOk(op, r) && Severity(r.rtype) == Severity(e.rtype))
  {
  }

  lemma AuthoriseFacts(c: Ctx, busy: bool, e: Event, a: Approval, i: ApprovalInput)
    requires Eligible(e)
    ensures var (r, o) := Authorise(c, busy, e, a, i);
      && SameRecovery(r, e) && r.rtype == e.rtype && r.approvalId == e.approvalId
      && !o.Skipped? && !o.NoApproval? && o.approval == a
      && (o.Started? <==> r.Active())
      && (o.Started? ==> !busy)
      && (o.HeldBack? <==> busy) && (busy ==> r.state.Blocked?)
      && (r.state.Draining? ==> r.drainStartedAt == Some(c.now))
  {
    if !busy && ImagesOk(c.spec, e.imageGeneration, e.rtype, i.pullable) {
      LaunchFacts(c, AfterImageCheck(c.spec, e, i.pullable, c.now), a, i.accepted);
    }
  }

  /**
   An event starts only alone on its node; what happened to it names the first approval covering it,
   which is unspent and now recorded on the event.
   */
  lemma ApproveFacts(c: Ctx, events: seq<Event>, e: Event, i: ApprovalInput)
    ensures var (r, o) := ApproveEvent(c, events, e, i);
      && SameRecovery(r, e)
      && (o.Skipped? ==> r == e)
      && (o.Started? <==> r.Active() && !e.Active())
      && (o.Started? ==> !NodeBusy(events, e.id, e.key.node))
      && (o.HeldBack? ==> r.state.Blocked?)
      && (o.Started? && r.state.Draining? ==> r.drainStartedAt == Some(c.now))
      && (!o.Skipped? && !o.NoApproval? ==>
            && o.approval in c.approvals && !o.approval.consumed && r.approvalId == o.approval.id
            && (o.approval.eventId == e.id || o.approval.selector.Some?))
  {
    match Admitted(c, e)
    case None =>
    case Some(w) =>
      AdmittedFacts(c, e);
      match FirstCover(c.approvals, w, i.labels, 0)
      case None =>
      case Some(m) =>
        var a := c.approvals[m];
        MatchFacts(c.op, w, a, c.now);
        AuthoriseFacts(c, NodeBusy(events, w.id, w.key.node), ApplyOverride(RecordApproval(w, a, c.now), a), a, i);
  }

  lemma AuthoriseStarts(c: Ctx, busy: bool, e: Event, a: Approval, i: ApprovalInput)
    requires Eligible(e)
    ensures Authorise(c, busy, e, a, i).1.Started? <==>
      !busy && ImagesOk(c.spec, e.imageGeneration, e.rtype, i.pullable) && Launches(c.spec, e.rtype, i.accepted)
  {
    if !busy && ImagesOk(c.spec, e.imageGeneration, e.rtype, i.pullable) {
      LaunchFacts(c, AfterImageCheck(c.spec, e, i.pullable, c.now), a, i.accepted);
    }
  }

  /**
   An event starts exactly when it may be looked at, an unspent approval covers it, no other event
   occupies its node, its images pull, and it either has to drain first or gets its Job at once.
   */
  lemma StartsExactlyWhen(c: Ctx, events: seq<Event>, e: Event, i: ApprovalInput)
    ensures ApproveEvent(c, events, e, i).1.Started? <==>
      && Admitted(c, e).Some?
      && FirstCover(c.approvals, Admitted(c, e).value, i.labels, 0).Some?
      && !NodeBusy(events, e.id, e.key.node)
      && var a := c.approvals[FirstCover(c.approvals, Admitted(c, e).value, i.labels, 0).value];
         var t := ApplyOverride(Admitted(c, e).value, a).rtype;
         && ImagesOk(c.spec, e.imageGeneration, t, i.pullable)
         && Launches(c.spec, t, i.accepted)
  {
    match Admitted(c, e)
    case None =>
    case Some(w) =>
      AdmittedFacts(c, e);
      match FirstCover(c.approvals, w, i.labels, 0)
      case None =>
      case Some(m) =>
        var a := c.approvals[m];
        var ready := ApplyOverride(RecordApproval(w, a, c.now), a);
        MatchFacts(c.op, w, a, c.now);
        AuthoriseStarts(c, NodeBusy(events, w.id, w.key.node), ready, a, i);
  }

  lemma LaunchKeepsEventOk(c: Ctx, e: Event, a: Approval, accepted: bool)
    requires EventOk(c.op, e) && Eligible(e)
    ensures EventOk(c.op, Launch(c, e, a, accepted).0)
  {
    CreateKeepsEventOk(c.op, c.spec, e, accepted, c.now);
  }

  lemma AuthoriseKeepsEventOk(c: Ctx, busy: bool, e: Event, a: Approval, i: ApprovalInput)
    requires EventOk(c.op, e) && Eligible(e)
    ensures EventOk(c.op, Authorise(c, busy, e, a, i).0)
  {
    if !busy && ImagesOk(c.spec, e.imageGeneration, e.rtype, i.pullable) {
      LaunchKeepsEventOk(c, AfterImageCheck(c.spec, e, i.pullable, c.now), a, i.accepted);
    }
  }

  lemma ApproveKeepsEventOk(c: Ctx, events: seq<Event>, e: Event, i: ApprovalInput)
    requires EventOk(c.op, e) && TypedOverrides(c.approvals)
    ensures var r := ApproveEvent(c, events, e, i).0; EventOk(c.op, r) && Severity(r.rtype) == Severity(e.rtype)
  {
    match Admitted(c, e)
    case None =>
    case Some(w) =>
      AdmittedFacts(c, e);
      match FirstCover(c.approvals, w, i.labels, 0)
      case None =>
      case Some(m) =>
        var a := c.approvals[m];
        var ready := ApplyOverride(RecordApproval(w, a, c.now), a);
        MatchFacts(c.op, w, a, c.now);
        AuthoriseFacts(c, NodeBusy(events, w.id, w.key.node), ready, a, i);
        AuthoriseKeepsEventOk(c, NodeBusy(events, w.id, w.key.node), ready, a, i);
  }

  // ---------------------------------------------------------------- facts about the whole phase

  lemma PhaseFacts(c: Ctx, events: seq<Event>, inputs: nat -> ApprovalInput,
                   post: seq<Event>, outcomes: seq<Outcome>, j: nat)
    requires ApprovalPhase(c, events, inputs, post, outcomes) && j < |events|
    ensures var r, o := post[j], outcomes[j];
      && SameRecovery(r, events[j])
      && (o.Skipped? ==> r == events[j])
      && (o.Started? <==> r.Active() && !events[j].Active())
      && (o.Started? ==> !NodeBusy(Standing(events, post, j), r.id, r.key.node))
      && (o.Started? && r.state.Draining? ==> r.drainStartedAt == Some(c.now))
      && (o.HeldBack? ==> r.state.Blocked?)
      && (!o.Skipped? && !o.NoApproval? ==>
            && o.approval in c.approvals && !o.approval.consumed && r.approvalId == o.approval.id
            && (o.approval.eventId == events[j].id || o.approval.selector.Some?))
  {
    ApproveFacts(c, Standing(events, post, j), events[j], inputs(j));
    assert Decided(c, Standing(events, post, j), events[j], inputs(j), post[j], outcomes[j]);
  }

  /** No two events of one node are draining or in progress. */
  ghost predicate Exclusive(events: seq<Event>) {
    forall i, j :: 0 <= i < j < |events| && events[i].key.node == events[j].key.node ==>
      !(events[i].Active() && events[j].Active())
  }

  ghost predicate DistinctIdsPerNode(events: seq<Event>) {
    forall i, j :: 0 <= i < j < |events| && events[i].key.node == events[j].key.node ==> events[i].id != events[j].id
  }

  /** The approval loop never puts a second recovery on a node whose events have different IDs. */
  lemma ApprovalsKeepExclusive(c: Ctx, events: seq<Event>, inputs: nat -> ApprovalInput, post: seq<Event>,
                               outcomes: seq<Outcome>)
    requires ApprovalPhase(c, events, inputs, post, outcomes) && Exclusive(events) && DistinctIdsPerNode(events)
    ensures Exclusive(post)
  {
    PrefixKeepsExclusive(c, events, inputs, post, outcomes, |events|);
    assert Standing(events, post, |events|) == post;
  }

  lemma {:induction false} PrefixKeepsExclusive(c: Ctx, events: seq<Event>, inputs: nat -> ApprovalInput,
                                                post: seq<Event>, outcomes: seq<Outcome>, n: nat)
    requires ApprovalPhase(c, events, inputs, post, outcomes) && Exclusive(events) && DistinctIdsPerNode(events)
    requires n <= |events|
    ensures Exclusive(Standing(events, post, n)) && DistinctIdsPerNode(Standing(events, post, n))
  {
    if n == 0 {
      assert Standing(events, post, 0) == events;
    } else {
      PrefixKeepsExclusive(c, events, inputs, post, outcomes, n - 1);
      PhaseFacts(c, events, inputs, post, outcomes, n - 1);
      StandingStep(events, post, n - 1);
      StartKeepsExclusive(Standing(events, post, n - 1), n - 1, post[n - 1]);
    }
  }

  lemma StandingStep(events: seq<Event>, post: seq<Event>, j: nat)
    requires j < |events| == |post|
    ensures Standing(events, post, j)[j] == events[j]
    ensures Standing(events, post, j + 1) == Standing(events, post, j)[j := post[j]]
  {
  }

  lemma StartKeepsExclusive(events: seq<Event>, i: nat, r: Event)
    requires i < |events| && SameRecovery(r, events[i])
    requires Exclusive(events) && DistinctIdsPerNode(events)
    requires r.Active() && !events[i].Active() ==> !NodeBusy(events, r.id, r.key.node)
    ensures Exclusive(events[i := r]) && DistinctIdsPerNode(events[i := r])
  {
    forall j | 0 <= j < |events| && j != i && events[j].key.node == r.key.node && r.Active()
      ensures !events[j].Active()
    {
      assert !Occupies(events[j], r.id, r.key.node) || events[i].Active();
    }
  }

  lemma ApprovalsKeepEventOk(c: Ctx, events: seq<Event>, inputs: nat -> ApprovalInput, post: seq<Event>,
                             outcomes: seq<Outcome>)
    requires ApprovalPhase(c, events, inputs, post, outcomes)
    requires TypedOverrides(c.approvals) && forall e :: e in events ==> EventOk(c.op, e)
    ensures forall j :: 0 <= j < |events| ==>
      EventOk(c.op, post[j]) && Severity(post[j].rtype) == Severity(events[j].rtype)
  {
    forall j | 0 <= j < |events|
      ensures EventOk(c.op, post[j]) && Severity(post[j].rtype) == Severity(events[j].rtype)
    {
      ApproveKeepsEventOk(c, Standing(events, post, j), events[j], inputs(j));
      assert Decided(c, Standing(events, post, j), events[j], inputs(j), post[j], outcomes[j]);
    }
  }

  // ---------------------------------------------------------------- accounting

  /** The events a pass started. */
  function StartedSet(outcomes: seq<Outcome>): set<nat> {
    set i | 0 <= i < |outcomes| && outcomes[i].Started?
  }

  /** Every approval names one event. */
  ghost predicate AllByEventId(approvals: seq<Approval>) {
    forall a :: a in approvals ==> a.selector.None? && !a.persistent
  }

  ghost predicate DistinctIds(events: seq<Event>) {
    forall i, j :: 0 <= i < j < |events| ==> events[i].id != events[j].id
  }

  /** What the outcomes of a phase over single-event approvals look like. */
  ghost predicate OneEventEach(approvals: seq<Approval>, events: seq<Event>, outcomes: seq<Outcome>) {
    |outcomes| <= |events| && forall i :: 0 <= i < |outcomes| && !outcomes[i].Skipped? && !outcomes[i].NoApproval? ==>
      && outcomes[i].approval in approvals
      && outcomes[i].approval.eventId == events[i].id && !outcomes[i].approval.persistent
  }

  lemma SameIdSameApproval(approvals: seq<Approval>, a: Approval, b: Approval)
    requires UniqueIds(approvals) && a in approvals && b in approvals && a.id == b.id
    ensures a == b
  {
  }

  lemma UsedAreNotHeld(approvals: seq<Approval>, events: seq<Event>, outcomes: seq<Outcome>)
    requires UniqueIds(approvals) && DistinctIds(events) && OneEventEach(approvals, events, outcomes)
    ensures UsedIds(outcomes) !! HeldIds(outcomes)
  {
    forall i, j | 0 <= i < |outcomes| && 0 <= j < |outcomes| && outcomes[i].Started? && outcomes[j].HeldBack?
      ensures outcomes[i].approval.id != outcomes[j].approval.id
    {
      if outcomes[i].approval.id == outcomes[j].approval.id {
        SameIdSameApproval(approvals, outcomes[i].approval, outcomes[j].approval);
      }
    }
  }

  /** As many approvals are spent as events are started. */
  lemma SpentEqualsStarted(approvals: seq<Approval>, events: seq<Event>, outcomes: seq<Outcome>)
    requires UniqueIds(approvals) && DistinctIds(events) && OneEventEach(approvals, events, outcomes)
    ensures |SpentIds(outcomes)| == |StartedSet(outcomes)|
    ensures SpentIds(outcomes) == UsedIds(outcomes)
  {
    UsedAreNotHeld(approvals, events, outcomes);
    assert SpentIds(outcomes) == UsedIds(outcomes);
    UsedEqualsStarted(approvals, events, outcomes);
  }

  lemma LastOutcome(outcomes: seq<Outcome>)
    requires outcomes != []
    ensures var n := |outcomes| - 1;
      && StartedSet(outcomes) == StartedSet(outcomes[..n]) + (if outcomes[n].Started? then {n} else {})
      && UsedIds(outcomes) == UsedIds(outcomes[..n]) +
           (if outcomes[n].Started? && !outcomes[n].approval.persistent then {outcomes[n].approval.id} else {})
  {
    var n := |outcomes| - 1;
    assert forall i :: 0 <= i < n ==> outcomes[..n][i] == outcomes[i];
  }

  lemma LastIsUnused(approvals: seq<Approval>, events: seq<Event>, outcomes: seq<Outcome>)
    requires UniqueIds(approvals) && DistinctIds(events) && OneEventEach(approvals, events, outcomes)
    requires outcomes != [] && outcomes[|outcomes| - 1].Started?
    ensures outcomes[|outcomes| - 1].approval.id !in UsedIds(outcomes[..|outcomes| - 1])
  {
    var n := |outcomes| - 1;
    forall i | 0 <= i < n && outcomes[i].Started? ensures outcomes[i].approval.id != outcomes[n].approval.id {
      if outcomes[i].approval.id == outcomes[n].approval.id {
        SameIdSameApproval(approvals, outcomes[i].approval, outcomes[n].approval);
      }
    }
  }

  lemma {:induction false} UsedEqualsStarted(approvals: seq<Approval>, events: seq<Event>, outcomes: seq<Outcome>)
    requires UniqueIds(approvals) && DistinctIds(events) && OneEventEach(approvals, events, outcomes)
    ensures |UsedIds(outcomes)| == |StartedSet(outcomes)|
  {
    if outcomes != [] {
      var n := |outcomes| - 1;
      UsedEqualsStarted(approvals, events, outcomes[..n]);
      LastOutcome(outcomes);
      if outcomes[n].Started? {
        LastIsUnused(approvals, events, outcomes);
      }
    }
  }

  lemma PhaseIsOneEventEach(c: Ctx, events: seq<Event>, inputs: nat -> ApprovalInput, post: seq<Event>,
                            outcomes: seq<Outcome>)
    requires ApprovalPhase(c, events, inputs, post, outcomes) && AllByEventId(c.approvals)
    ensures OneEventEach(c.approvals, events, outcomes)
  {
    forall i | 0 <= i < |outcomes| && !outcomes[i].Skipped? && !outcomes[i].NoApproval?
      ensures outcomes[i].approval in c.approvals && outcomes[i].approval.eventId == events[i].id
      ensures !outcomes[i].approval.persistent
    {
      PhaseFacts(c, events, inputs, post, outcomes, i);
    }
  }

  /**
   Exactly the approvals that started something and hold nothing back are spent: an entry is newly
   consumed if and only if it is one-shot, some event started under it and no event is held back under it.
   */
  lemma SpentExactly(c: Ctx, events: seq<Event>, inputs: nat -> ApprovalInput, post: seq<Event>,
                     outcomes: seq<Outcome>, k: nat)
    requires ApprovalPhase(c, events, inputs, post, outcomes) && UniqueIds(c.approvals) && k < |c.approvals|
    ensures var a := c.approvals[k];
      Spend(c.approvals, SpentIds(outcomes))[k].consumed && !a.consumed <==>
        && !a.persistent
        && (exists i :: 0 <= i < |outcomes| && outcomes[i] == Started(a))
        && !(exists i :: 0 <= i < |outcomes| && outcomes[i] == HeldBack(a))
  {
    var a := c.approvals[k];
    forall i | 0 <= i < |outcomes| && !outcomes[i].Skipped? && !outcomes[i].NoApproval?
      ensures outcomes[i].approval in c.approvals && !outcomes[i].approval.consumed
      ensures (outcomes[i].approval.id == a.id <==> outcomes[i].approval == a)
    {
      PhaseFacts(c, events, inputs, post, outcomes, i);
      if outcomes[i].approval.id == a.id {
        SameIdSameApproval(c.approvals, outcomes[i].approval, a);
      }
    }
  }

  // ---------------------------------------------------------------- held-back events

  /** The approval's own override takes the event out of its own selector. */
  predicate OverrideEscapes(a: Approval, e: Event) {
    a.eventId != e.id && a.selector.Some? && !a.selector.value.rtype.Untyped? && ApplyOverride(e, a).rtype != e.rtype
  }

  /**
   An event held back keeps an unspent approval listed for it. That approval still covers the event
   afterwards exactly when its override did not change the type its own selector asks for.
   */
  lemma HeldBackKeepsItsApproval(c: Ctx, events: seq<Event>, inputs: nat -> ApprovalInput, post: seq<Event>,
                                 outcomes: seq<Outcome>, i: nat)
    requires ApprovalPhase(c, events, inputs, post, outcomes) && UniqueIds(c.approvals)
    requires i < |events| && outcomes[i].HeldBack?
    ensures var a := outcomes[i].approval;
      && post[i].state.Blocked?
      && a in Spend(c.approvals, SpentIds(outcomes)) && !a.consumed
      && (Covers(a, post[i], inputs(i).labels) <==> !OverrideEscapes(a, events[i]))
  {
    HeldBackFacts(c, Standing(events, post, i), events[i], inputs(i), post[i], outcomes[i]);
    HeldIsUnspent(c.approvals, outcomes, i);
  }

  lemma HeldIsUnspent(approvals: seq<Approval>, outcomes: seq<Outcome>, i: nat)
    requires i < |outcomes| && outcomes[i].HeldBack? && outcomes[i].approval in approvals
    ensures outcomes[i].approval in Spend(approvals, SpentIds(outcomes))
  {
    var k :| 0 <= k < |approvals| && approvals[k] == outcomes[i].approval;
    assert approvals[k].id in HeldIds(outcomes);
    assert Spend(approvals, SpentIds(outcomes))[k] == approvals[k];
  }

  lemma CoverAfterOverride(a: Approval, e: Event, r: Event, labels: Option<map<string, string>>)
    requires Covers(a, e, labels) && r.id == e.id && r.key == e.key && r.rtype == ApplyOverride(e, a).rtype
    ensures Covers(a, r, labels) <==> !OverrideEscapes(a, e)
  {
  }

  lemma HeldBackFacts(c: Ctx, events: seq<Event>, e: Event, i: ApprovalInput, r: Event, o: Outcome)
    requires Decided(c, events, e, i, r, o) && o.HeldBack?
    ensures o.approval in c.approvals && !o.approval.consumed && r.state.Blocked?
    ensures Covers(o.approval, r, i.labels) <==> !OverrideEscapes(o.approval, e)
  {
    AdmittedFacts(c, e);
    var w := Admitted(c, e).value;
    var a := c.approvals[FirstCover(c.approvals, w, i.labels, 0).value];
    var ready := ApplyOverride(RecordApproval(w, a, c.now), a);
    AuthoriseFacts(c, NodeBusy(events, w.id, w.key.node), ready, a, i);
    CoverAfterOverride(a, w, r, i.labels);
  }
}
