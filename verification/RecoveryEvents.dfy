/**
 A recovery event and the transitions a pass can put it through: drain, Job, verdict.
 Events are values; the loops over status.events live with the reconciler.
 */
module RecoveryEvents {
  import opened Prelude
  import opened Naming
  import opened NodeDrain

  const MAX_BLOCKERS_REPORTED := 10
  const DEFAULT_DRAIN_TIMEOUT := 300
  const DEFAULT_RESET_JOB_TIMEOUT := 300
  const DEFAULT_REFLASH_JOB_TIMEOUT := 600
  const JOB_VERDICT_GRACE := 60

  datatype EventState = WaitingApproval | MissingFirmware | Blocked | Draining | InProgress | Succeeded | Failed

  datatype Event = Event(
    id: string, key: DeviceKey, rtype: RecoveryType, suggested: RecoveryType, state: EventState,
    approvalId: string, imageGeneration: nat, drainStartedAt: Option<Time>,
    podsBlocking: seq<string>, claimsBlocking: seq<string>,
    jobName: string, pastJobs: seq<string>, lastUpdated: Option<Time>)
  {
    /** The event owns its node. */
    predicate Active() { state.Draining? || state.InProgress? }
  }

  datatype Firmware = Firmware(file: string, image: Option<string>)

  /** The plan's spec, approvals aside. */
  datatype PlanSpec = PlanSpec(
    deviceId: string, defaultReset: RecoveryType, generation: nat,
    drainEnabled: bool, drainTimeout: int, skipNamespaces: seq<string>,
    resetSeconds: int, reflashSeconds: int, firmware: Option<Firmware>,
    xpuSmiImage: string, xpuSmiPullNever: bool, skipImageVerification: bool)

  /** What the operator itself is configured with. */
  datatype Operator = Operator(namespace: string, names: Scheme)

  function ScopeOf(op: Operator, spec: PlanSpec): Scope {
    Scope(op.namespace, spec.skipNamespaces)
  }

  /** setEventState: a state write that changes nothing leaves the stamp alone. */
  function SetState(e: Event, s: EventState, now: Time): Event {
    if e.state == s && e.lastUpdated.Some? then e else e.(state := s, lastUpdated := Some(now))
  }

  function Severity(t: RecoveryType): nat {
    match t
    case Untyped => 0
    case Reflash => 2
    case _ => 1
  }

  predicate NeedsDrain(spec: PlanSpec, e: Event) {
    spec.drainEnabled && !e.rtype.Reflash?
  }

  // ---------------------------------------------------------------- recovery Jobs

  predicate FirmwareReady(spec: PlanSpec) {
    spec.firmware.Some? && spec.firmware.value.file != "" && spec.firmware.value.image.Some?
  }

  /** createRecoveryJob asked the API server for a Job and was refused. */
  predicate JobRefused(spec: PlanSpec, e: Event, accepted: bool) {
    !accepted && (if e.rtype.Reflash? then FirmwareReady(spec) else !e.rtype.Untyped?)
  }

  /** createRecoveryJob: accepted covers a Job that already exists under this attempt's name. */
  function CreateJob(op: Operator, spec: PlanSpec, e: Event, accepted: bool, now: Time): Event {
    if e.rtype.Reflash? && !FirmwareReady(spec) then SetState(e, MissingFirmware, now)
    else if e.rtype.Untyped? || !accepted then e
    else SetState(e.(jobName := op.names.job(e.id, |e.pastJobs|)), InProgress, now)
  }

  // ---------------------------------------------------------------- drains

  function BeginDrain(e: Event, now: Time): Event {
    var started := SetState(e, Draining, now);
    started.(drainStartedAt := started.lastUpdated)
  }

  function DrainTimeout(spec: PlanSpec): nat {
    if spec.drainTimeout <= 0 then DEFAULT_DRAIN_TIMEOUT else spec.drainTimeout
  }

  /** A pass that did not move the drain on fails it past its deadline. */
  function Stalled(spec: PlanSpec, e: Event, now: Time): Event {
    if e.drainStartedAt.None? then e.(drainStartedAt := Some(now))
    else if now - e.drainStartedAt.value > DrainTimeout(spec)
    then SetState(e.(drainStartedAt := None), Failed, now)
    else e
  }

  function Cap(items: seq<string>): seq<string> {
    if |items| <= MAX_BLOCKERS_REPORTED then items
    else items[..MAX_BLOCKERS_REPORTED] + ["... and " + Decimal(|items| - MAX_BLOCKERS_REPORTED) + " more"]
  }

  /** What the API server shows and answers a draining event in one pass. */
  datatype DrainInput = DrainInput(view: View, accepted: bool)

  /** What one drain pass makes of an event, given what the drain found. */
  function DrainStep(op: Operator, spec: PlanSpec, e: Event, found: DrainResult, accepted: bool, now: Time): Event {
    match found
    case DrainFailed => Stalled(spec, e, now)
    case Waiting(pods, claims) => Stalled(spec, e.(podsBlocking := Cap(pods), claimsBlocking := Cap(claims)), now)
    case Ready =>
      var clear := e.(podsBlocking := [], claimsBlocking := []);
      if JobRefused(spec, clear, accepted) then Stalled(spec, clear, now)
      else CreateJob(op, spec, clear, accepted, now)
  }

  function DrainEvent(op: Operator, spec: PlanSpec, e: Event, i: DrainInput, now: Time): Event {
    if !e.state.Draining? then e
    else DrainStep(op, spec, e, DrainCheck(ScopeOf(op, spec), i.view, e.key.node, e.key.bdf), i.accepted, now)
  }

  /** One event's turn in the drain loop, the taint already attempted. */
  method AdvanceDrain(op: Operator, spec: PlanSpec, e: Event, i: DrainInput, now: Time) returns (evt: Event)
    requires e.state.Draining?
    ensures evt == DrainEvent(op, spec, e, i, now)
  {
    evt := e;
    var found, _ := DrainNodeForEvent(ScopeOf(op, spec), i.view, e.key.node, e.key.bdf);
    var stalled := true;
    match found {
      case DrainFailed =>
      case Waiting(pods, claims) =>
        evt := evt.(podsBlocking := Cap(pods), claimsBlocking := Cap(claims));
      case Ready =>
        evt := evt.(podsBlocking := [], claimsBlocking := []);
        if !JobRefused(spec, evt, i.accepted) {
          evt := CreateJob(op, spec, evt, i.accepted, now);
          stalled := false;
        }
    }
    if stalled {
      if evt.drainStartedAt.None? {
        evt := evt.(drainStartedAt := Some(now));
      } else if now - evt.drainStartedAt.value > DrainTimeout(spec) {
        evt := SetState(evt.(drainStartedAt := None), Failed, now);
      }
    }
  }

  /** The same recovery, under the same approval, and active only if it was. */
  ghost predicate Continues(a: Event, b: Event) {
    && a.key == b.key && a.id == b.id && a.approvalId == b.approvalId
    && a.rtype == b.rtype && a.suggested == b.suggested
    && (b.Active() ==> a.Active())
    && (!a.Active() ==> b == a)
  }

  lemma DrainContinues(op: Operator, spec: PlanSpec, e: Event, i: DrainInput, now: Time)
    ensures Continues(e, DrainEvent(op, spec, e, i, now))
    ensures DrainEvent(op, spec, e, i, now).state.Draining? ==> e.state.Draining?
  {
    DrainStepContinues(op, spec, e, DrainCheck(ScopeOf(op, spec), i.view, e.key.node, e.key.bdf), i.accepted, now);
  }

  lemma DrainStepContinues(op: Operator, spec: PlanSpec, e: Event, found: DrainResult, accepted: bool, now: Time)
    ensures e.state.Draining? ==> Continues(e, DrainStep(op, spec, e, found, accepted, now))
  {
  }

  lemma SyncContinues(spec: PlanSpec, e: Event, read: JobRead, now: Time)
    ensures Continues(e, SyncEvent(spec, e, read, now))
    ensures SyncEvent(spec, e, read, now).state.Draining? ==> SyncEvent(spec, e, read, now) == e
  {
  }

  /** A reset Job of a drained event starts only over a clear node and a released GPU. */
  lemma JobOnlyWhenSafe(op: Operator, spec: PlanSpec, e: Event, i: DrainInput, now: Time)
    requires e.state.Draining? && DrainEvent(op, spec, e, i, now).state.InProgress?
    ensures i.view.taintSet && i.view.pods.Some? && NodeClear(ScopeOf(op, spec), i.view.pods.value)
    ensures GpuReleased(ScopeOf(op, spec), i.view, e.key.node, e.key.bdf)
  {
    ReadyExactlyWhenSafe(ScopeOf(op, spec), i.view, e.key.node, e.key.bdf);
  }

  /** The reported blockers are display only: what becomes of the event does not depend on them. */
  lemma ReportNeverDecides(op: Operator, spec: PlanSpec, e: Event, pods: seq<string>, claims: seq<string>,
                           found: DrainResult, accepted: bool, now: Time)
    ensures var a := DrainStep(op, spec, e, found, accepted, now);
      var b := DrainStep(op, spec, e.(podsBlocking := pods, claimsBlocking := claims), found, accepted, now);
      a == b.(podsBlocking := a.podsBlocking, claimsBlocking := a.claimsBlocking)
  {
  }

  /** Longer ago than the plan allows a drain, or five minutes where it names no time. */
  ghost predicate DrainLate(spec: PlanSpec, e: Event, now: Time) {
    e.drainStartedAt.Some? && now > e.drainStartedAt.value + if spec.drainTimeout > 0 then spec.drainTimeout else 300
  }

  /**
   After a drain pass at `now` an event still draining is inside its own attempt's timeout, unless it
   has no recovery type: then a clear node is retried for ever.
   */
  lemma DrainKeepsItsDeadline(op: Operator, spec: PlanSpec, e: Event, found: DrainResult, accepted: bool, now: Time)
    requires e.state.Draining? && e.drainStartedAt.Some? && !e.rtype.Reflash?
    ensures var d := DrainStep(op, spec, e, found, accepted, now);
      && (d.state.Draining? ==> d.drainStartedAt == e.drainStartedAt)
      && (d.state.Failed? ==> DrainLate(spec, e, now))
      && (d.state.Draining? && DrainLate(spec, e, now) <==> e.rtype.Untyped? && found.Ready? && DrainLate(spec, e, now))
  {
  }

  // ---------------------------------------------------------------- Job verdicts

  datatype ConditionKind = JobComplete | JobFailed | OtherCondition

  datatype Condition = Condition(kind: ConditionKind, holds: bool)

  datatype JobRead =
    | JobGone
    | JobReadFailed
    | JobSeen(conditions: seq<Condition>, startTime: Option<Time>, created: Option<Time>, deadline: Option<int>)

  /** The Complete or Failed condition a Job has settled on. */
  function Verdict(cs: seq<Condition>): Option<ConditionKind> {
    if cs == [] then None
    else if cs[0].holds && !cs[0].kind.OtherCondition? then Some(cs[0].kind)
    else Verdict(cs[1..])
  }

  function JobTimeout(spec: PlanSpec, e: Event): nat {
    if e.rtype.Reflash? then if spec.reflashSeconds > 0 then spec.reflashSeconds else DEFAULT_REFLASH_JOB_TIMEOUT
    else if spec.resetSeconds > 0 then spec.resetSeconds else DEFAULT_RESET_JOB_TIMEOUT
  }

  /** The deadline the Job runs under; a deleted Job took its own copy with it. */
  function JobDeadline(spec: PlanSpec, e: Event, read: JobRead): nat {
    if read.JobSeen? && read.deadline.Some? && read.deadline.value > 0 then read.deadline.value else JobTimeout(spec, e)
  }

  /** When the clock of the Job the read answered for began. */
  function JobClock(e: Event, read: JobRead): Option<Time> {
    if read.JobSeen? then if read.startTime.Some? then read.startTime else read.created else e.lastUpdated
  }

  predicate Overdue(deadline: nat, since: Option<Time>, now: Time) {
    since.Some? && now - since.value > deadline + JOB_VERDICT_GRACE
  }

  function CloseJob(e: Event, s: EventState, now: Time): Event {
    SetState(e.(pastJobs := e.pastJobs + [e.jobName], jobName := ""), s, now)
  }

  function SyncEvent(spec: PlanSpec, e: Event, read: JobRead, now: Time): Event {
    if !e.state.InProgress? || e.jobName == "" || read.JobReadFailed? then e
    else if read.JobSeen? && Verdict(read.conditions).Some?
    then CloseJob(e, if Verdict(read.conditions).value.JobComplete? then Succeeded else Failed, now)
    else if Overdue(JobDeadline(spec, e, read), JobClock(e, read), now) then CloseJob(e, Failed, now)
    else e
  }

  predicate Decisive(c: Condition) {
    c.holds && !c.kind.OtherCondition?
  }

  /** The first condition that holds and is Complete or Failed is of this kind. */
  ghost predicate FirstDecisive(cs: seq<Condition>, kind: ConditionKind) {
    exists k :: 0 <= k < |cs| && Decisive(cs[k]) && cs[k].kind == kind && forall j :: 0 <= j < k ==> !Decisive(cs[j])
  }

  lemma {:induction false} VerdictIsFirst(cs: seq<Condition>, kind: ConditionKind)
    ensures Verdict(cs) == Some(kind) <==> FirstDecisive(cs, kind)
    ensures Verdict(cs).None? <==> forall k :: 0 <= k < |cs| ==> !Decisive(cs[k])
  {
    if cs != [] {
      VerdictIsFirst(cs[1..], kind);
      if FirstDecisive(cs[1..], kind) && !Decisive(cs[0]) {
        var k :| 0 <= k < |cs| - 1 && Decisive(cs[1..][k]) && cs[1..][k].kind == kind && forall j :: 0 <= j < k ==>
          !Decisive(cs[1..][j]);
        assert Decisive(cs[k + 1]) && cs[k + 1].kind == kind;
        assert forall j :: 0 < j < k + 1 ==> cs[j] == cs[1..][j - 1];
      }
      if FirstDecisive(cs, kind) && !Decisive(cs[0]) {
        var k :| 0 <= k < |cs| && Decisive(cs[k]) && cs[k].kind == kind && forall j :: 0 <= j < k ==> !Decisive(cs[j]);
        assert cs[1..][k - 1] == cs[k];
        assert forall j :: 0 <= j < k - 1 ==> cs[1..][j] == cs[j + 1];
      }
      assert (forall k :: 0 <= k < |cs| ==> !Decisive(cs[k])) <==>
        !Decisive(cs[0]) && forall k :: 0 <= k < |cs[1..]| ==> !Decisive(cs[1..][k]) by {
        assert forall k :: 0 <= k < |cs[1..]| ==> cs[1..][k] == cs[k + 1];
        assert forall k :: 0 < k < |cs| ==> cs[k] == cs[1..][k - 1];
      }
    }
  }

  ghost predicate Says(read: JobRead, kind: ConditionKind) {
    read.JobSeen? && FirstDecisive(read.conditions, kind)
  }

  ghost predicate Undecided(read: JobRead) {
    read.JobSeen? ==> forall k :: 0 <= k < |read.conditions| ==> !Decisive(read.conditions[k])
  }

  lemma ReadVerdict(read: JobRead)
    ensures read.JobSeen? ==> (forall kind :: Verdict(read.conditions) == Some(kind) <==> Says(read, kind))
    ensures read.JobSeen? ==> (Verdict(read.conditions).None? <==> Undecided(read))
    ensures read.JobSeen? && Verdict(read.conditions).Some? ==> !Verdict(read.conditions).value.OtherCondition?
  {
    if read.JobSeen? {
      forall kind ensures Verdict(read.conditions) == Some(kind) <==> Says(read, kind) {
        VerdictIsFirst(read.conditions, kind);
      }
      VerdictIsFirst(read.conditions, JobComplete);
      if Verdict(read.conditions).Some? {
        assert Says(read, Verdict(read.conditions).value);
      }
    }
  }

  /** The seconds the plan gives a recovery of this type: its own figure, or ten minutes a reflash, five a reset. */
  ghost predicate PlanAllows(spec: PlanSpec, t: RecoveryType, seconds: int) {
    if t == Reflash then if spec.reflashSeconds <= 0 then seconds == 600 else seconds == spec.reflashSeconds
    else if spec.resetSeconds <= 0 then seconds == 300 else seconds == spec.resetSeconds
  }

  ghost predicate JobAllows(spec: PlanSpec, t: RecoveryType, own: Option<int>, seconds: int) {
    if own.Some? && own.value > 0 then seconds == own.value else PlanAllows(spec, t, seconds)
  }

  /**
   More than a minute past the deadline. A Job that is there runs under its own positive deadline, or else the
   plan's, from its start, or else its creation; a Job that is gone under the plan's, from the last change.
   */
  ghost predicate OutOfTime(spec: PlanSpec, e: Event, read: JobRead, now: Time) {
    match read
    case JobReadFailed => false
    case JobGone =>
      e.lastUpdated.Some? && exists limit :: PlanAllows(spec, e.rtype, limit) && now > e.lastUpdated.value + limit + 60
    case JobSeen(_, started, created, deadline) =>
      && (started.Some? || created.Some?)
      && exists limit :: JobAllows(spec, e.rtype, deadline, limit)
           && now > (if started.Some? then started.value else created.value) + limit + 60
  }

  lemma OverdueIsOutOfTime(spec: PlanSpec, e: Event, read: JobRead, now: Time)
    requires !read.JobReadFailed?
    ensures Overdue(JobDeadline(spec, e, read), JobClock(e, read), now) <==> OutOfTime(spec, e, read, now)
  {
    assert PlanAllows(spec, e.rtype, JobTimeout(spec, e));
    if read.JobSeen? {
      assert JobAllows(spec, e.rtype, read.deadline, JobDeadline(spec, e, read));
    }
  }

  /**
   A running event succeeds exactly on a Complete Job, and fails exactly on a Failed one or one without verdict
   that is out of time.
   */
  lemma SyncDecidesExactly(spec: PlanSpec, e: Event, read: JobRead, now: Time)
    requires e.state.InProgress? && e.jobName != ""
    ensures var s := SyncEvent(spec, e, read, now);
      && (s.state.Succeeded? <==> Says(read, JobComplete))
      && (s.state.Failed? <==> Says(read, JobFailed) || (Undecided(read) && OutOfTime(spec, e, read, now)))
      && (s.state.Succeeded? || s.state.Failed? ==> Closed(e, s, now))
      && (!s.state.Succeeded? && !s.state.Failed? ==> s == e)
  {
    ReadVerdict(read);
    if !read.JobReadFailed? {
      OverdueIsOutOfTime(spec, e, read, now);
    }
  }

  /** The Job goes to the past ones, the stamp moves, and nothing else changes but the state. */
  ghost predicate Closed(e: Event, s: Event, now: Time) {
    s == e.(state := s.state, pastJobs := e.pastJobs + [e.jobName], jobName := "", lastUpdated := Some(now))
  }

  /** After the Job sync at `now`, an event still in progress has no verdict and is in time. */
  lemma JobKeepsItsDeadline(spec: PlanSpec, e: Event, read: JobRead, now: Time)
    requires e.state.InProgress? ==> e.jobName != ""
    ensures var s := SyncEvent(spec, e, read, now);
      s.state.InProgress? ==> Undecided(read) && !OutOfTime(spec, e, read, now) && s == e
  {
    if e.state.InProgress? {
      SyncDecidesExactly(spec, e, read, now);
      ReadVerdict(read);
    }
  }

  // ---------------------------------------------------------------- what every event keeps

  /** A Job name made for this GPU at attempt k, whatever type it had then. */
  ghost predicate AttemptName(op: Operator, key: DeviceKey, name: string, k: nat) {
    exists t :: name == op.names.job(op.names.event(key, t), k)
  }

  ghost predicate NamedInOrder(op: Operator, key: DeviceKey, jobs: seq<string>) {
    forall k :: 0 <= k < |jobs| ==> AttemptName(op, key, jobs[k], k)
  }

  /** An accepted address, a real type, an ID built from address and base type, Jobs named in order. */
  ghost predicate IdentityOk(op: Operator, id: string, key: DeviceKey, rtype: RecoveryType, suggested: RecoveryType,
                             pastJobs: seq<string>)
  {
    && ValidBdf(key.bdf)
    && !rtype.Untyped?
    && (rtype.Reflash? ==> suggested.Untyped?)
    && id == op.names.event(key, if suggested.Untyped? then rtype else suggested)
    && NamedInOrder(op, key, pastJobs)
  }

  ghost predicate EventOk(op: Operator, e: Event) {
    && IdentityOk(op, e.id, e.key, e.rtype, e.suggested, e.pastJobs)
    && e.lastUpdated.Some?
    && e.jobName == (if e.state.InProgress? then op.names.job(e.id, |e.pastJobs|) else "")
    && (e.state.Draining? ==> !e.rtype.Reflash? && e.drainStartedAt.Some?)
    && (e.state.MissingFirmware? ==> e.rtype.Reflash?)
  }

  lemma StalledKeepsEventOk(op: Operator, spec: PlanSpec, e: Event, now: Time)
    requires EventOk(op, e) && e.state.Draining?
    ensures EventOk(op, Stalled(spec, e, now))
  {
  }

  lemma CreateKeepsEventOk(op: Operator, spec: PlanSpec, e: Event, accepted: bool, now: Time)
    requires EventOk(op, e) && !e.state.InProgress?
    ensures EventOk(op, CreateJob(op, spec, e, accepted, now))
  {
  }

  lemma DrainKeepsEventOk(op: Operator, spec: PlanSpec, e: Event, found: DrainResult, accepted: bool, now: Time)
    requires EventOk(op, e) && e.state.Draining?
    ensures EventOk(op, DrainStep(op, spec, e, found, accepted, now))
  {
    match found
    case DrainFailed =>
      StalledKeepsEventOk(op, spec, e, now);
    case Waiting(pods, claims) =>
      StalledKeepsEventOk(op, spec, e.(podsBlocking := Cap(pods), claimsBlocking := Cap(claims)), now);
    case Ready =>
      StalledKeepsEventOk(op, spec, e.(podsBlocking := [], claimsBlocking := []), now);
      CreateKeepsEventOk(op, spec, e.(podsBlocking := [], claimsBlocking := []), accepted, now);
  }

  lemma CloseKeepsEventOk(op: Operator, e: Event, s: EventState, now: Time)
    requires EventOk(op, e) && e.state.InProgress? && (s.Succeeded? || s.Failed?)
    ensures EventOk(op, CloseJob(e, s, now))
  {
    assert AttemptName(op, e.key, e.jobName, |e.pastJobs|);
    assert NamedInOrder(op, e.key, e.pastJobs + [e.jobName]);
  }

  lemma SyncKeepsEventOk(op: Operator, spec: PlanSpec, e: Event, read: JobRead, now: Time)
    requires EventOk(op, e)
    ensures EventOk(op, SyncEvent(spec, e, read, now))
  {
    if e.state.InProgress? {
      CloseKeepsEventOk(op, e, Succeeded, now);
      CloseKeepsEventOk(op, e, Failed, now);
    }
  }

  lemma AttemptNamesDiffer(op: Operator, key: DeviceKey, a: string, i: nat, b: string, j: nat)
    requires GoodScheme(op.names)
    requires AttemptName(op, key, a, i) && AttemptName(op, key, b, j) && i != j
    ensures a != b
  {
    var t :| a == op.names.job(op.names.event(key, t), i);
    var u :| b == op.names.job(op.names.event(key, u), j);
  }

  /** All Jobs of an event, past and present, have different names, across escalations too. */
  lemma JobNamesAreDistinct(op: Operator, e: Event)
    requires GoodScheme(op.names) && EventOk(op, e)
    ensures forall i, j :: 0 <= i < j < |e.pastJobs| ==> e.pastJobs[i] != e.pastJobs[j]
    ensures e.state.InProgress? ==> e.jobName !in e.pastJobs
    ensures e.state.InProgress? <==> e.jobName != ""
  {
    forall i, j | 0 <= i < j < |e.pastJobs| ensures e.pastJobs[i] != e.pastJobs[j] {
      AttemptNamesDiffer(op, e.key, e.pastJobs[i], i, e.pastJobs[j], j);
    }
    if e.state.InProgress? {
      assert AttemptName(op, e.key, e.jobName, |e.pastJobs|);
      forall i | 0 <= i < |e.pastJobs| ensures e.pastJobs[i] != e.jobName {
        AttemptNamesDiffer(op, e.key, e.pastJobs[i], i, e.jobName, |e.pastJobs|);
      }
    }
  }
}
