/** When a drained GPU is reset and when its drain is given up, told by the pods, claims and slices a pass reads. */
module DrainRules {
  import opened Prelude
  import opened Naming
  import opened SortedStrings
  import opened NodeDrain
  import opened RecoveryEvents
  import opened Approvals
  import opened ApprovalRules

  /** A pod the drain leaves where it is. */
  ghost predicate LeftAlone(op: Operator, spec: PlanSpec, pod: Pod) {
    || pod.ns in spec.skipNamespaces + [op.namespace]
    || pod.mirror || exists i :: 0 <= i < |pod.ownerKinds| && pod.ownerKinds[i] == "DaemonSet"
  }

  /** A pod that is not in the way: left alone, or run to its end. */
  ghost predicate OutOfTheWay(op: Operator, spec: PlanSpec, pod: Pod) {
    LeftAlone(op, spec, pod) || pod.phase in {PodSucceeded, PodFailed}
  }

  /** The claim was given a device published on the node at this address, and not for administration. */
  ghost predicate Holds(claim: Claim, slices: seq<Slice>, key: DeviceKey) {
    claim.allocation.Some? && exists r, s, d :: r in claim.allocation.value && Grants(r, s, d, slices, key)
  }

  ghost predicate Grants(r: Allocation, s: Slice, d: Device, slices: seq<Slice>, key: DeviceKey) {
    && r.driver == "gpu.intel.com" && !r.admin && At(s, d, slices, key)
    && r.on.pool == s.pool && r.on.device == d.name
  }

  ghost predicate At(s: Slice, d: Device, slices: seq<Slice>, key: DeviceKey) {
    s in slices && d in s.devices && s.node == Some(key.node) && d.bdf == key.bdf
  }

  /** The reservation is that of a pod, still the same one, that the drain leaves alone. */
  ghost predicate ByPodLeftAlone(op: Operator, spec: PlanSpec, reader: PodReader, ns: string, c: Consumer) {
    && c.apiGroup == "" && c.resource == "pods"
    && match reader(ns, c.name)
       case Found(pod) => pod.uid == c.uid && LeftAlone(op, spec, pod)
       case NotFound => false
       case ReadFailed => false
  }

  /** The node is tainted, every pod on it out of the way, and no claim on the GPU but by pods left alone. */
  ghost predicate SafeToReset(op: Operator, spec: PlanSpec, view: View, key: DeviceKey) {
    && view.taintSet && view.pods.Some? && view.slices.Some?
    && (forall p :: p in view.pods.value ==> OutOfTheWay(op, spec, p))
    && (view.claims.None? ==> forall s, d :: !At(s, d, view.slices.value, key))
    && (view.claims.Some? ==> forall c :: c in view.claims.value && Holds(c, view.slices.value, key) ==>
          forall r :: r in c.reservedFor ==> ByPodLeftAlone(op, spec, view.reader, c.ns, r))
  }

  lemma LeftAloneIsNeverEvicted(op: Operator, spec: PlanSpec, pod: Pod)
    ensures LeftAlone(op, spec, pod) <==> NeverEvicted(ScopeOf(op, spec), pod)
  {
  }

  lemma DevicesAre(slices: seq<Slice>, key: DeviceKey, x: PoolDevice)
    ensures x in DevicesAt(slices, key.node, key.bdf) <==>
      exists s, d :: At(s, d, slices, key) && x == PoolDevice(s.pool, d.name)
  {
    if x in DevicesAt(slices, key.node, key.bdf) {
      var i, j :| 0 <= i < |slices| && 0 <= j < |slices[i].devices|
        && slices[i].node == Some(key.node) && slices[i].devices[j].bdf == key.bdf
        && x == PoolDevice(slices[i].pool, slices[i].devices[j].name);
      assert At(slices[i], slices[i].devices[j], slices, key);
    }
    if s, d :| At(s, d, slices, key) && x == PoolDevice(s.pool, d.name) {
      var i :| 0 <= i < |slices| && slices[i] == s;
      var j :| 0 <= j < |s.devices| && s.devices[j] == d;
      assert slices[i].devices[j].bdf == key.bdf;
    }
  }

  lemma HoldsIsHoldsDevice(claim: Claim, slices: seq<Slice>, key: DeviceKey)
    ensures Holds(claim, slices, key) <==> HoldsDevice(claim, DevicesAt(slices, key.node, key.bdf))
  {
    if claim.allocation.Some? {
      forall r | r in claim.allocation.value
        ensures (exists s, d :: Grants(r, s, d, slices, key)) <==>
          r.driver == GPU_DRIVER && r.on in DevicesAt(slices, key.node, key.bdf) && !r.admin
      {
        DevicesAre(slices, key, r.on);
        if r.driver == GPU_DRIVER && r.on in DevicesAt(slices, key.node, key.bdf) && !r.admin {
          var s, d :| At(s, d, slices, key) && r.on == PoolDevice(s.pool, d.name);
          assert Grants(r, s, d, slices, key);
        }
      }
    }
  }

  lemma NoDevices(slices: seq<Slice>, key: DeviceKey)
    ensures DevicesAt(slices, key.node, key.bdf) == {} <==> forall s, d :: !At(s, d, slices, key)
  {
    if s, d :| At(s, d, slices, key) {
      DevicesAre(slices, key, PoolDevice(s.pool, d.name));
    }
    if x :| x in DevicesAt(slices, key.node, key.bdf) {
      DevicesAre(slices, key, x);
    }
  }

  lemma ReservationsAre(op: Operator, spec: PlanSpec, reader: PodReader, ns: string, c: Consumer)
    ensures ByPodLeftAlone(op, spec, reader, ns, c) <==> Undrainable(ScopeOf(op, spec), reader, ns, c)
  {
    if reader(ns, c.name).Found? {
      LeftAloneIsNeverEvicted(op, spec, reader(ns, c.name).pod);
    }
  }

  lemma ClearIsOutOfTheWay(op: Operator, spec: PlanSpec, pods: seq<Pod>)
    ensures NodeClear(ScopeOf(op, spec), pods) <==> forall p :: p in pods ==> OutOfTheWay(op, spec, p)
  {
    forall p ensures OutOfTheWay(op, spec, p) <==> NeverEvicted(ScopeOf(op, spec), p) || Finished(p) {
      LeftAloneIsNeverEvicted(op, spec, p);
    }
  }

  lemma ReleasedAre(op: Operator, spec: PlanSpec, view: View, key: DeviceKey, c: Claim)
    requires view.slices.Some?
    ensures var devices := DevicesAt(view.slices.value, key.node, key.bdf);
      (Holds(c, view.slices.value, key) ==>
         forall r :: r in c.reservedFor ==> ByPodLeftAlone(op, spec, view.reader, c.ns, r)) <==>
      (Relevant(c, devices) ==>
         forall r :: r in c.reservedFor ==> Undrainable(ScopeOf(op, spec), view.reader, c.ns, r))
  {
    HoldsIsHoldsDevice(c, view.slices.value, key);
    forall r ensures ByPodLeftAlone(op, spec, view.reader, c.ns, r) <==>
      Undrainable(ScopeOf(op, spec), view.reader, c.ns, r)
    {
      ReservationsAre(op, spec, view.reader, c.ns, r);
    }
  }

  lemma ReadyIsSafe(op: Operator, spec: PlanSpec, view: View, key: DeviceKey)
    ensures DrainCheck(ScopeOf(op, spec), view, key.node, key.bdf) == Ready <==> SafeToReset(op, spec, view, key)
  {
    var sc := ScopeOf(op, spec);
    ReadyExactlyWhenSafe(sc, view, key.node, key.bdf);
    if view.pods.Some? {
      ClearIsOutOfTheWay(op, spec, view.pods.value);
    }
    if view.slices.Some? {
      var slices := view.slices.value;
      var devices := DevicesAt(slices, key.node, key.bdf);
      NoDevices(slices, key);
      forall c ensures
        (Holds(c, slices, key) ==> forall r :: r in c.reservedFor ==> ByPodLeftAlone(op, spec, view.reader, c.ns, r))
        <==> (Relevant(c, devices) ==> forall r :: r in c.reservedFor ==> Undrainable(sc, view.reader, c.ns, r))
      {
        ReleasedAre(op, spec, view, key, c);
      }
      assert devices == {} ==> forall c :: !Relevant(c, devices);
    }
  }

  // ---------------------------------------------------------------- one drain pass

  /** What a drain never touches. */
  ghost predicate SameButDrain(e: Event, d: Event) {
    d == e.(state := d.state, jobName := d.jobName, lastUpdated := d.lastUpdated, drainStartedAt := d.drainStartedAt,
            podsBlocking := d.podsBlocking, claimsBlocking := d.claimsBlocking)
  }

  /** Nothing but the API server stands between the event and its Job. */
  ghost predicate Runnable(spec: PlanSpec, e: Event) {
    if e.rtype == Reflash then HasFirmware(spec) else e.rtype != Untyped
  }

  lemma StepMoves(op: Operator, spec: PlanSpec, e: Event, found: DrainResult, accepted: bool, now: Time)
    requires e.state == Draining
    ensures var d, safe := DrainStep(op, spec, e, found, accepted, now), found == Ready;
      && SameButDrain(e, d) && d.state in {Draining, InProgress, Failed, MissingFirmware}
      && (d.state == InProgress <==> safe && accepted && Runnable(spec, e))
      && (d.state == MissingFirmware <==> safe && e.rtype == Reflash && !HasFirmware(spec))
      && (d.state == Failed <==> DrainLate(spec, e, now) && !(safe && (accepted || !Runnable(spec, e))))
      && (d.state != Draining ==> d.lastUpdated == Some(now))
  {
  }

  lemma StepRecords(op: Operator, spec: PlanSpec, e: Event, found: DrainResult, accepted: bool, now: Time)
    requires e.state == Draining
    ensures var d, safe := DrainStep(op, spec, e, found, accepted, now), found == Ready;
      && d.jobName == (if d.state == InProgress then op.names.job(e.id, |e.pastJobs|) else e.jobName)
      && (d.state == Failed ==> d.drainStartedAt == None)
      && (d.state != Failed && e.drainStartedAt.Some? ==> d.drainStartedAt == e.drainStartedAt)
      && (d.state == Draining && e.drainStartedAt.None? && !safe ==> d.drainStartedAt == Some(now))
      && (d.state == Draining ==> d.lastUpdated == e.lastUpdated)
      && (safe ==> d.podsBlocking == [] && d.claimsBlocking == [])
  {
  }

  lemma DrainEventIsStep(op: Operator, spec: PlanSpec, e: Event, i: DrainInput, now: Time) returns (found: DrainResult)
    requires e.state == Draining
    ensures DrainEvent(op, spec, e, i, now) == DrainStep(op, spec, e, found, i.accepted, now)
    ensures found == Ready <==> SafeToReset(op, spec, i.view, e.key)
  {
    found := DrainCheck(ScopeOf(op, spec), i.view, e.key.node, e.key.bdf);
    ReadyIsSafe(op, spec, i.view, e.key);
  }

  /**
   One pass over a draining event. Its Job is created exactly when that is safe and accepted; it fails exactly
   when its time is up and it is not; else it goes on draining against the same clock.
   */
  lemma DrainMovesExactly(op: Operator, spec: PlanSpec, e: Event, i: DrainInput, now: Time)
    requires e.state == Draining
    ensures var d, safe := DrainEvent(op, spec, e, i, now), SafeToReset(op, spec, i.view, e.key);
      && SameButDrain(e, d) && d.state in {Draining, InProgress, Failed, MissingFirmware}
      && (d.state == InProgress <==> safe && i.accepted && Runnable(spec, e))
      && (d.state == MissingFirmware <==> safe && e.rtype == Reflash && !HasFirmware(spec))
      && (d.state == Failed <==> DrainLate(spec, e, now) && !(safe && (i.accepted || !Runnable(spec, e))))
      && (d.state != Draining ==> d.lastUpdated == Some(now))
  {
    var found := DrainEventIsStep(op, spec, e, i, now);
    StepMoves(op, spec, e, found, i.accepted, now);
  }

  /** What the event records while it drains and when it stops: its Job, its clock, what is in the way. */
  lemma DrainRecords(op: Operator, spec: PlanSpec, e: Event, i: DrainInput, now: Time)
    requires e.state == Draining
    ensures var d, safe := DrainEvent(op, spec, e, i, now), SafeToReset(op, spec, i.view, e.key);
      && d.jobName == (if d.state == InProgress then op.names.job(e.id, |e.pastJobs|) else e.jobName)
      && (d.state == Failed ==> d.drainStartedAt == None)
      && (d.state != Failed && e.drainStartedAt.Some? ==> d.drainStartedAt == e.drainStartedAt)
      && (d.state == Draining && e.drainStartedAt.None? && !safe ==> d.drainStartedAt == Some(now))
      && (d.state == Draining ==> d.lastUpdated == e.lastUpdated)
      && (safe ==> d.podsBlocking == [] && d.claimsBlocking == [])
  {
    var found := DrainEventIsStep(op, spec, e, i, now);
    StepRecords(op, spec, e, found, i.accepted, now);
  }

  // ---------------------------------------------------------------- what is reported to be in the way

  /** A pod in the way goes by namespace and name. */
  ghost predicate PodInTheWay(op: Operator, spec: PlanSpec, pods: seq<Pod>, name: string) {
    exists p :: p in pods && !OutOfTheWay(op, spec, p) && name == p.ns + "/" + p.name
  }

  ghost predicate ClaimInTheWay(op: Operator, spec: PlanSpec, view: View, key: DeviceKey, name: string) {
    && view.slices.Some? && view.claims.Some?
    && exists c :: c in view.claims.value && Holds(c, view.slices.value, key) && name == c.ns + "/" + c.name
         && exists r :: r in c.reservedFor && !ByPodLeftAlone(op, spec, view.reader, c.ns, r)
  }

  lemma SortedKeeps(s: seq<string>, x: string)
    ensures x in Sort(s) <==> x in s
  {
    assert x in multiset(Sort(s)) <==> x in multiset(s);
  }

  lemma PodsReported(op: Operator, spec: PlanSpec, pods: seq<Pod>, name: string)
    ensures var sc := ScopeOf(op, spec);
      name in PodNames(Select(sc, pods, Evict) + Select(sc, pods, Await)) <==> PodInTheWay(op, spec, pods, name)
  {
    var sc := ScopeOf(op, spec);
    var chosen := Select(sc, pods, Evict) + Select(sc, pods, Await);
    forall p ensures p in chosen <==> p in pods && !OutOfTheWay(op, spec, p) {
      BlockersAreSplit(sc, pods, p);
      LeftAloneIsNeverEvicted(op, spec, p);
    }
    if name in PodNames(chosen) {
      var i :| 0 <= i < |chosen| && PodNames(chosen)[i] == name;
      assert chosen[i] in chosen;
    }
    if PodInTheWay(op, spec, pods, name) {
      var p :| p in pods && !OutOfTheWay(op, spec, p) && name == p.ns + "/" + p.name;
      var i :| 0 <= i < |chosen| && chosen[i] == p;
      assert PodNames(chosen)[i] == name;
    }
  }

  ghost predicate Blocks(sc: Scope, reader: PodReader, c: Claim, devices: set<PoolDevice>) {
    Relevant(c, devices) && exists r :: r in c.reservedFor && !Undrainable(sc, reader, c.ns, r)
  }

  lemma {:induction false} BlockingClaims(sc: Scope, reader: PodReader, claims: seq<Claim>, devices: set<PoolDevice>,
                                          name: string)
    requires ClaimsHolding(sc, reader, claims, devices).Some?
    ensures name in ClaimsHolding(sc, reader, claims, devices).value <==>
      exists c :: c in claims && Blocks(sc, reader, c, devices) && name == c.ns + "/" + c.name
  {
    if claims != [] {
      var n := |claims| - 1;
      BlockingClaims(sc, reader, claims[..n], devices, name);
      HoldIgnorable(sc, reader, claims[n].ns, claims[n].reservedFor);
      assert forall c :: c in claims <==> c in claims[..n] || c == claims[n];
    }
  }

  lemma BlocksIs(op: Operator, spec: PlanSpec, view: View, key: DeviceKey, c: Claim)
    requires view.slices.Some?
    ensures Blocks(ScopeOf(op, spec), view.reader, c, DevicesAt(view.slices.value, key.node, key.bdf)) <==>
      && Holds(c, view.slices.value, key)
      && exists r :: r in c.reservedFor && !ByPodLeftAlone(op, spec, view.reader, c.ns, r)
  {
    HoldsIsHoldsDevice(c, view.slices.value, key);
    forall r ensures ByPodLeftAlone(op, spec, view.reader, c.ns, r) <==>
      Undrainable(ScopeOf(op, spec), view.reader, c.ns, r)
    {
      ReservationsAre(op, spec, view.reader, c.ns, r);
    }
  }

  lemma ClaimsReported(op: Operator, spec: PlanSpec, view: View, key: DeviceKey, name: string)
    requires HoldingNames(ScopeOf(op, spec), view, key.node, key.bdf).Some?
    ensures name in HoldingNames(ScopeOf(op, spec), view, key.node, key.bdf).value <==>
      ClaimInTheWay(op, spec, view, key, name)
  {
    var sc, devices := ScopeOf(op, spec), DevicesAt(view.slices.value, key.node, key.bdf);
    forall c ensures Blocks(sc, view.reader, c, devices) <==>
      && Holds(c, view.slices.value, key)
      && exists r :: r in c.reservedFor && !ByPodLeftAlone(op, spec, view.reader, c.ns, r)
    {
      BlocksIs(op, spec, view, key, c);
    }
    if view.claims.None? {
      assert devices == {};
    } else if devices != {} {
      BlockingClaims(sc, view.reader, view.claims.value, devices, name);
      SortedKeeps(ClaimsHolding(sc, view.reader, view.claims.value, devices).value, name);
    } else {
      assert forall c :: !Relevant(c, devices);
    }
  }

  /** A drain that waits reports, in order, exactly the pods and claims in the way. */
  lemma ReportedExactly(op: Operator, spec: PlanSpec, view: View, key: DeviceKey, name: string)
    requires DrainCheck(ScopeOf(op, spec), view, key.node, key.bdf).Waiting?
    ensures var w := DrainCheck(ScopeOf(op, spec), view, key.node, key.bdf);
      && Sorted(w.pods) && Sorted(w.claims)
      && (name in w.pods <==> PodInTheWay(op, spec, view.pods.value, name))
      && (name in w.claims <==> ClaimInTheWay(op, spec, view, key, name))
  {
    var sc, pods := ScopeOf(op, spec), view.pods.value;
    PodsReported(op, spec, pods, name);
    SortedKeeps(PodNames(Select(sc, pods, Evict) + Select(sc, pods, Await)), name);
    ClaimsReported(op, spec, view, key, name);
  }

  ghost predicate CannotRead(reader: PodReader, ns: string, c: Consumer) {
    c.apiGroup == "" && c.resource == "pods" && reader(ns, c.name) == ReadFailed
  }

  /** Reservation k could not be read, and those before it are by pods left alone. */
  ghost predicate StuckAt(op: Operator, spec: PlanSpec, reader: PodReader, ns: string, cs: seq<Consumer>, k: nat) {
    k < |cs| && CannotRead(reader, ns, cs[k]) && forall j :: 0 <= j < k ==> ByPodLeftAlone(op, spec, reader, ns, cs[j])
  }

  ghost predicate Stuck(op: Operator, spec: PlanSpec, reader: PodReader, ns: string, cs: seq<Consumer>) {
    exists k: nat :: StuckAt(op, spec, reader, ns, cs, k)
  }

  lemma StuckNext(op: Operator, spec: PlanSpec, reader: PodReader, ns: string, cs: seq<Consumer>)
    requires cs != []
    ensures Stuck(op, spec, reader, ns, cs) <==>
      || CannotRead(reader, ns, cs[0])
      || (ByPodLeftAlone(op, spec, reader, ns, cs[0]) && Stuck(op, spec, reader, ns, cs[1..]))
  {
    if CannotRead(reader, ns, cs[0]) {
      assert StuckAt(op, spec, reader, ns, cs, 0);
    }
    if ByPodLeftAlone(op, spec, reader, ns, cs[0]) && Stuck(op, spec, reader, ns, cs[1..]) {
      var k: nat :| StuckAt(op, spec, reader, ns, cs[1..], k);
      assert forall j :: 0 < j < k + 1 ==> cs[j] == cs[1..][j - 1];
      assert StuckAt(op, spec, reader, ns, cs, k + 1);
    }
    if Stuck(op, spec, reader, ns, cs) && !CannotRead(reader, ns, cs[0]) {
      var k: nat :| StuckAt(op, spec, reader, ns, cs, k);
      assert StuckAt(op, spec, reader, ns, cs[1..], k - 1);
    }
  }

  lemma {:induction false} StuckIs(op: Operator, spec: PlanSpec, reader: PodReader, ns: string, cs: seq<Consumer>)
    ensures HoldOf(ScopeOf(op, spec), reader, ns, cs) == NoAnswer <==> Stuck(op, spec, reader, ns, cs)
  {
    if cs != [] {
      StuckIs(op, spec, reader, ns, cs[1..]);
      StuckNext(op, spec, reader, ns, cs);
      ReservationsAre(op, spec, reader, ns, cs[0]);
    }
  }

  lemma {:induction false} UnansweredClaims(sc: Scope, reader: PodReader, claims: seq<Claim>, devices: set<PoolDevice>)
    ensures ClaimsHolding(sc, reader, claims, devices).None? <==>
      exists c :: c in claims && Relevant(c, devices) && HoldOf(sc, reader, c.ns, c.reservedFor) == NoAnswer
  {
    if claims != [] {
      var n := |claims| - 1;
      UnansweredClaims(sc, reader, claims[..n], devices);
      assert forall c :: c in claims <==> c in claims[..n] || c == claims[n];
    }
  }

  /** A drain pass learns nothing exactly when a call it depends on failed: the taint, a list, or a pod read. */
  lemma UnansweredExactlyWhen(op: Operator, spec: PlanSpec, view: View, key: DeviceKey)
    ensures DrainCheck(ScopeOf(op, spec), view, key.node, key.bdf) == DrainFailed <==>
      || !view.taintSet || view.pods == None || view.slices == None
      || ((exists s, d :: At(s, d, view.slices.value, key))
          && (view.claims == None
              || exists c :: c in view.claims.value && Holds(c, view.slices.value, key)
                   && Stuck(op, spec, view.reader, c.ns, c.reservedFor)))
  {
    if view.slices.Some? {
      var sc, devices := ScopeOf(op, spec), DevicesAt(view.slices.value, key.node, key.bdf);
      NoDevices(view.slices.value, key);
      if view.claims.Some? {
        UnansweredClaims(sc, view.reader, view.claims.value, devices);
        forall c ensures Holds(c, view.slices.value, key) && Stuck(op, spec, view.reader, c.ns, c.reservedFor) <==>
          Relevant(c, devices) && HoldOf(sc, view.reader, c.ns, c.reservedFor) == NoAnswer
        {
          HoldsIsHoldsDevice(c, view.slices.value, key);
          StuckIs(op, spec, view.reader, c.ns, c.reservedFor);
        }
      }
    }
  }

  lemma StepReports(op: Operator, spec: PlanSpec, e: Event, found: DrainResult, accepted: bool, now: Time)
    ensures var d := DrainStep(op, spec, e, found, accepted, now);
      && (found == DrainFailed ==> d.podsBlocking == e.podsBlocking && d.claimsBlocking == e.claimsBlocking)
      && (found.Waiting? ==> d.podsBlocking == Cap(found.pods) && d.claimsBlocking == Cap(found.claims))
  {
  }

  /** The event keeps its last report when a pass learns nothing, and else shows what that pass found. */
  lemma ReportFollows(op: Operator, spec: PlanSpec, e: Event, i: DrainInput, now: Time)
    requires e.state == Draining
    ensures var d := DrainEvent(op, spec, e, i, now);
      var found := DrainCheck(ScopeOf(op, spec), i.view, e.key.node, e.key.bdf);
      && (found == DrainFailed ==> d.podsBlocking == e.podsBlocking && d.claimsBlocking == e.claimsBlocking)
      && (found.Waiting? ==> d.podsBlocking == Cap(found.pods) && d.claimsBlocking == Cap(found.claims))
  {
    var found := DrainCheck(ScopeOf(op, spec), i.view, e.key.node, e.key.bdf);
    StepReports(op, spec, e, found, i.accepted, now);
  }

  /** A drain asks exactly the pods in its way to leave, bar those already leaving. */
  lemma AskedExactly(op: Operator, spec: PlanSpec, pods: seq<Pod>, p: Pod)
    ensures p in Select(ScopeOf(op, spec), pods, Evict) <==> p in pods && !OutOfTheWay(op, spec, p) && !p.terminating
  {
    BlockersAreSplit(ScopeOf(op, spec), pods, p);
    LeftAloneIsNeverEvicted(op, spec, p);
  }

  /** At most ten blockers are listed, the first ten; the rest is counted. */
  lemma CapShowsTen(items: seq<string>)
    ensures |items| <= 10 ==> Cap(items) == items
    ensures |items| > 10 ==> |Cap(items)| == 11 && Cap(items)[..10] == items[..10]
    ensures |items| > 10 ==> Cap(items)[10] == "... and " + Decimal(|items| - 10) + " more"
  {
  }
}
