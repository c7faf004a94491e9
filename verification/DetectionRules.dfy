/** What detection makes of a GPU, told by the taints its slices publish and by nothing else. */
module DetectionRules {
  import opened Prelude
  import opened Naming
  import opened NodeDrain
  import opened RecoveryEvents
  import opened Detection

  // ---------------------------------------------------------------- which recovery is called for

  /** A PCI address as the kernel prints it, in either hex case. */
  ghost predicate PciAddress(s: string) {
    && |s| == 12 && s[4] == s[7] == ':' && s[10] == '.' && s[11] in "01234567"
    && forall i :: 0 <= i < 10 && i != 4 && i != 7 ==> s[i] in "0123456789abcdefABCDEF"
  }

  lemma AddressesAccepted(s: string)
    ensures ValidBdf(s) <==> PciAddress(s)
  {
    HexDigits();
    if |s| == 12 {
      assert s[11] in "01234567" <==> '0' <= s[11] <= '7';
      forall i | 0 <= i < 10 && i != 4 && i != 7 ensures i in [0, 1, 2, 3, 5, 6, 8, 9] {
      }
    }
  }

  lemma HexDigits()
    ensures forall c :: c in "0123456789abcdefABCDEF" <==> IsHex(c)
  {
  }

  /** Some slice of the GPU driver publishes a device of the plan's model at k with this taint. */
  ghost predicate Publishes(spec: PlanSpec, slices: seq<Slice>, k: DeviceKey, taint: string) {
    exists s, d :: s in slices && d in s.devices && Shows(spec, s, d, k) && taint in d.taints
  }

  ghost predicate Shows(spec: PlanSpec, s: Slice, d: Device, k: DeviceKey) {
    s.driver == "gpu.intel.com" && s.node == Some(k.node) && d.pciId == spec.deviceId && d.bdf == k.bdf
  }

  ghost predicate Wedged(spec: PlanSpec, slices: seq<Slice>, k: DeviceKey) {
    Publishes(spec, slices, k, "health-xpumd-gpu.wedged")
  }

  ghost predicate InSurvivability(spec: PlanSpec, slices: seq<Slice>, k: DeviceKey) {
    Publishes(spec, slices, k, "health-Survivability") || Publishes(spec, slices, k, "health-xpumd-gpu.survivability")
  }

  /** The reset a wedged GPU gets: the plan's default, or an SBR where the plan names none. */
  ghost predicate IsReset(spec: PlanSpec, t: RecoveryType) {
    if spec.defaultReset == Untyped then t == Sbr else t == spec.defaultReset
  }

  lemma TaintKeysDiffer()
    ensures "health-Survivability" != "health-xpumd-gpu.wedged"
    ensures "health-Survivability" != "health-xpumd-gpu.survivability"
    ensures "health-xpumd-gpu.wedged" != "health-xpumd-gpu.survivability"
  {
    assert |"health-xpumd-gpu.wedged"| == 23 && |"health-Survivability"| == 20;
    assert |"health-xpumd-gpu.survivability"| == 30;
  }

  /** The taint of a published device calls for t. */
  ghost predicate CallsFor(spec: PlanSpec, taint: string, t: RecoveryType) {
    || (t == Reflash && (taint == "health-Survivability" || taint == "health-xpumd-gpu.survivability"))
    || (taint == "health-xpumd-gpu.wedged" && IsReset(spec, t))
  }

  lemma TaintCallsFor(spec: PlanSpec, taint: string, t: RecoveryType)
    ensures TaintNeed(spec.defaultReset, taint) == t && !t.Untyped? <==> CallsFor(spec, taint, t)
  {
    TaintKeysDiffer();
  }

  ghost predicate Asks(spec: PlanSpec, s: Slice, d: Device, k: DeviceKey, taint: string, t: RecoveryType) {
    d in s.devices && Shows(spec, s, d, k) && taint in d.taints && CallsFor(spec, taint, t)
  }

  lemma SliceAsks(spec: PlanSpec, s: Slice, k: DeviceKey, t: RecoveryType)
    ensures DemandedBy(spec, s, |s.devices|, (k, t)) <==>
      PciAddress(k.bdf) && exists d, taint :: Asks(spec, s, d, k, taint, t)
  {
    AddressesAccepted(k.bdf);
    if DemandedBy(spec, s, |s.devices|, (k, t)) {
      var j, taint :| 0 <= j < |s.devices| && taint in s.devices[j].taints && Watched(spec, s, s.devices[j])
        && (k, t) == (DeviceKey(s.node.value, s.devices[j].bdf), TaintNeed(spec.defaultReset, taint)) && !t.Untyped?;
      TaintCallsFor(spec, taint, t);
      assert Asks(spec, s, s.devices[j], k, taint, t);
    }
    if PciAddress(k.bdf) && exists d, taint :: Asks(spec, s, d, k, taint, t) {
      var d, taint :| Asks(spec, s, d, k, taint, t);
      TaintCallsFor(spec, taint, t);
      var j :| 0 <= j < |s.devices| && s.devices[j] == d;
      assert Watched(spec, s, s.devices[j]);
    }
  }

  lemma AsksExactly(spec: PlanSpec, slices: seq<Slice>, k: DeviceKey, t: RecoveryType)
    ensures (exists s, d, taint :: s in slices && Asks(spec, s, d, k, taint, t)) <==>
      (t == Reflash && InSurvivability(spec, slices, k)) || (Wedged(spec, slices, k) && IsReset(spec, t))
  {
    if s, d, taint :| s in slices && Asks(spec, s, d, k, taint, t) {
      assert Publishes(spec, slices, k, taint);
    }
    forall taint | Publishes(spec, slices, k, taint) && CallsFor(spec, taint, t)
      ensures exists s, d, taint :: s in slices && Asks(spec, s, d, k, taint, t)
    {
      var s, d :| s in slices && d in s.devices && Shows(spec, s, d, k) && taint in d.taints;
      assert Asks(spec, s, d, k, taint, t);
    }
  }

  /**
   A reflash is demanded exactly of a GPU in survivability mode, a reset exactly of a wedged one; the plan's
   default decides which reset, and may itself be a reflash.
   */
  lemma DemandedExactlyWhen(spec: PlanSpec, slices: seq<Slice>, k: DeviceKey, t: RecoveryType)
    ensures (k, t) in Demands(spec, slices) <==>
      && PciAddress(k.bdf)
      && ((t == Reflash && InSurvivability(spec, slices, k)) || (Wedged(spec, slices, k) && IsReset(spec, t)))
  {
    DemandsExactly(spec, slices, (k, t));
    forall s: Slice | s in slices
      ensures DemandedBy(spec, s, |s.devices|, (k, t)) <==>
        PciAddress(k.bdf) && exists d, taint :: Asks(spec, s, d, k, taint, t)
    {
      SliceAsks(spec, s, k, t);
    }
    assert (exists s, d, taint :: s in slices && Asks(spec, s, d, k, taint, t)) <==>
      (t == Reflash && InSurvivability(spec, slices, k)) || (Wedged(spec, slices, k) && IsReset(spec, t)) by {
      AsksExactly(spec, slices, k, t);
    }
  }

  /** What a GPU needs: a reflash in survivability mode, else its reset if it is wedged, else nothing. */
  ghost predicate NeedIs(spec: PlanSpec, slices: seq<Slice>, k: DeviceKey, t: RecoveryType) {
    && PciAddress(k.bdf)
    && if InSurvivability(spec, slices, k) then t == Reflash else Wedged(spec, slices, k) && IsReset(spec, t)
  }

  lemma NeededExactly(spec: PlanSpec, slices: seq<Slice>, needs: Needs, k: DeviceKey, t: RecoveryType)
    requires IsNeeds(Demands(spec, slices), needs)
    ensures k in needs && needs[k] == t <==> NeedIs(spec, slices, k, t)
  {
    DemandedExactlyWhen(spec, slices, k, t);
    DemandedExactlyWhen(spec, slices, k, Reflash);
    if k in needs {
      DemandedExactlyWhen(spec, slices, k, needs[k]);
    }
    assert (k, Reflash) in Demands(spec, slices) ==> k in needs && needs[k] == Reflash;
    assert (k, t) in Demands(spec, slices) ==> k in needs;
  }

  // ---------------------------------------------------------------- what becomes of the events

  /** Only a reflash outranks a reset; anything outranks no type at all. */
  ghost predicate Outranks(a: RecoveryType, b: RecoveryType) {
    (a == Reflash && b != Reflash) || (a != Untyped && b == Untyped)
  }

  /** A fresh event for a GPU that had none. */
  ghost predicate IsNew(op: Operator, k: DeviceKey, need: RecoveryType, now: Time, e: Event) {
    && e.id == op.names.event(k, need) && e.key == k && e.rtype == need && e.suggested == Untyped
    && e.state == WaitingApproval && e.approvalId == "" && e.imageGeneration == 0 && e.drainStartedAt == None
    && e.podsBlocking == [] && e.claimsBlocking == [] && e.jobName == "" && e.pastJobs == []
    && e.lastUpdated == Some(now)
  }

  /** The event starts over as a more severe one, unapproved, its past Jobs kept for diagnosis. */
  ghost predicate IsEscalated(op: Operator, was: Event, need: RecoveryType, now: Time, e: Event) {
    && e.id == op.names.event(was.key, need) && e.rtype == need && e.suggested == Untyped
    && e.state == WaitingApproval && e.approvalId == "" && e.imageGeneration == 0
    && e.key == was.key && e.jobName == was.jobName && e.pastJobs == was.pastJobs
    && e.drainStartedAt == was.drainStartedAt
    && e.podsBlocking == was.podsBlocking && e.claimsBlocking == was.claimsBlocking
    && (if was.state == WaitingApproval && was.lastUpdated.Some? then e.lastUpdated == was.lastUpdated
        else e.lastUpdated == Some(now))
  }

  /** The event's GPU now needs something more severe. */
  ghost predicate Overtaken(spec: PlanSpec, slices: seq<Slice>, e: Event) {
    exists t :: NeedIs(spec, slices, e.key, t) && Outranks(t, e.rtype)
  }

  lemma EscalatesExactly(op: Operator, e: Event, need: RecoveryType, now: Time)
    ensures var r := Escalate(op, e, need, now);
      if Outranks(need, e.rtype) && e.state != InProgress then IsEscalated(op, e, need, now, r) else r == e
  {
  }

  lemma DetectedFrom(op: Operator, needs: Needs, pre: seq<Event>, post: seq<Event>, now: Time, i: nat)
    requires UniqueKeys(pre) && Detected(op, Unresolved(pre, needs), needs, needs.Keys, post, now) && i < |post|
    ensures var e, k := post[i], post[i].key;
      && (!HasKey(pre, k) ==> k in needs && IsNew(op, k, needs[k], now, e))
      && (forall j :: 0 <= j < |pre| && pre[j].key == k ==>
            if k in needs && Outranks(needs[k], pre[j].rtype) && pre[j].state != InProgress
            then IsEscalated(op, pre[j], needs[k], now, e) else e == pre[j])
  {
    var kept := Unresolved(pre, needs);
    UnresolvedKeeps(pre, needs);
    if i < |kept| {
      assert kept[i] in kept;
      KeyOf(pre, kept[i]);
      if kept[i].key in needs {
        EscalatesExactly(op, kept[i], needs[kept[i].key], now);
      }
    }
  }

  /**
   Every event detection leaves: escalated exactly when what its taints call for outranks it and no Job is in
   flight, untouched otherwise, and new exactly for a GPU without one.
   */
  lemma DetectedExactly(op: Operator, spec: PlanSpec, slices: seq<Slice>, needs: Needs, pre: seq<Event>,
                        post: seq<Event>, now: Time, i: nat)
    requires UniqueKeys(pre) && DetectionPhase(op, spec, slices, needs, pre, post, now) && i < |post|
    ensures var e, k := post[i], post[i].key;
      && (!HasKey(pre, k) ==> exists t :: NeedIs(spec, slices, k, t) && IsNew(op, k, t, now, e))
      && (forall j :: 0 <= j < |pre| && pre[j].key == k ==>
            && (forall t :: NeedIs(spec, slices, k, t) && Outranks(t, pre[j].rtype) && pre[j].state != InProgress ==>
                  IsEscalated(op, pre[j], t, now, e))
            && (pre[j].state == InProgress || !Overtaken(spec, slices, pre[j]) ==> e == pre[j]))
  {
    var k := post[i].key;
    DetectedFrom(op, needs, pre, post, now, i);
    forall t ensures k in needs && needs[k] == t <==> NeedIs(spec, slices, k, t) {
      NeededExactly(spec, slices, needs, k, t);
    }
    assert k in needs ==> NeedIs(spec, slices, k, needs[k]);
  }

  ghost predicate Needed(spec: PlanSpec, slices: seq<Slice>, k: DeviceKey) {
    PciAddress(k.bdf) && (InSurvivability(spec, slices, k) || Wedged(spec, slices, k))
  }

  /** Which GPUs have an event: those in trouble and those with a Job in flight, up to a thousand. */
  lemma ListedExactly(op: Operator, spec: PlanSpec, slices: seq<Slice>, needs: Needs, pre: seq<Event>,
                      post: seq<Event>, now: Time, k: DeviceKey)
    requires |pre| <= 1000 && DetectionPhase(op, spec, slices, needs, pre, post, now)
    ensures |post| <= 1000
    ensures HasKey(post, k) ==> Needed(spec, slices, k) || InFlight(pre, k)
    ensures |post| < 1000 && (Needed(spec, slices, k) || InFlight(pre, k)) ==> HasKey(post, k)
  {
    DetectionCoversDevices(op, spec, slices, needs, pre, post, now);
    var reset := if spec.defaultReset == Untyped then Sbr else spec.defaultReset;
    NeededExactly(spec, slices, needs, k, reset);
    NeededExactly(spec, slices, needs, k, Reflash);
    if k in needs {
      NeededExactly(spec, slices, needs, k, needs[k]);
    }
  }
}
