/**
 Mirroring tainted GPUs into status.events: which recovery the published taints call for, which
 events are resolved, which are new and which have to be escalated.
 */
module Detection {
  import opened Prelude
  import opened Naming
  import opened NodeDrain
  import opened RecoveryEvents

  const MAX_STATUS_EVENTS := 1000
  const TAINT_RESET := "health-xpumd-gpu.wedged"
  const TAINT_REFLASH := "health-Survivability"
  const TAINT_XPUMD_REFLASH := "health-xpumd-gpu.survivability"

  /** The recovery a device taint calls for; Untyped for a taint that is none of ours. */
  function TaintNeed(defaultReset: RecoveryType, taint: string): RecoveryType {
    if taint == TAINT_RESET then if defaultReset.Untyped? then Sbr else defaultReset
    else if taint == TAINT_REFLASH || taint == TAINT_XPUMD_REFLASH then Reflash
    else Untyped
  }

  function MoreSevere(a: RecoveryType, b: RecoveryType): RecoveryType {
    if Severity(b) > Severity(a) then b else a
  }

  /** A device this plan looks after, published with an address the Jobs can be handed. */
  predicate Watched(spec: PlanSpec, s: Slice, d: Device) {
    s.driver == GPU_DRIVER && s.node.Some? && d.pciId == spec.deviceId && d.bdf != "" && ValidBdf(d.bdf)
  }

  type Demand = (DeviceKey, RecoveryType)

  ghost function TaintDemands(spec: PlanSpec, key: DeviceKey, taints: seq<string>): set<Demand> {
    set i | 0 <= i < |taints| && !TaintNeed(spec.defaultReset, taints[i]).Untyped?
      :: (key, TaintNeed(spec.defaultReset, taints[i]))
  }

  ghost function SliceDemands(spec: PlanSpec, s: Slice, n: nat): set<Demand>
    requires n <= |s.devices|
  {
    if n == 0 then {}
    else
      var d := s.devices[n - 1];
      SliceDemands(spec, s, n - 1) +
      if Watched(spec, s, d) then TaintDemands(spec, DeviceKey(s.node.value, d.bdf), d.taints) else {}
  }

  /** Every recovery some published taint calls for; a set, so the order of slices does not matter. */
  ghost function Demands(spec: PlanSpec, slices: seq<Slice>): set<Demand> {
    if slices == [] then {}
    else
      var last := slices[|slices| - 1];
      Demands(spec, slices[..|slices| - 1]) + SliceDemands(spec, last, |last.devices|)
  }

  type Needs = map<DeviceKey, RecoveryType>

  /** The tainted devices, each with the most severe recovery demanded of it. */
  ghost predicate IsNeeds(demands: set<Demand>, needs: Needs) {
    && (forall d :: d in demands ==> d.0 in needs && Severity(d.1) <= Severity(needs[d.0]))
    && (forall k :: k in needs ==> (k, needs[k]) in demands)
  }

  lemma NeedsGrow(demands: set<Demand>, needs: Needs, key: DeviceKey, t: RecoveryType)
    requires IsNeeds(demands, needs) && !t.Untyped?
    ensures IsNeeds(demands + {(key, t)}, needs[key := MoreSevere(if key in needs then needs[key] else Untyped, t)])
  {
  }

  method ScanSlices(spec: PlanSpec, slices: seq<Slice>) returns (needs: Needs)
    ensures IsNeeds(Demands(spec, slices), needs)
  {
    needs := map[];
    for i := 0 to |slices|
      invariant IsNeeds(Demands(spec, slices[..i]), needs)
    {
      var slice := slices[i];
      assert slices[..i + 1][..i] == slices[..i];
      ghost var before := Demands(spec, slices[..i]);
      if slice.driver != GPU_DRIVER || slice.node.None? {
        NoDemands(spec, slice, |slice.devices|);
        continue;
      }
      for j := 0 to |slice.devices|
        invariant IsNeeds(before + SliceDemands(spec, slice, j), needs)
      {
        var dev := slice.devices[j];
        if dev.pciId != spec.deviceId || dev.bdf == "" || !ValidBdf(dev.bdf) { continue; }
        needs := ScanDevice(spec, DeviceKey(slice.node.value, dev.bdf), dev.taints, needs,
                            before + SliceDemands(spec, slice, j));
        assert before + SliceDemands(spec, slice, j + 1)
            == before + SliceDemands(spec, slice, j) +
              TaintDemands(spec, DeviceKey(slice.node.value, dev.bdf), dev.taints);
      }
    }
    assert slices[..|slices|] == slices;
  }

  method ScanDevice(spec: PlanSpec, key: DeviceKey, taints: seq<string>, needs0: Needs, ghost before: set<Demand>)
    returns (needs: Needs)
    requires IsNeeds(before, needs0)
    ensures IsNeeds(before + TaintDemands(spec, key, taints), needs)
  {
    needs := needs0;
    assert TaintDemands(spec, key, []) == {};
    for k := 0 to |taints|
      invariant IsNeeds(before + TaintDemands(spec, key, taints[..k]), needs)
    {
      var need := TaintNeed(spec.defaultReset, taints[k]);
      TaintAdds(spec, key, taints, k);
      if need.Untyped? { continue; }
      NeedsGrow(before + TaintDemands(spec, key, taints[..k]), needs, key, need);
      needs := needs[key := MoreSevere(if key in needs then needs[key] else Untyped, need)];
      assert before + TaintDemands(spec, key, taints[..k + 1]) == before + TaintDemands(spec, key, taints[..k]) +
        {(key, need)};
    }
    assert taints[..|taints|] == taints;
  }

  lemma TaintAdds(spec: PlanSpec, key: DeviceKey, taints: seq<string>, k: nat)
    requires k < |taints|
    ensures TaintDemands(spec, key, taints[..k + 1]) == TaintDemands(spec, key, taints[..k]) +
      if TaintNeed(spec.defaultReset, taints[k]).Untyped? then {} else {(key, TaintNeed(spec.defaultReset, taints[k]))}
  {
    var a, b := taints[..k], taints[..k + 1];
    forall i | 0 <= i < k ensures b[i] == a[i] {
    }
    assert b[k] == taints[k];
  }

  lemma NoDemands(spec: PlanSpec, s: Slice, n: nat)
    requires n <= |s.devices| && (s.driver != GPU_DRIVER || s.node.None?)
    ensures SliceDemands(spec, s, n) == {}
  {
    if n > 0 {
      NoDemands(spec, s, n - 1);
    }
  }

  ghost predicate DemandedBy(spec: PlanSpec, s: Slice, n: nat, d: Demand)
    requires n <= |s.devices|
  {
    exists j, taint :: 0 <= j < n && taint in s.devices[j].taints && Watched(spec, s, s.devices[j])
      && d == (DeviceKey(s.node.value, s.devices[j].bdf), TaintNeed(spec.defaultReset, taint)) && !d.1.Untyped?
  }

  lemma {:induction false} SliceDemandsExactly(spec: PlanSpec, s: Slice, n: nat, d: Demand)
    requires n <= |s.devices|
    ensures d in SliceDemands(spec, s, n) <==> DemandedBy(spec, s, n, d)
  {
    if n > 0 {
      SliceDemandsExactly(spec, s, n - 1, d);
      var dev := s.devices[n - 1];
      if Watched(spec, s, dev) {
        var key := DeviceKey(s.node.value, dev.bdf);
        assert d in TaintDemands(spec, key, dev.taints) <==>
          exists taint :: taint in dev.taints && d == (key, TaintNeed(spec.defaultReset, taint)) && !d.1.Untyped?;
      }
    }
  }

  /** A recovery is demanded exactly when some slice publishes a watched device with a taint that calls for it. */
  lemma {:induction false} DemandsExactly(spec: PlanSpec, slices: seq<Slice>, d: Demand)
    ensures d in Demands(spec, slices) <==> exists s :: s in slices && DemandedBy(spec, s, |s.devices|, d)
  {
    if slices != [] {
      var n := |slices| - 1;
      DemandsExactly(spec, slices[..n], d);
      SliceDemandsExactly(spec, slices[n], |slices[n].devices|, d);
      assert forall s :: s in slices <==> s in slices[..n] || s == slices[n];
    }
  }

  lemma DemandsAreWatched(spec: PlanSpec, slices: seq<Slice>, d: Demand)
    requires d in Demands(spec, slices)
    ensures ValidBdf(d.0.bdf) && !d.1.Untyped?
  {
    DemandsExactly(spec, slices, d);
  }

  // ---------------------------------------------------------------- events

  ghost predicate UniqueKeys(events: seq<Event>) {
    forall i, j :: 0 <= i < j < |events| ==> events[i].key != events[j].key
  }

  ghost predicate HasKey(events: seq<Event>, key: DeviceKey) {
    exists i :: 0 <= i < |events| && events[i].key == key
  }

  predicate StillNeeded(needs: Needs, e: Event) {
    e.key in needs || e.state.InProgress?
  }

  function Unresolved(events: seq<Event>, needs: Needs): seq<Event> {
    if events == [] then []
    else
      var before, last := Unresolved(events[..|events| - 1], needs), events[|events| - 1];
      if StillNeeded(needs, last) then before + [last] else before
  }

  /** removeResolvedEvents: drops events whose taint has cleared, unless a Job is in flight. */
  method RemoveResolved(events: seq<Event>, needs: Needs) returns (kept: seq<Event>)
    ensures kept == Unresolved(events, needs)
  {
    kept := [];
    for i := 0 to |events|
      invariant kept == Unresolved(events[..i], needs)
    {
      assert events[..i + 1][..i] == events[..i];
      if events[i].key in needs {
        kept := kept + [events[i]];
        continue;
      }
      if events[i].state.InProgress? {
        kept := kept + [events[i]];
      }
    }
    assert events[..|events|] == events;
  }

  lemma {:induction false} UnresolvedContents(events: seq<Event>, needs: Needs)
    ensures |Unresolved(events, needs)| <= |events|
    ensures forall e :: e in Unresolved(events, needs) <==> e in events && StillNeeded(needs, e)
  {
    if events != [] {
      var n := |events| - 1;
      UnresolvedContents(events[..n], needs);
      assert forall e :: e in events <==> e in events[..n] || e == events[n];
    }
  }

  lemma {:induction false} UnresolvedUnique(events: seq<Event>, needs: Needs)
    requires UniqueKeys(events)
    ensures UniqueKeys(Unresolved(events, needs))
  {
    if events != [] {
      var n := |events| - 1;
      UnresolvedUnique(events[..n], needs);
      UnresolvedContents(events[..n], needs);
      var before := Unresolved(events[..n], needs);
      forall i | 0 <= i < |before| ensures before[i].key != events[n].key {
        assert before[i] in before;
      }
    }
  }

  /** What survives keeps its order. */
  lemma {:induction false} UnresolvedInOrder(events: seq<Event>, needs: Needs) returns (at: seq<nat>)
    ensures PickedInOrder(Unresolved(events, needs), events, at)
  {
    if events == [] {
      at := [];
    } else {
      var n := |events| - 1;
      at := UnresolvedInOrder(events[..n], needs);
      if StillNeeded(needs, events[n]) {
        at := at + [n];
      }
    }
  }

  /** What survives is exactly what is still needed, unchanged and one per device. */
  lemma UnresolvedKeeps(events: seq<Event>, needs: Needs)
    requires UniqueKeys(events)
    ensures var kept := Unresolved(events, needs);
      && |kept| <= |events| && UniqueKeys(kept)
      && (forall e :: e in kept <==> e in events && StillNeeded(needs, e))
      && (forall k :: HasKey(kept, k) ==> HasKey(events, k))
      && (forall k :: k in needs && HasKey(events, k) ==> HasKey(kept, k))
  {
    UnresolvedContents(events, needs);
    UnresolvedUnique(events, needs);
    var kept := Unresolved(events, needs);
    forall k | HasKey(kept, k) ensures HasKey(events, k) {
      var i :| 0 <= i < |kept| && kept[i].key == k;
      KeyOf(events, kept[i]);
    }
    forall k | k in needs && HasKey(events, k) ensures HasKey(kept, k) {
      var i :| 0 <= i < |events| && events[i].key == k;
      KeyOf(kept, events[i]);
    }
  }

  lemma KeyOf(events: seq<Event>, e: Event)
    requires e in events
    ensures HasKey(events, e.key)
  {
    var i :| 0 <= i < |events| && events[i] == e;
  }

  function NewEvent(op: Operator, key: DeviceKey, need: RecoveryType, now: Time): Event {
    Event(op.names.event(key, need), key, need, Untyped, WaitingApproval, "", 0, None, [], [], "", [], Some(now))
  }

  /** escalateEvent: a more severe need restarts the event under a new ID, once no Job is in flight. */
  function Escalate(op: Operator, e: Event, need: RecoveryType, now: Time): Event {
    if Severity(need) <= Severity(e.rtype) || e.state.InProgress? then e
    else SetState(e.(id := op.names.event(e.key, need), rtype := need, suggested := Untyped, approvalId := "",
                     imageGeneration := 0), WaitingApproval, now)
  }

  method FindEventForDevice(events: seq<Event>, key: DeviceKey) returns (i: int)
    ensures -1 <= i < |events|
    ensures i >= 0 ==> events[i].key == key
    ensures i < 0 ==> !HasKey(events, key)
  {
    for n := 0 to |events|
      invariant forall j :: 0 <= j < n ==> events[j].key != key
    {
      if events[n].key == key { return n; }
    }
    i := -1;
  }

  function Updated(op: Operator, e: Event, needs: Needs, seen: set<DeviceKey>, now: Time): Event {
    if e.key in needs && e.key in seen then Escalate(op, e, needs[e.key], now) else e
  }

  /**
   addNewEvents, whatever order the needs are visited in: known devices are escalated where they
   stand, unknown ones get one new event each behind them, as far as the cap allows.
   */
  ghost predicate Detected(op: Operator, kept: seq<Event>, needs: Needs, seen: set<DeviceKey>, post: seq<Event>,
                           now: Time) {
    && |kept| <= |post|
    && (forall i :: 0 <= i < |kept| ==> post[i] == Updated(op, kept[i], needs, seen, now))
    && (forall i :: |kept| <= i < |post| ==>
          && post[i].key in needs && post[i].key in seen && !HasKey(kept, post[i].key)
          && post[i] == NewEvent(op, post[i].key, needs[post[i].key], now))
    && UniqueKeys(post)
    && (|post| <= MAX_STATUS_EVENTS || |post| == |kept|)
    && (|post| < MAX_STATUS_EVENTS ==> forall k :: k in seen ==> HasKey(post, k))
  }

  method AddNewEvents(op: Operator, events: seq<Event>, needs: Needs, now: Time) returns (post: seq<Event>)
    requires UniqueKeys(events)
    ensures Detected(op, events, needs, needs.Keys, post, now)
  {
    post := events;
    var todo := needs.Keys;
    while todo != {}
      invariant todo <= needs.Keys
      invariant Detected(op, events, needs, needs.Keys - todo, post, now)
      decreases todo
    {
      var key :| key in todo;
      ghost var seen := needs.Keys - todo;
      todo := todo - {key};
      assert needs.Keys - todo == seen + {key};
      var i := FindEventForDevice(post, key);
      if i >= 0 {
        EscalationKeepsDetected(op, events, needs, seen, post, now, key, i);
        post := post[i := Escalate(op, post[i], needs[key], now)];
      } else {
        AdditionKeepsDetected(op, events, needs, seen, post, now, key);
        if |post| < MAX_STATUS_EVENTS {
          post := post + [NewEvent(op, key, needs[key], now)];
        }
      }
    }
  }

  lemma EscalationKeepsDetected(op: Operator, kept: seq<Event>, needs: Needs, seen: set<DeviceKey>, post: seq<Event>,
                                now: Time, key: DeviceKey, i: nat)
    requires Detected(op, kept, needs, seen, post, now) && key in needs && key !in seen
    requires i < |post| && post[i].key == key
    ensures Detected(op, kept, needs, seen + {key}, post[i := Escalate(op, post[i], needs[key], now)], now)
  {
    var next := post[i := Escalate(op, post[i], needs[key], now)];
    assert i < |kept|;
    forall j | 0 <= j < |next| ensures next[j].key == post[j].key {
    }
    forall j | 0 <= j < |kept| && j != i ensures kept[j].key != key {
      assert post[j].key == kept[j].key;
    }
    forall k | k in seen + {key} && |next| < MAX_STATUS_EVENTS ensures HasKey(next, k) {
      if k != key {
        var j :| 0 <= j < |post| && post[j].key == k;
        assert next[j].key == k;
      } else {
        assert next[i].key == k;
      }
    }
  }

  lemma AdditionKeepsDetected(op: Operator, kept: seq<Event>, needs: Needs, seen: set<DeviceKey>, post: seq<Event>,
                              now: Time, key: DeviceKey)
    requires Detected(op, kept, needs, seen, post, now) && key in needs && !HasKey(post, key)
    ensures |post| < MAX_STATUS_EVENTS ==> Detected(op, kept, needs, seen + {key}, post +
      [NewEvent(op, key, needs[key], now)], now)
    ensures |post| >= MAX_STATUS_EVENTS ==> Detected(op, kept, needs, seen + {key}, post, now)
  {
    forall j | 0 <= j < |kept| ensures kept[j].key != key {
      assert post[j].key == kept[j].key;
    }
    var next := post + [NewEvent(op, key, needs[key], now)];
    assert next[|post|].key == key;
    forall k | k in seen && |post| < MAX_STATUS_EVENTS ensures HasKey(next, k) {
      var j :| 0 <= j < |post| && post[j].key == k;
      assert next[j].key == k;
    }
  }

  // ---------------------------------------------------------------- what detection establishes

  /** The whole detection phase, from one status to the next. */
  ghost predicate DetectionPhase(op: Operator, spec: PlanSpec, slices: seq<Slice>, needs: Needs, pre: seq<Event>,
                                 post: seq<Event>, now: Time) {
    && IsNeeds(Demands(spec, slices), needs)
    && Detected(op, Unresolved(pre, needs), needs, needs.Keys, post, now)
  }

  ghost predicate InFlight(events: seq<Event>, key: DeviceKey) {
    exists e :: e in events && e.key == key && e.state.InProgress?
  }

  lemma DetectedOnlyNeeded(op: Operator, needs: Needs, pre: seq<Event>, post: seq<Event>, now: Time, k: DeviceKey)
    requires Detected(op, Unresolved(pre, needs), needs, needs.Keys, post, now) && HasKey(post, k)
    ensures k in needs || InFlight(pre, k)
  {
    var kept := Unresolved(pre, needs);
    UnresolvedContents(pre, needs);
    var i :| 0 <= i < |post| && post[i].key == k;
    if i < |kept| {
      assert kept[i] in kept;
    }
  }

  lemma InFlightIsKept(op: Operator, needs: Needs, pre: seq<Event>, post: seq<Event>, now: Time, k: DeviceKey)
    requires Detected(op, Unresolved(pre, needs), needs, needs.Keys, post, now) && InFlight(pre, k)
    ensures HasKey(post, k)
  {
    var kept := Unresolved(pre, needs);
    UnresolvedContents(pre, needs);
    var e :| e in pre && e.key == k && e.state.InProgress?;
    var i :| 0 <= i < |kept| && kept[i] == e;
    assert post[i].key == k;
  }

  /** One event per device; below the cap, exactly the tainted devices and those with a Job in flight. */
  lemma DetectionCoversDevices(op: Operator, spec: PlanSpec, slices: seq<Slice>, needs: Needs, pre: seq<Event>,
                               post: seq<Event>, now: Time)
    requires |pre| <= MAX_STATUS_EVENTS
    requires DetectionPhase(op, spec, slices, needs, pre, post, now)
    ensures UniqueKeys(post) && |post| <= MAX_STATUS_EVENTS
    ensures forall k :: HasKey(post, k) ==> k in needs || InFlight(pre, k)
    ensures |post| < MAX_STATUS_EVENTS ==> forall k :: HasKey(post, k) <==> k in needs || InFlight(pre, k)
  {
    UnresolvedContents(pre, needs);
    forall k | HasKey(post, k) ensures k in needs || InFlight(pre, k) {
      DetectedOnlyNeeded(op, needs, pre, post, now, k);
    }
    forall k | InFlight(pre, k) ensures HasKey(post, k) {
      InFlightIsKept(op, needs, pre, post, now, k);
    }
  }

  /** Whatever the slice and taint order, an event without a Job in flight is as severe as its taints demand. */
  lemma DetectionIsSevereEnough(op: Operator, spec: PlanSpec, slices: seq<Slice>, needs: Needs, pre: seq<Event>,
                                post: seq<Event>, now: Time, i: nat, t: RecoveryType)
    requires DetectionPhase(op, spec, slices, needs, pre, post, now)
    requires i < |post| && !post[i].state.InProgress? && (post[i].key, t) in Demands(spec, slices)
    ensures Severity(t) <= Severity(post[i].rtype)
  {
  }

  /** An event that outlives detection is no less severe, and changes only into a fresh, unapproved one. */
  lemma DetectionKeepsOrEscalates(op: Operator, spec: PlanSpec, slices: seq<Slice>, needs: Needs, pre: seq<Event>,
                                  post: seq<Event>, now: Time, i: nat, j: nat)
    requires UniqueKeys(pre) && DetectionPhase(op, spec, slices, needs, pre, post, now)
    requires i < |pre| && j < |post| && pre[i].key == post[j].key
    ensures post[j] == pre[i] || (post[j].state.WaitingApproval? && post[j].approvalId == ""
                                  && Severity(post[j].rtype) > Severity(pre[i].rtype))
  {
    var kept := Unresolved(pre, needs);
    UnresolvedKeeps(pre, needs);
    if j < |kept| {
      assert kept[j] in kept && kept[j].key == pre[i].key;
      var m :| 0 <= m < |pre| && pre[m] == kept[j];
      assert m == i;
    } else {
      assert false;
    }
  }

  lemma EscalateKeepsEventOk(op: Operator, e: Event, need: RecoveryType, now: Time)
    requires EventOk(op, e) && !need.Untyped?
    ensures EventOk(op, Escalate(op, e, need, now))
  {
  }

  lemma NewEventOk(op: Operator, key: DeviceKey, need: RecoveryType, now: Time)
    requires ValidBdf(key.bdf) && !need.Untyped?
    ensures EventOk(op, NewEvent(op, key, need, now))
  {
  }

  lemma DetectionKeepsEventOk(op: Operator, spec: PlanSpec, slices: seq<Slice>, needs: Needs, pre: seq<Event>,
                              post: seq<Event>, now: Time)
    requires UniqueKeys(pre) && DetectionPhase(op, spec, slices, needs, pre, post, now)
    requires forall e :: e in pre ==> EventOk(op, e)
    ensures forall e :: e in post ==> EventOk(op, e)
  {
    var kept := Unresolved(pre, needs);
    UnresolvedKeeps(pre, needs);
    forall i | 0 <= i < |post| ensures EventOk(op, post[i]) {
      if i < |kept| {
        assert kept[i] in kept;
        if kept[i].key in needs {
          DemandsAreWatched(spec, slices, (kept[i].key, needs[kept[i].key]));
          EscalateKeepsEventOk(op, kept[i], needs[kept[i].key], now);
        }
      } else {
        var k := post[i].key;
        DemandsAreWatched(spec, slices, (k, needs[k]));
        NewEventOk(op, k, needs[k], now);
      }
    }
  }
}
