/** Replacing xpumd pods that cannot reach a GPU of their node, and the guards that keep it from doing so too often. */
module XpumRefresh {
  import opened Prelude
  import opened SortedStrings
  import opened DeviceRecord
  import Naming
  import NodeDrain
  import Detection

  const RESTART_COOLDOWN: Time := 120
  const MAX_CONCURRENT_RESTARTS := 3
  const MAX_RESTART_ATTEMPTS := 3

  // ---------------------------------------------------------------- what the slices say

  datatype DeviceSeen = DeviceSeen(name: string, taints: seq<string>, driver: Option<string>)

  datatype SliceSeen = SliceSeen(driver: string, devices: seq<DeviceSeen>)

  datatype DeviceState = DeviceState(recovering: bool, monitorable: bool) {
    predicate Usable() {
      monitorable && !recovering
    }
  }

  type States = map<string, DeviceState>

  predicate Recoverable(taint: string) {
    !Detection.TaintNeed(Untyped, taint).Untyped?
  }

  predicate NeedsRecovery(d: DeviceSeen) {
    exists t :: t in d.taints && Recoverable(t)
  }

  predicate Monitorable(d: DeviceSeen) {
    d.driver.None? || Naming.LowerCase(d.driver.value) == "xe" || Naming.LowerCase(d.driver.value) == "i915"
  }

  /** Every GPU entry of the node's slices, in order. */
  function Published(slices: seq<SliceSeen>): seq<DeviceSeen> {
    if slices == [] then []
    else
      var before, last := Published(slices[..|slices| - 1]), slices[|slices| - 1];
      if last.driver == NodeDrain.GPU_DRIVER then before + last.devices else before
  }

  predicate Entry(devices: seq<DeviceSeen>, d: DeviceSeen, name: string) {
    d in devices && d.name == name
  }

  /** A GPU is in trouble when any of its entries says so, and monitorable when all of them say so. */
  ghost predicate IsState(devices: seq<DeviceSeen>, name: string, s: DeviceState) {
    && (s.recovering <==> exists d :: Entry(devices, d, name) && NeedsRecovery(d))
    && (s.monitorable <==> forall d :: Entry(devices, d, name) ==> Monitorable(d))
  }

  ghost predicate IsStates(devices: seq<DeviceSeen>, states: States) {
    && (forall name :: name in states <==> exists d :: Entry(devices, d, name))
    && (forall name :: name in states ==> IsState(devices, name, states[name]))
  }

  method DeviceNeedsRecovery(d: DeviceSeen) returns (needs: bool)
    ensures needs == NeedsRecovery(d)
  {
    for i := 0 to |d.taints|
      invariant forall t :: t in d.taints[..i] ==> !Recoverable(t)
    {
      if Recoverable(d.taints[i]) {
        return true;
      }
    }
    return false;
  }

  function Merged(states: States, d: DeviceSeen, recovering: bool): States {
    if d.name in states then
      var was := states[d.name];
      states[d.name := DeviceState(recovering || was.recovering, Monitorable(d) && was.monitorable)]
    else states[d.name := DeviceState(recovering, Monitorable(d))]
  }

  lemma MergeOne(devices: seq<DeviceSeen>, states: States, d: DeviceSeen)
    requires IsStates(devices, states)
    ensures IsStates(devices + [d], Merged(states, d, NeedsRecovery(d)))
  {
    var after := Merged(states, d, NeedsRecovery(d));
    forall x, name ensures Entry(devices + [d], x, name) <==> Entry(devices, x, name) || (x == d && d.name == name) {
    }
    forall name ensures name in after <==> exists x :: Entry(devices + [d], x, name) {
      if name == d.name {
        assert Entry(devices + [d], d, name);
      } else if name in states {
        var x :| Entry(devices, x, name);
        assert Entry(devices + [d], x, name);
      }
    }
    forall name | name in after ensures IsState(devices + [d], name, after[name]) {
      MergedState(devices, states, d, name);
    }
  }

  lemma MergedState(devices: seq<DeviceSeen>, states: States, d: DeviceSeen, name: string)
    requires IsStates(devices, states) && name in Merged(states, d, NeedsRecovery(d))
    ensures IsState(devices + [d], name, Merged(states, d, NeedsRecovery(d))[name])
  {
    var all, s := devices + [d], Merged(states, d, NeedsRecovery(d))[name];
    assert forall x :: Entry(all, x, name) <==> Entry(devices, x, name) || (x == d && d.name == name);
    if name in states {
      assert IsState(devices, name, states[name]);
    }
    if exists x :: Entry(devices, x, name) && NeedsRecovery(x) {
      var x :| Entry(devices, x, name) && NeedsRecovery(x);
      assert Entry(all, x, name);
    }
    if name == d.name {
      assert Entry(all, d, name);
    }
  }

  method DeviceStates(slices: seq<SliceSeen>) returns (states: States)
    ensures IsStates(Published(slices), states)
  {
    states := map[];
    for i := 0 to |slices|
      invariant IsStates(Published(slices[..i]), states)
    {
      assert slices[..i + 1][..i] == slices[..i];
      if slices[i].driver != NodeDrain.GPU_DRIVER { continue; }
      var devices := slices[i].devices;
      ghost var before := Published(slices[..i]);
      assert before + devices[..0] == before;
      for j := 0 to |devices|
        invariant IsStates(before + devices[..j], states)
      {
        var recovering := DeviceNeedsRecovery(devices[j]);
        MergeOne(before + devices[..j], states, devices[j]);
        states := Merged(states, devices[j], recovering);
        assert before + devices[..j] + [devices[j]] == before + devices[..j + 1];
      }
      assert devices[..|devices|] == devices;
    }
    assert slices[..|slices|] == slices;
  }

  /** The slices decide the states; in particular their order does not matter. */
  lemma StatesAreDetermined(a: seq<DeviceSeen>, b: seq<DeviceSeen>, s: States, t: States)
    requires IsStates(a, s) && IsStates(b, t) && forall d :: d in a <==> d in b
    ensures s == t
  {
    assert forall d, name :: Entry(a, d, name) <==> Entry(b, d, name);
    forall name ensures name in s <==> name in t {
      if name in s {
        var d :| Entry(a, d, name);
        assert Entry(b, d, name);
      }
      if name in t {
        var d :| Entry(b, d, name);
        assert Entry(a, d, name);
      }
    }
    forall name | name in s ensures s[name] == t[name] {
      assert IsState(a, name, s[name]) && IsState(b, name, t[name]);
      SameState(a, b, name, s[name], t[name]);
    }
  }

  lemma SameState(a: seq<DeviceSeen>, b: seq<DeviceSeen>, name: string, s: DeviceState, t: DeviceState)
    requires IsState(a, name, s) && IsState(b, name, t) && forall d :: Entry(a, d, name) <==> Entry(b, d, name)
    ensures s == t
  {
  }

  /** A slice of the GPU driver publishes this entry for the device. */
  ghost predicate PublishedFor(slices: seq<SliceSeen>, d: DeviceSeen, name: string) {
    d.name == name && exists s :: s in slices && s.driver == "gpu.intel.com" && d in s.devices
  }

  /** The entry has no taint a recovery would answer, and no driver xpumd cannot monitor. */
  ghost predicate Sound(d: DeviceSeen) {
    && "health-xpumd-gpu.wedged" !in d.taints
    && "health-Survivability" !in d.taints && "health-xpumd-gpu.survivability" !in d.taints
    && (d.driver.Some? ==> Naming.LowerCase(d.driver.value) in {"xe", "i915"})
  }

  lemma SoundIs(d: DeviceSeen)
    ensures Sound(d) <==> !NeedsRecovery(d) && Monitorable(d)
  {
    if "health-xpumd-gpu.wedged" in d.taints {
      assert Recoverable("health-xpumd-gpu.wedged");
    }
    if "health-Survivability" in d.taints {
      assert Recoverable("health-Survivability");
    }
    if "health-xpumd-gpu.survivability" in d.taints {
      assert Recoverable("health-xpumd-gpu.survivability");
    }
  }

  lemma {:induction false} PublishedContents(slices: seq<SliceSeen>, d: DeviceSeen)
    ensures d in Published(slices) <==> PublishedFor(slices, d, d.name)
  {
    if slices != [] {
      var n := |slices| - 1;
      PublishedContents(slices[..n], d);
      assert forall s :: s in slices <==> s in slices[..n] || s == slices[n];
    }
  }

  /** A GPU counts as usable exactly when it is published and every entry for it is sound. */
  lemma UsableExactlyWhen(slices: seq<SliceSeen>, states: States, name: string)
    requires IsStates(Published(slices), states)
    ensures name in states <==> exists d :: PublishedFor(slices, d, name)
    ensures Usable(states, name) <==> name in states && forall d :: PublishedFor(slices, d, name) ==> Sound(d)
    ensures Unusable(states, name) <==> exists d :: PublishedFor(slices, d, name) && !Sound(d)
  {
    var devices := Published(slices);
    forall d ensures Entry(devices, d, name) <==> PublishedFor(slices, d, name) {
      PublishedContents(slices, d);
    }
    forall d ensures Sound(d) <==> !NeedsRecovery(d) && Monitorable(d) {
      SoundIs(d);
    }
    if name in states {
      assert IsState(devices, name, states[name]);
    }
  }

  // ---------------------------------------------------------------- missing and rebound devices

  predicate Usable(states: States, name: string) {
    name in states && states[name].Usable()
  }

  predicate Unusable(states: States, name: string) {
    name in states && !states[name].Usable()
  }

  /** Usable on the node, and not given to the container. */
  function Missing(states: States, held: set<string>): set<string> {
    set n | n in states && Usable(states, n) && n !in held
  }

  method MissingDevices(states: States, held: set<string>) returns (missing: seq<string>)
    ensures Sorted(missing) && multiset(missing) == multiset(Missing(states, held))
  {
    missing := [];
    var todo := states.Keys;
    ghost var found := {};
    while todo != {}
      invariant todo <= states.Keys
      invariant found == set n | n in states.Keys - todo && Usable(states, n) && n !in held
      invariant multiset(missing) == multiset(found)
      decreases todo
    {
      var n :| n in todo;
      todo := todo - {n};
      if states[n].Usable() && n !in held {
        missing := missing + [n];
        found := found + {n};
      }
    }
    assert found == Missing(states, held);
    missing := Sort(missing);
  }

  /** The held devices once seen unusable, together with those unusable now. */
  function Tracked(states: States, held: set<string>, lost: set<string>): set<string> {
    lost + set n | n in held && Unusable(states, n)
  }

  /** The held devices that were unusable and are usable again. */
  function Rebound(states: States, held: set<string>, lost: set<string>): set<string> {
    set n | n in held && Usable(states, n) && n in lost
  }

  method FindRebinds(states: States, held: set<string>, start: set<string>)
    returns (lost: set<string>, rebound: seq<string>)
    ensures lost == Tracked(states, held, start)
    ensures Sorted(rebound) && multiset(rebound) == multiset(Rebound(states, held, start))
  {
    rebound, lost := [], start;
    var todo := held;
    ghost var found := {};
    while todo != {}
      invariant todo <= held
      invariant forall x :: x in lost <==> x in start || (x in held && x !in todo && Unusable(states, x))
      invariant forall x :: x in found <==> x in held && x !in todo && Usable(states, x) && x in start
      invariant multiset(rebound) == multiset(found)
      decreases todo
    {
      var n :| n in todo;
      todo := todo - {n};
      if n !in states { continue; }
      if !states[n].Usable() {
        lost := lost + {n};
      } else if n in lost {
        rebound := rebound + [n];
        found := found + {n};
      }
    }
    assert found == Rebound(states, held, start);
    rebound := Sort(rebound);
  }

  // ---------------------------------------------------------------- one node's guards

  datatype Guard = Guard(last: Option<Time>, attempts: nat, lost: set<string>)

  datatype Mode = OnRecoveredDevice | Always | Disabled

  datatype Outcome = Done | Deferred | Abandoned | Failed

  datatype Reason = NoReason | RecoveredDevice | Rebind

  /** The clock before and after the delete call, the pods found mid-restart, and whether the delete went through. */
  datatype Restart = Restart(now: Time, stamp: Time, restarting: Option<nat>, deleted: bool)

  function RestartOutcome(g: Guard, x: Restart): Outcome {
    if g.attempts >= MAX_RESTART_ATTEMPTS then Abandoned
    else if g.last.Some? && x.now - g.last.value < RESTART_COOLDOWN then Deferred
    else if x.restarting.None? then Failed
    else if x.restarting.value >= MAX_CONCURRENT_RESTARTS then Deferred
    else if !x.deleted then Failed
    else Done
  }

  function Spent(g: Guard, x: Restart, outcome: Outcome): Guard {
    if outcome == Done then g.(last := Some(x.stamp), attempts := g.attempts + 1) else g
  }

  function WhyRestart(states: States, held: set<string>, lost: set<string>, mode: Mode): Reason {
    if Missing(states, held) != {} then RecoveredDevice
    else if Rebound(states, held, lost) != {} && mode == Always then Rebind
    else NoReason
  }

  /** An adopted, running pod's turn. */
  function Refreshed(g: Guard, states: States, held: set<string>, mode: Mode, x: Restart): (Guard, Reason, Outcome) {
    var tracked, rebound := Tracked(states, held, g.lost), Rebound(states, held, g.lost);
    var reason, outcome := WhyRestart(states, held, g.lost, mode), RestartOutcome(g, x);
    if reason == NoReason then (g.(attempts := 0, lost := tracked - rebound), NoReason, Done)
    else
      var consumed := reason == Rebind && (outcome == Done || outcome == Abandoned);
      (Spent(g, x, outcome).(lost := if consumed then tracked - rebound else tracked), reason, outcome)
  }

  // ---------------------------------------------------------------- adoption

  datatype Grant = Grant(driver: string, device: string)

  datatype ClaimSeen = ClaimSeen(named: bool, fetched: bool, allocation: Option<seq<Grant>>)

  predicate Allocates(c: ClaimSeen, device: string) {
    c.named && c.allocation.Some? && Grant(NodeDrain.GPU_DRIVER, device) in c.allocation.value
  }

  method AllocatedDeviceNames(claims: seq<ClaimSeen>) returns (names: set<string>, ready: bool, ok: bool)
    ensures ok <==> forall c :: c in claims && c.named ==> c.fetched
    ensures ok ==> (ready <==> exists c :: c in claims && c.named && c.allocation.Some?)
    ensures ok ==> forall n :: n in names <==> exists c :: c in claims && Allocates(c, n)
  {
    names, ready, ok := {}, false, true;
    for i := 0 to |claims|
      invariant ok && forall c :: c in claims[..i] && c.named ==> c.fetched
      invariant ready <==> exists c :: c in claims[..i] && c.named && c.allocation.Some?
      invariant forall n :: n in names <==> exists c :: c in claims[..i] && Allocates(c, n)
    {
      var c := claims[i];
      assert forall x :: x in claims[..i + 1] <==> x in claims[..i] || x == c;
      if !c.named { continue; }
      if !c.fetched {
        assert c in claims;
        return names, ready, false;
      }
      if c.allocation.None? { continue; }
      ready := true;
      ghost var before := names;
      var grants := c.allocation.value;
      for j := 0 to |grants|
        invariant forall n :: n in names <==> n in before || Grant(NodeDrain.GPU_DRIVER, n) in grants[..j]
      {
        assert forall g :: g in grants[..j + 1] <==> g in grants[..j] || g == grants[j];
        if grants[j].driver == NodeDrain.GPU_DRIVER {
          names := names + {grants[j].device};
        }
      }
      assert grants[..|grants|] == grants;
      assert forall n :: Allocates(c, n) <==> Grant(NodeDrain.GPU_DRIVER, n) in grants;
    }
    assert claims[..|claims|] == claims;
  }

  /** What a freshly adopted pod is taken to hold. */
  function Adopted(states: States, granted: set<string>): set<string> {
    set n | n in granted && !Unusable(states, n)
  }

  /** A record of exactly these devices. */
  ghost predicate IsRecord(value: string, names: set<string>) {
    exists s: seq<string> :: multiset(s) == multiset(names) && value == Formatted(s)
  }

  method InitialRecord(states: States, granted: set<string>) returns (value: string)
    ensures IsRecord(value, Adopted(states, granted))
  {
    var held := [];
    var todo := granted;
    ghost var found := {};
    while todo != {}
      invariant todo <= granted
      invariant found == set n | n in granted - todo && !Unusable(states, n)
      invariant multiset(held) == multiset(found)
      decreases todo
    {
      var n :| n in todo;
      todo := todo - {n};
      if n !in states || states[n].Usable() {
        held := held + [n];
        found := found + {n};
      }
    }
    assert found == Adopted(states, granted);
    value := Formatted(held);
  }

  lemma RecordHolds(value: string, names: set<string>)
    requires IsRecord(value, names) && forall n :: n in names ==> Plain(n)
    ensures Parsed(value) == names
  {
    var s: seq<string> :| multiset(s) == multiset(names) && value == Formatted(s);
    forall n ensures n in s <==> n in names {
      assert n in multiset(s) <==> n in multiset(names);
    }
    RecordRoundTrips(s);
    assert Elems(s) == names;
  }

  /** Adoption decides what is missing later: whatever is usable then and was not taken to be held. */
  lemma MissingAfterAdoption(value: string, granted: set<string>, atAdoption: States, later: States)
    requires IsRecord(value, Adopted(atAdoption, granted)) && forall n :: n in granted ==> Plain(n)
    ensures forall n :: n in Missing(later, Parsed(value)) <==>
      Usable(later, n) && (n !in granted || Unusable(atAdoption, n))
    ensures (forall n :: Usable(atAdoption, n) ==> n in granted) ==> Missing(atAdoption, Parsed(value)) == {}
  {
    RecordHolds(value, Adopted(atAdoption, granted));
  }

  // ---------------------------------------------------------------- the controller

  datatype PodSeen = PodSeen(running: bool, record: Option<string>, claims: seq<ClaimSeen>, patched: bool,
    restart: Restart)

  /** A pod's turn: its guards, whether to come back, and whether the turn ended in an error. */
  datatype Turn = Turn(guard: Guard, requeue: bool, failed: bool)

  function PodTurn(g: Guard, pod: PodSeen, states: States, mode: Mode): Turn {
    if !pod.running then Turn(g, false, false)
    else if pod.record.None? then
      var ok := forall c :: c in pod.claims && c.named ==> c.fetched;
      var ready := exists c :: c in pod.claims && c.named && c.allocation.Some?;
      Turn(g, ok && !ready, !ok || (ready && !pod.patched))
    else
      var r := Refreshed(g, states, Parsed(pod.record.value), mode, pod.restart);
      Turn(r.0, r.1 != NoReason && r.2 == Deferred, r.1 != NoReason && r.2 == Failed)
  }

  /** The pods of a node in order, up to the first error. */
  function Sweep(g: Guard, pods: seq<PodSeen>, states: States, mode: Mode): Turn {
    if pods == [] then Turn(g, false, false)
    else
      var before := Sweep(g, pods[..|pods| - 1], states, mode);
      if before.failed then before
      else
        var t := PodTurn(before.guard, pods[|pods| - 1], states, mode);
        t.(requeue := before.requeue || t.requeue)
  }

  class Refresher {
    var lastRestart: map<string, Time>
    var restartAttempts: map<string, nat>
    var lostDevices: map<string, set<string>>

    constructor ()
      ensures forall node :: GuardOf(node) == Guard(None, 0, {})
    {
      lastRestart, restartAttempts, lostDevices := map[], map[], map[];
    }

    function GuardOf(node: string): Guard
      reads this
    {
      Guard(if node in lastRestart then Some(lastRestart[node]) else None,
            if node in restartAttempts then restartAttempts[node] else 0,
            if node in lostDevices then lostDevices[node] else {})
    }

    /** One node's guards became g and every other node's stayed. */
    twostate predicate Now(node: string, g: Guard)
      reads this
    {
      GuardOf(node) == g && forall other :: other != node ==> GuardOf(other) == old(GuardOf(other))
    }

    method ForgetNode(node: string)
      modifies this
      ensures Now(node, Guard(None, 0, {}))
    {
      lastRestart, restartAttempts, lostDevices := lastRestart - {node}, restartAttempts - {node}, lostDevices - {node};
    }

    method ResetAttempts(node: string)
      modifies this
      ensures Now(node, old(GuardOf(node)).(attempts := 0))
    {
      restartAttempts := restartAttempts - {node};
    }

    method TrackRebinds(node: string, held: set<string>, states: States) returns (rebound: seq<string>)
      modifies this
      ensures Now(node, old(GuardOf(node)).(lost := Tracked(states, held, old(GuardOf(node)).lost)))
      ensures Sorted(rebound) && multiset(rebound) == multiset(Rebound(states, held, old(GuardOf(node)).lost))
    {
      var lost;
      lost, rebound := FindRebinds(states, held, if node in lostDevices then lostDevices[node] else {});
      if lost != {} {
        lostDevices := lostDevices[node := lost];
      }
    }

    method ClearRebinds(node: string, names: seq<string>)
      modifies this
      ensures Now(node, old(GuardOf(node)).(lost := old(GuardOf(node)).lost - Elems(names)))
    {
      if node !in lostDevices { return; }
      var lost := lostDevices[node];
      for i := 0 to |names|
        invariant lost == old(lostDevices[node]) - Elems(names[..i])
      {
        assert forall x :: x in names[..i + 1] <==> x in names[..i] || x == names[i];
        lost := lost - {names[i]};
      }
      assert names[..|names|] == names;
      lostDevices := if lost == {} then lostDevices - {node} else lostDevices[node := lost];
    }

    method RestartPod(node: string, x: Restart) returns (outcome: Outcome)
      modifies this
      ensures outcome == RestartOutcome(old(GuardOf(node)), x)
      ensures Now(node, Spent(old(GuardOf(node)), x, outcome))
    {
      var attempts := if node in restartAttempts then restartAttempts[node] else 0;
      if attempts >= MAX_RESTART_ATTEMPTS { return Abandoned; }
      if node in lastRestart && x.now - lastRestart[node] < RESTART_COOLDOWN { return Deferred; }
      if x.restarting.None? { return Failed; }
      if x.restarting.value >= MAX_CONCURRENT_RESTARTS { return Deferred; }
      if !x.deleted { return Failed; }
      lastRestart := lastRestart[node := x.stamp];
      restartAttempts := restartAttempts[node := attempts + 1];
      return Done;
    }

    /** written: the record an adoption left on the pod. */
    method RefreshPod(node: string, pod: PodSeen, states: States, mode: Mode)
      returns (requeue: bool, failed: bool, written: Option<string>)
      modifies this
      ensures var t := PodTurn(old(GuardOf(node)), pod, states, mode);
        && Now(node, t.guard) && requeue == t.requeue && failed == t.failed
        && (written.Some? <==> pod.running && pod.record.None? && !requeue && !failed)
      ensures written.Some? ==> exists granted ::
        IsRecord(written.value, Adopted(states, granted)) && forall n :: n in granted <==>
          exists c :: c in pod.claims && Allocates(c, n)
    {
      if !pod.running { return false, false, None; }
      if pod.record.None? {
        var granted, ready, ok := AllocatedDeviceNames(pod.claims);
        if !ok { return false, true, None; }
        if !ready { return true, false, None; }
        var value := InitialRecord(states, granted);
        if !pod.patched { return false, true, None; }
        return false, false, Some(value);
      }
      var held := ParseDeviceRecord(pod.record.value);
      requeue, failed := RefreshHeld(node, held, states, mode, pod.restart);
      written := None;
    }

    /** Nothing to restart for: rebinds nobody acts on are dropped and the budget is full again. */
    method Settle(node: string, rebound: seq<string>)
      modifies this
      ensures var g := old(GuardOf(node)); Now(node, g.(attempts := 0, lost := g.lost - Elems(rebound)))
    {
      if |rebound| > 0 {
        ClearRebinds(node, rebound);
      }
      ResetAttempts(node);
    }

    /** consume: the restart is for the rebinds, which are dealt with unless it is put off. */
    method RestartFor(node: string, rebound: seq<string>, consume: bool, x: Restart) returns (outcome: Outcome)
      modifies this
      ensures outcome == RestartOutcome(old(GuardOf(node)), x)
      ensures var g := Spent(old(GuardOf(node)), x, outcome);
        var dealt := consume && (outcome == Done || outcome == Abandoned);
        Now(node, if dealt then g.(lost := g.lost - Elems(rebound)) else g)
    {
      outcome := RestartPod(node, x);
      if consume && outcome != Failed && outcome != Deferred {
        ClearRebinds(node, rebound);
      }
    }

    /** Whether a usable device is missing from the record, and which held ones re-enumerated. */
    method Compare(node: string, held: set<string>, states: States) returns (missing: bool, rebound: seq<string>)
      modifies this
      ensures missing == (Missing(states, held) != {})
      ensures var g := old(GuardOf(node));
        && Elems(rebound) == Rebound(states, held, g.lost) && (rebound == [] <==> Elems(rebound) == {})
        && Now(node, g.(lost := Tracked(states, held, g.lost)))
    {
      ghost var lost := GuardOf(node).lost;
      var names := MissingDevices(states, held);
      rebound := TrackRebinds(node, held, states);
      EmptyWhen(names, Missing(states, held));
      EmptyWhen(rebound, Rebound(states, held, lost));
      missing := |names| > 0;
    }

    method RefreshHeld(node: string, held: set<string>, states: States, mode: Mode, x: Restart)
      returns (requeue: bool, failed: bool)
      modifies this
      ensures var r := Refreshed(old(GuardOf(node)), states, held, mode, x);
        && Now(node, r.0) && requeue == (r.1 != NoReason && r.2 == Deferred)
        && failed == (r.1 != NoReason && r.2 == Failed)
    {
      var missing, rebound := Compare(node, held, states);
      if !missing && (|rebound| == 0 || mode != Always) {
        Settle(node, rebound);
        return false, false;
      }
      var outcome := RestartFor(node, rebound, !missing, x);
      return outcome == Deferred, outcome == Failed;
    }

    /** None for the mode, the slices or the pods is a failed list call. */
    method Reconcile(node: string, mode: Option<Mode>, slices: Option<seq<SliceSeen>>, pods: Option<seq<PodSeen>>)
      returns (requeue: bool, failed: bool, ghost states: States)
      modifies this
      ensures mode.None? || (mode.value != Disabled && slices.None?) ==> failed && Now(node, old(GuardOf(node)))
      ensures mode == Some(Disabled) ==> !failed && Now(node, Guard(None, 0, {}))
      ensures mode.Some? && mode.value != Disabled && slices.Some? ==> IsStates(Published(slices.value), states)
      ensures mode.Some? && mode.value != Disabled && slices.Some? && states == map[] ==>
        !failed && !requeue && Now(node, Guard(None, 0, {}))
      ensures mode.Some? && mode.value != Disabled && slices.Some? && states != map[] && pods.None? ==>
        failed && Now(node, old(GuardOf(node)))
      ensures mode.Some? && mode.value != Disabled && slices.Some? && states != map[] && pods.Some? ==>
        var t := Sweep(old(GuardOf(node)), pods.value, states, mode.value);
        Now(node, t.guard) && failed == t.failed && (!failed ==> requeue == t.requeue)
    {
      requeue, failed, states := false, true, map[];
      if mode.None? { return; }
      if mode.value == Disabled {
        ForgetNode(node);
        failed := false;
        return;
      }
      if slices.None? { return; }
      var seen := DeviceStates(slices.value);
      states := seen;
      if seen == map[] {
        ForgetNode(node);
        failed := false;
        return;
      }
      if pods.None? { return; }
      failed := false;
      var list := pods.value;
      for i := 0 to |list|
        invariant Now(node, Sweep(old(GuardOf(node)), list[..i], states, mode.value).guard)
        invariant !failed && !Sweep(old(GuardOf(node)), list[..i], states, mode.value).failed
        invariant requeue == Sweep(old(GuardOf(node)), list[..i], states, mode.value).requeue
      {
        assert list[..i + 1][..i] == list[..i];
        var again, broken, _ := RefreshPod(node, list[i], seen, mode.value);
        failed := broken;
        if failed {
          FailureEnds(old(GuardOf(node)), list, states, mode.value, i + 1);
          return;
        }
        requeue := requeue || again;
      }
      assert list[..|list|] == list;
    }
  }

  lemma EmptyWhen(s: seq<string>, names: set<string>)
    requires multiset(s) == multiset(names)
    ensures Elems(s) == names && (s == [] <==> names == {})
  {
    forall n ensures n in s <==> n in names {
      assert n in multiset(s) <==> n in multiset(names);
    }
    if s != [] {
      assert s[0] in names;
    }
  }

  lemma {:induction false} FailureEnds(g: Guard, pods: seq<PodSeen>, states: States, mode: Mode, k: nat)
    requires k <= |pods| && Sweep(g, pods[..k], states, mode).failed
    ensures Sweep(g, pods, states, mode) == Sweep(g, pods[..k], states, mode)
    decreases |pods| - k
  {
    if k < |pods| {
      assert pods[..k + 1][..k] == pods[..k];
      FailureEnds(g, pods, states, mode, k + 1);
    } else {
      assert pods[..k] == pods;
    }
  }
}
