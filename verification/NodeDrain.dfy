/**
 What has to be gone before a GPU may be reset: the pods on its node, and the claims that hold
 the device. Everything the API server answers is an argument.
 */
module NodeDrain {
  import opened Prelude
  import opened SortedStrings

  const GPU_DRIVER := "gpu.intel.com"

  datatype Phase = Pending | Running | PodSucceeded | PodFailed | Unknown

  datatype Pod = Pod(ns: string, name: string, uid: string, mirror: bool, ownerKinds: seq<string>,
                     phase: Phase, terminating: bool)

  /** The operator's own namespace and spec.drain.namespacesToSkip. */
  datatype Scope = Scope(operatorNs: string, skip: seq<string>)

  predicate NeverEvicted(sc: Scope, pod: Pod) {
    pod.ns == sc.operatorNs || pod.ns in sc.skip || pod.mirror || "DaemonSet" in pod.ownerKinds
  }

  predicate Finished(pod: Pod) {
    pod.phase.PodSucceeded? || pod.phase.PodFailed?
  }

  datatype DrainAction = Ignore | Evict | Await

  function Classify(sc: Scope, pod: Pod): DrainAction {
    if NeverEvicted(sc, pod) || Finished(pod) then Ignore
    else if pod.terminating then Await else Evict
  }

  function Select(sc: Scope, pods: seq<Pod>, action: DrainAction): seq<Pod> {
    if pods == [] then []
    else
      var rest := Select(sc, pods[..|pods| - 1], action);
      if Classify(sc, pods[|pods| - 1]) == action then rest + [pods[|pods| - 1]] else rest
  }

  method PodsBlockingDrain(sc: Scope, pods: seq<Pod>) returns (toEvict: seq<Pod>, toAwait: seq<Pod>)
    ensures toEvict == Select(sc, pods, Evict) && toAwait == Select(sc, pods, Await)
  {
    toEvict, toAwait := [], [];
    for i := 0 to |pods|
      invariant toEvict == Select(sc, pods[..i], Evict) && toAwait == Select(sc, pods[..i], Await)
    {
      assert pods[..i + 1][..i] == pods[..i];
      match Classify(sc, pods[i]) {
        case Evict => toEvict := toEvict + [pods[i]];
        case Await => toAwait := toAwait + [pods[i]];
        case Ignore =>
      }
    }
    assert pods[..|pods|] == pods;
  }

  /** Nothing on the node stands in the way of a reset. */
  ghost predicate NodeClear(sc: Scope, pods: seq<Pod>) {
    forall p :: p in pods ==> NeverEvicted(sc, p) || Finished(p)
  }

  lemma {:induction false} ClearMeansNothingBlocks(sc: Scope, pods: seq<Pod>)
    ensures Select(sc, pods, Evict) == [] && Select(sc, pods, Await) == [] <==> NodeClear(sc, pods)
  {
    if pods != [] {
      var n := |pods| - 1;
      ClearMeansNothingBlocks(sc, pods[..n]);
      assert forall p :: p in pods <==> p in pods[..n] || p == pods[n];
    }
  }

  /** A pod is evicted or awaited exactly when the drain may not leave it; awaited exactly when already terminating. */
  lemma {:induction false} BlockersAreSplit(sc: Scope, pods: seq<Pod>, p: Pod)
    ensures p in Select(sc, pods, Evict) <==> p in pods && !NeverEvicted(sc, p) && !Finished(p) && !p.terminating
    ensures p in Select(sc, pods, Await) <==> p in pods && !NeverEvicted(sc, p) && !Finished(p) && p.terminating
  {
    if pods != [] {
      var n := |pods| - 1;
      BlockersAreSplit(sc, pods[..n], p);
      assert p in pods <==> p in pods[..n] || p == pods[n];
    }
  }

  // ---------------------------------------------------------------- claims

  datatype PoolDevice = PoolDevice(pool: string, device: string)

  datatype Device = Device(name: string, pciId: string, bdf: string, taints: seq<string>)

  datatype Slice = Slice(driver: string, node: Option<string>, pool: string, devices: seq<Device>)

  datatype Allocation = Allocation(driver: string, on: PoolDevice, admin: bool)

  datatype Consumer = Consumer(apiGroup: string, resource: string, name: string, uid: string)

  datatype Claim = Claim(ns: string, name: string, allocation: Option<seq<Allocation>>, reservedFor: seq<Consumer>)

  datatype PodRead = Found(pod: Pod) | NotFound | ReadFailed

  function DevicesAt(slices: seq<Slice>, node: string, bdf: string): set<PoolDevice> {
    set i, j | 0 <= i < |slices| && 0 <= j < |slices[i].devices|
      && slices[i].node == Some(node) && slices[i].devices[j].bdf == bdf
      :: PoolDevice(slices[i].pool, slices[i].devices[j].name)
  }

  method DevicesForBdf(slices: seq<Slice>, node: string, bdf: string) returns (devices: set<PoolDevice>)
    ensures devices == DevicesAt(slices, node, bdf)
  {
    devices := {};
    for i := 0 to |slices|
      invariant devices == DevicesAt(slices[..i], node, bdf)
    {
      assert slices[..i + 1] == slices[..i] + [slices[i]];
      var slice := slices[i];
      ghost var before := devices;
      if slice.node == Some(node) {
        for j := 0 to |slice.devices|
          invariant devices == before + set k | 0 <= k < j && slice.devices[k].bdf == bdf
                                        :: PoolDevice(slice.pool, slice.devices[k].name)
        {
          if slice.devices[j].bdf == bdf {
            devices := devices + {PoolDevice(slice.pool, slice.devices[j].name)};
          }
        }
      }
      SliceAddsDevices(slices, i, node, bdf);
    }
    assert slices[..|slices|] == slices;
  }

  lemma SliceAddsDevices(slices: seq<Slice>, i: nat, node: string, bdf: string)
    requires i < |slices|
    ensures DevicesAt(slices[..i + 1], node, bdf) == DevicesAt(slices[..i], node, bdf) +
      if slices[i].node == Some(node)
      then set k | 0 <= k < |slices[i].devices| && slices[i].devices[k].bdf == bdf
             :: PoolDevice(slices[i].pool, slices[i].devices[k].name)
      else {}
  {
    var longer, shorter := slices[..i + 1], slices[..i];
    forall d | d in DevicesAt(shorter, node, bdf) ensures d in DevicesAt(longer, node, bdf) {
      var a, j :| 0 <= a < |shorter| && 0 <= j < |shorter[a].devices| && shorter[a].node == Some(node)
        && shorter[a].devices[j].bdf == bdf && d == PoolDevice(shorter[a].pool, shorter[a].devices[j].name);
      assert longer[a] == shorter[a];
    }
    forall d | d in DevicesAt(longer, node, bdf) && d !in DevicesAt(shorter, node, bdf)
      ensures slices[i].node == Some(node)
        && exists k :: 0 <= k < |slices[i].devices| && slices[i].devices[k].bdf == bdf
             && d == PoolDevice(slices[i].pool, slices[i].devices[k].name)
    {
      var a, j :| 0 <= a < |longer| && 0 <= j < |longer[a].devices| && longer[a].node == Some(node)
        && longer[a].devices[j].bdf == bdf && d == PoolDevice(longer[a].pool, longer[a].devices[j].name);
      if a < i {
        assert false;
      }
    }
    if slices[i].node == Some(node) {
      forall k | 0 <= k < |slices[i].devices| && slices[i].devices[k].bdf == bdf
        ensures PoolDevice(slices[i].pool, slices[i].devices[k].name) in DevicesAt(longer, node, bdf)
      {
        assert longer[i] == slices[i];
      }
    }
  }

  /** The claim holds one of the devices for exclusive use. */
  predicate HoldsDevice(claim: Claim, devices: set<PoolDevice>) {
    && claim.allocation.Some?
    && exists r :: r in claim.allocation.value && r.driver == GPU_DRIVER && r.on in devices && !r.admin
  }

  /** The API server as the drain asks it about one pod of one namespace. */
  type PodReader = (string, string) -> PodRead

  /** The reservation belongs to a live pod, the same one, that the drain leaves in place. */
  predicate Undrainable(sc: Scope, reader: PodReader, ns: string, c: Consumer) {
    && c.apiGroup == "" && c.resource == "pods"
    && reader(ns, c.name).Found?
    && reader(ns, c.name).pod.uid == c.uid
    && NeverEvicted(sc, reader(ns, c.name).pod)
  }

  predicate Unreadable(reader: PodReader, ns: string, c: Consumer) {
    c.apiGroup == "" && c.resource == "pods" && reader(ns, c.name).ReadFailed?
  }

  datatype Hold = Ignorable | Blocking | NoAnswer

  /** The first reservation that is not undrainable decides. */
  function HoldOf(sc: Scope, reader: PodReader, ns: string, cs: seq<Consumer>): Hold {
    if cs == [] then Ignorable
    else if Unreadable(reader, ns, cs[0]) then NoAnswer
    else if !Undrainable(sc, reader, ns, cs[0]) then Blocking
    else HoldOf(sc, reader, ns, cs[1..])
  }

  method ClaimHeldOnlyByUndrainablePods(sc: Scope, reader: PodReader, claim: Claim)
    returns (hold: Hold)
    ensures hold == if claim.reservedFor == [] then Blocking else HoldOf(sc, reader, claim.ns, claim.reservedFor)
  {
    var holder := false;
    for i := 0 to |claim.reservedFor|
      invariant holder <==> i > 0
      invariant HoldOf(sc, reader, claim.ns, claim.reservedFor)
             == HoldOf(sc, reader, claim.ns, claim.reservedFor[i..])
    {
      var c := claim.reservedFor[i];
      if c.apiGroup != "" || c.resource != "pods" { return Blocking; }
      var read := reader(claim.ns, c.name);
      if read.NotFound? { return Blocking; }
      if read.ReadFailed? { return NoAnswer; }
      if read.pod.uid != c.uid { return Blocking; }
      if !NeverEvicted(sc, read.pod) { return Blocking; }
      holder := true;
    }
    hold := if holder then Ignorable else Blocking;
  }

  lemma {:induction false} HoldIgnorable(sc: Scope, reader: PodReader, ns: string, cs: seq<Consumer>)
    ensures HoldOf(sc, reader, ns, cs) == Ignorable <==> forall c :: c in cs ==> Undrainable(sc, reader, ns, c)
  {
    if cs != [] {
      HoldIgnorable(sc, reader, ns, cs[1..]);
      assert cs == [cs[0]] + cs[1..];
      assert Unreadable(reader, ns, cs[0]) ==> !Undrainable(sc, reader, ns, cs[0]);
    }
  }

  predicate Relevant(claim: Claim, devices: set<PoolDevice>) {
    claim.reservedFor != [] && HoldsDevice(claim, devices)
  }

  /** The claims a reset still waits for, or no answer when a reservation could not be read. */
  function ClaimsHolding(sc: Scope, reader: PodReader, claims: seq<Claim>,
                         devices: set<PoolDevice>): Option<seq<string>> {
    if claims == [] then Some([])
    else
      var c := claims[|claims| - 1];
      var before := ClaimsHolding(sc, reader, claims[..|claims| - 1], devices);
      if before.None? || !Relevant(c, devices) then before
      else match HoldOf(sc, reader, c.ns, c.reservedFor)
        case NoAnswer => None
        case Ignorable => before
        case Blocking => Some(before.value + [c.ns + "/" + c.name])
  }

  /** What one pass reads on behalf of a draining event; None is a list the API server refused. */
  datatype View = View(taintSet: bool, pods: Option<seq<Pod>>, slices: Option<seq<Slice>>,
                       claims: Option<seq<Claim>>, reader: PodReader)

  method ClaimsHoldingDevice(sc: Scope, view: View, node: string, bdf: string) returns (holding: Option<seq<string>>)
    ensures holding == HoldingNames(sc, view, node, bdf)
  {
    if view.slices.None? { return None; }
    var devices := DevicesForBdf(view.slices.value, node, bdf);
    if devices == {} { return Some([]); }
    if view.claims.None? { return None; }
    var claims := view.claims.value;
    var names := [];
    for i := 0 to |claims|
      invariant ClaimsHolding(sc, view.reader, claims[..i], devices) == Some(names)
    {
      assert claims[..i + 1][..i] == claims[..i];
      var claim := claims[i];
      if claim.allocation.None? || |claim.reservedFor| == 0 { continue; }
      if !HoldsDevice(claim, devices) { continue; }
      var hold := ClaimHeldOnlyByUndrainablePods(sc, view.reader, claim);
      if hold == NoAnswer {
        NoAnswerStays(sc, view.reader, claims, devices, i + 1);
        return None;
      }
      if hold == Ignorable { continue; }
      names := names + [claim.ns + "/" + claim.name];
    }
    assert claims[..|claims|] == claims;
    holding := Some(Sort(names));
  }

  function HoldingNames(sc: Scope, view: View, node: string, bdf: string): Option<seq<string>> {
    if view.slices.None? then None
    else
      var devices := DevicesAt(view.slices.value, node, bdf);
      if devices == {} then Some([])
      else if view.claims.None? then None
      else match ClaimsHolding(sc, view.reader, view.claims.value, devices)
        case None => None
        case Some(names) => Some(Sort(names))
  }

  lemma {:induction false} NoAnswerStays(sc: Scope, reader: PodReader, claims: seq<Claim>, devices: set<PoolDevice>,
                                         n: nat)
    requires n <= |claims| && ClaimsHolding(sc, reader, claims[..n], devices).None?
    ensures ClaimsHolding(sc, reader, claims, devices).None?
  {
    if n < |claims| {
      assert claims[..|claims| - 1][..n] == claims[..n];
      NoAnswerStays(sc, reader, claims[..|claims| - 1], devices, n);
    } else {
      assert claims[..n] == claims;
    }
  }

  /** Every reserved claim with a non-admin hold on the GPU belongs to pods the drain leaves in place. */
  ghost predicate GpuReleased(sc: Scope, view: View, node: string, bdf: string) {
    && view.slices.Some?
    && var devices := DevicesAt(view.slices.value, node, bdf);
       devices == {} || (view.claims.Some? && forall c :: c in view.claims.value && Relevant(c, devices) ==>
         forall r :: r in c.reservedFor ==> Undrainable(sc, view.reader, c.ns, r))
  }

  lemma {:induction false} NoClaimsLeft(sc: Scope, reader: PodReader, claims: seq<Claim>, devices: set<PoolDevice>)
    ensures ClaimsHolding(sc, reader, claims, devices) == Some([]) <==>
      forall c :: c in claims && Relevant(c, devices) ==> forall r :: r in c.reservedFor ==>
        Undrainable(sc, reader, c.ns, r)
  {
    if claims != [] {
      var n := |claims| - 1;
      NoClaimsLeft(sc, reader, claims[..n], devices);
      HoldIgnorable(sc, reader, claims[n].ns, claims[n].reservedFor);
      assert forall c :: c in claims <==> c in claims[..n] || c == claims[n];
    }
  }

  datatype DrainResult = DrainFailed | Waiting(pods: seq<string>, claims: seq<string>) | Ready

  function PodNames(pods: seq<Pod>): seq<string> {
    seq(|pods|, i requires 0 <= i < |pods| => pods[i].ns + "/" + pods[i].name)
  }

  /** One pass of the drain, eviction requests aside. */
  function DrainCheck(sc: Scope, view: View, node: string, bdf: string): DrainResult {
    if !view.taintSet || view.pods.None? then DrainFailed
    else
      var blocking := PodNames(Select(sc, view.pods.value, Evict) + Select(sc, view.pods.value, Await));
      match HoldingNames(sc, view, node, bdf)
      case None => DrainFailed
      case Some(claims) => if blocking == [] && claims == [] then Ready else Waiting(Sort(blocking), claims)
  }

  /** asked: the pods an eviction was requested for. A refused request changes nothing: the pod still blocks. */
  method DrainNodeForEvent(sc: Scope, view: View, node: string, bdf: string)
    returns (result: DrainResult, asked: seq<Pod>)
    ensures result == DrainCheck(sc, view, node, bdf)
    ensures asked == if view.taintSet && view.pods.Some? then Select(sc, view.pods.value, Evict) else []
  {
    if !view.taintSet || view.pods.None? { return DrainFailed, []; }
    var toEvict, toAwait := PodsBlockingDrain(sc, view.pods.value);
    asked := toEvict;
    var blocking := PodNames(toEvict + toAwait);
    var claims := ClaimsHoldingDevice(sc, view, node, bdf);
    if claims.None? { return DrainFailed, asked; }
    if |blocking| == 0 && |claims.value| == 0 { return Ready, asked; }
    result := Waiting(Sort(blocking), claims.value);
  }

  /** A reset may proceed exactly when the taint is set, the node is clear and the GPU released. */
  lemma ReadyExactlyWhenSafe(sc: Scope, view: View, node: string, bdf: string)
    ensures DrainCheck(sc, view, node, bdf) == Ready
       <==> view.taintSet && view.pods.Some? && NodeClear(sc, view.pods.value) && GpuReleased(sc, view, node, bdf)
  {
    if view.pods.Some? {
      ClearMeansNothingBlocks(sc, view.pods.value);
    }
    if view.slices.Some? && view.claims.Some? {
      NoClaimsLeft(sc, view.reader, view.claims.value, DevicesAt(view.slices.value, node, bdf));
    }
  }
}
