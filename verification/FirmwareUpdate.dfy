/** The firmware rollout: a state machine over node lists, node taints and update Jobs. */
module FirmwareUpdate {
  import opened Prelude
  import opened NodeTaints

  /** status.state; `Unknown` is any text outside the machine's own vocabulary. */
  datatype State =
    NotStarted | Draining | Updating | CanaryDone | Cleanup | ErrorCleanup | Completed | Error | Unknown(text: string)

  datatype Status = Status(state: State, all: seq<string>, pending: seq<string>, draining: seq<string>,
                           updating: seq<string>, completed: seq<string>, failed: seq<string>)

  /** canary: spec.updateMethod is "canary" rather than "direct". */
  datatype Spec = Spec(canary: bool, hold: bool)

  datatype Condition = Condition(kind: string, isTrue: bool)

  datatype NodeSeen = NodeSeen(name: string, deleting: bool, conditions: seq<Condition>)

  /** A listed Job: its node label, the two counters, and whether its Pod's log holds the completion tag. */
  datatype JobSeen = JobSeen(node: Option<string>, succeeded: nat, failed: nat, tagged: bool)

  datatype Creation = Made | AlreadyThere | Refused

  /** What the cluster answers over one pass; None is a failed list call. */
  datatype Answers = Answers(
    deleted: bool, verified: bool, nodes: Option<seq<NodeSeen>>,
    tainted: string -> bool, pods: string -> Option<nat>, evicted: string -> bool,
    creation: string -> Creation, jobs: Option<seq<JobSeen>>,
    untainted: string -> bool, written: bool)

  function UpdateTaint(key: string): Taint {
    Taint(key, "", "NoSchedule", None)
  }

  // ---------------------------------------------------------------- choosing nodes

  predicate Suitable(n: NodeSeen) {
    !n.deleting && forall c :: c in n.conditions && c.kind == "Ready" ==> c.isTrue
  }

  function Candidates(nodes: seq<NodeSeen>): seq<string> {
    if nodes == [] then []
    else
      var before, last := Candidates(nodes[..|nodes| - 1]), nodes[|nodes| - 1];
      if Suitable(last) then before + [last.name] else before
  }

  function Selected(nodes: Option<seq<NodeSeen>>): seq<string> {
    if nodes.None? then [] else Candidates(nodes.value)
  }

  method SelectNodes(nodes: Option<seq<NodeSeen>>) returns (selected: seq<string>)
    ensures selected == Selected(nodes)
  {
    selected := [];
    if nodes.None? { return; }
    var listed := nodes.value;
    for i := 0 to |listed|
      invariant selected == Candidates(listed[..i])
    {
      assert listed[..i + 1][..i] == listed[..i];
      if listed[i].deleting { continue; }
      var notReady := false;
      for k := 0 to |listed[i].conditions|
        invariant notReady <==> exists c :: c in listed[i].conditions[..k] && c.kind == "Ready" && !c.isTrue
      {
        var c := listed[i].conditions[k];
        assert forall x :: x in listed[i].conditions[..k + 1] <==> x in listed[i].conditions[..k] || x == c;
        notReady := notReady || (c.kind == "Ready" && !c.isTrue);
      }
      assert listed[i].conditions[..|listed[i].conditions|] == listed[i].conditions;
      if notReady { continue; }
      selected := selected + [listed[i].name];
    }
    assert listed[..|listed|] == listed;
  }

  // ---------------------------------------------------------------- tainting and draining

  /** How many of the nodes come before the first one that fails. */
  function Reached(nodes: seq<string>, ok: string -> bool): (k: nat)
    ensures k <= |nodes| && (forall i :: 0 <= i < k ==> ok(nodes[i])) && (k < |nodes| ==> !ok(nodes[k]))
  {
    if nodes == [] then 0
    else
      var k := Reached(nodes[..|nodes| - 1], ok);
      if k == |nodes| - 1 && ok(nodes[k]) then k + 1 else k
  }

  /** Scanning further than the first failure changes nothing. */
  lemma {:induction false} ReachedAt(nodes: seq<string>, ok: string -> bool, k: nat)
    requires k <= |nodes| && (forall i :: 0 <= i < k ==> ok(nodes[i])) && (k < |nodes| ==> !ok(nodes[k]))
    ensures Reached(nodes, ok) == k
  {
  }

  /** The nodes GPU pods are still on. */
  function Busy(nodes: seq<string>, pods: string -> Option<nat>): seq<string> {
    if nodes == [] then []
    else
      var before, last := Busy(nodes[..|nodes| - 1], pods), nodes[|nodes| - 1];
      if pods(last).Some? && pods(last).value > 0 then before + [last] else before
  }

  /** The pods of a node could be listed, and evicted if there were any. */
  predicate Emptied(a: Answers, n: string) {
    a.pods(n).Some? && (a.pods(n).value == 0 || a.evicted(n))
  }

  predicate DrainStarted(a: Answers, nodes: seq<string>) {
    Reached(nodes, a.tainted) == |nodes| && forall n :: n in nodes ==> Emptied(a, n)
  }

  // ---------------------------------------------------------------- Jobs

  datatype Verdict = Done | Broken | Running

  function Judge(j: JobSeen): Verdict {
    if j.succeeded > 0 then (if j.tagged then Done else Broken)
    else if j.failed > 0 then Broken
    else Running
  }

  /** The nodes, not completed before, whose Job got the given verdict. */
  function Judged(jobs: seq<JobSeen>, completed: seq<string>, v: Verdict): seq<string> {
    if jobs == [] then []
    else
      var before, last := Judged(jobs[..|jobs| - 1], completed, v), jobs[|jobs| - 1];
      if last.node.Some? && last.node.value !in completed && Judge(last) == v then before + [last.node.value]
        else before
  }

  /** The nodes not completed yet. */
  function Undone(nodes: seq<string>, completed: seq<string>): seq<string> {
    if nodes == [] then []
    else
      var before, last := Undone(nodes[..|nodes| - 1], completed), nodes[|nodes| - 1];
      if last in completed then before else before + [last]
  }

  // ---------------------------------------------------------------- one pass, as a function

  /** The status a handler leaves in memory, whether it writes it back, and what it did to the cluster. */
  datatype Effect = Effect(status: Status, writes: bool, held: set<string>, freed: set<string>, jobs: set<string>)

  function Stays(st: Status, writes: bool): Effect {
    Effect(st, writes, {}, {}, {})
  }

  /** beginUpdate, with selectNodesTaintAndDrain. */
  function Begin(spec: Spec, st: Status, a: Answers): Effect {
    if !a.verified then Stays(st.(state := Error), true)
    else
      var chosen := Selected(a.nodes);
      var staged := spec.canary && chosen != [];
      var first := if staged then chosen[..1] else chosen;
      var k := Reached(first, a.tainted);
      var next := st.(all := first,
                      pending := if staged then chosen[1..] else st.pending,
                      draining := Busy(first[..k], a.pods));
      var ok := DrainStarted(a, first) && first != [];
      Effect(next.(state := if ok then Draining else Error), true, Elems(first[..k]), {}, {})
  }

  /** checkForNodeDrainStatus */
  function CheckDrain(st: Status, a: Answers): Effect {
    if exists n :: n in st.draining && !Emptied(a, n) then Stays(st.(state := Error), true)
    else
      var busy := Busy(st.draining, a.pods);
      Stays(st.(draining := busy, state := if busy == [] then Updating else st.state), true)
  }

  function Creates(a: Answers): string -> bool {
    n => a.creation(n) != Refused
  }

  /** startUpdateJobs */
  function StartJobs(st: Status, a: Answers): Effect {
    var todo := Undone(st.all, st.completed);
    var k := Reached(todo, Creates(a));
    if k < |todo| then Effect(st.(state := ErrorCleanup), true, {}, {}, Elems(todo[..k]))
    else Effect(st.(updating := todo), true, {}, {}, Elems(todo))
  }

  /** continueUpdateJobs: the lists of an unfinished check are not written back. */
  function ContinueJobs(spec: Spec, st: Status, a: Answers): Effect {
    if a.jobs.None? then Stays(st.(state := ErrorCleanup), false)
    else
      var jobs := a.jobs.value;
      var next := st.(failed := Judged(jobs, st.completed, Broken),
                      updating := Judged(jobs, st.completed, Running),
                      completed := st.completed + Judged(jobs, st.completed, Done));
      if next.updating != [] then Stays(next, false)
      else
        Stays(next.(state := if next.failed != [] then ErrorCleanup
                             else if spec.canary && next.pending != [] then CanaryDone else Cleanup), true)
  }

  /** handleCanaryDone */
  function AfterCanary(spec: Spec, st: Status, a: Answers): Effect {
    if spec.hold then Stays(st, false)
    else if st.pending == [] then Stays(st.(state := Cleanup), true)
    else
      var k := Reached(st.pending, a.tainted);
      var wide := st.(all := st.all + st.pending, pending := []);
      if DrainStarted(a, st.pending)
      then Effect(wide.(draining := Busy(st.pending, a.pods), state := Draining), true, Elems(st.pending), {}, {})
      else Effect(wide.(state := Error), true, Elems(st.pending[..k]), {}, {})
  }

  function FreedOf(nodes: seq<string>, a: Answers): set<string> {
    set n | n in nodes && a.untainted(n)
  }

  /** untaintNodesAndFinalize */
  function Finish(st: Status, a: Answers, withError: bool): Effect {
    var freed := FreedOf(st.all, a);
    Effect(st.(state := if withError || freed != Elems(st.all) then Error else Completed), true, {}, freed, {})
  }

  predicate InProgress(s: State) {
    s.Draining? || s.Updating? || s.CanaryDone? || s.Cleanup? || s.ErrorCleanup?
  }

  /** A pass that goes straight to taking the taints off. */
  predicate Finishes(s: State, deleted: bool) {
    s.Cleanup? || s.ErrorCleanup? || (deleted && (s.CanaryDone? || s.NotStarted? || s.Draining?))
  }

  function Handle(spec: Spec, st: Status, a: Answers): Effect {
    if a.deleted && (st.state.CanaryDone? || st.state.NotStarted? || st.state.Draining?) then Finish(st, a, true)
    else
      match st.state
      case NotStarted => Begin(spec, st, a)
      case Draining => CheckDrain(st, a)
      case Updating => if st.updating == [] then StartJobs(st, a) else ContinueJobs(spec, st, a)
      case CanaryDone => AfterCanary(spec, st, a)
      case Cleanup => Finish(st, a, false)
      case ErrorCleanup => Finish(st, a, true)
      case Completed => Stays(st, false)
      case Error => Stays(st, false)
      case Unknown(_) => Stays(st, false)
  }

  /** The nodes after a pass. */
  function TaintsAfter(nodes: Nodes, t: Taint, e: Effect): Nodes {
    Released(Held(nodes, t, e.held), t, nodes.Keys - e.freed)
  }

  /** A taint call can only succeed on a node that exists. */
  ghost predicate Truthful(a: Answers, nodes: Nodes) {
    forall n :: a.tainted(n) || a.untainted(n) ==> n in nodes
  }

  // ---------------------------------------------------------------- the handlers

  /** Tainting nodes one after the other. */
  function HoldEach(nodes: Nodes, t: Taint, names: seq<string>): Nodes {
    if names == [] then nodes
    else
      var before, n := HoldEach(nodes, t, names[..|names| - 1]), names[|names| - 1];
      if n in before then before[n := WithTaint(before[n], t)] else before
  }

  lemma {:induction false} HoldEachAt(nodes: Nodes, t: Taint, names: seq<string>, n: string)
    requires n in nodes
    ensures n in HoldEach(nodes, t, names)
    ensures HoldEach(nodes, t, names)[n] == if n in names then WithTaint(nodes[n], t) else nodes[n]
  {
    if names != [] {
      var i := |names| - 1;
      HoldEachAt(nodes, t, names[..i], n);
      assert n in names <==> n in names[..i] || n == names[i];
      OthersFacts(nodes[n], t);
    }
  }

  /** Untainting them one after the other, as far as the API server lets it. */
  function FreeEach(nodes: Nodes, t: Taint, names: seq<string>, a: Answers): Nodes {
    if names == [] then nodes
    else
      var before, n := FreeEach(nodes, t, names[..|names| - 1], a), names[|names| - 1];
      if n in before && a.untainted(n) then before[n := Others(before[n], t)] else before
  }

  lemma FreeEachNext(nodes: Nodes, t: Taint, names: seq<string>, a: Answers, i: nat)
    requires i < |names|
    ensures var before, n := FreeEach(nodes, t, names[..i], a), names[i];
      FreeEach(nodes, t, names[..i + 1], a) ==
        if n in before && a.untainted(n) then before[n := Others(before[n], t)] else before
  {
    assert names[..i + 1][..i] == names[..i];
  }

  lemma {:induction false} FreeEachAt(nodes: Nodes, t: Taint, names: seq<string>, a: Answers, n: string)
    requires n in nodes
    ensures n in FreeEach(nodes, t, names, a)
    ensures FreeEach(nodes, t, names, a)[n] == if n in names && a.untainted(n) then Others(nodes[n], t) else nodes[n]
  {
    if names != [] {
      var i := |names| - 1;
      FreeEachAt(nodes, t, names[..i], a, n);
      FreeEachNext(nodes, t, names, a, i);
      assert names[..i + 1] == names;
      assert n in names <==> n in names[..i] || n == names[i];
      OthersTwice(nodes[n], t);
    }
  }

  lemma {:induction false} SameNames(nodes: Nodes, t: Taint, names: seq<string>, a: Answers)
    ensures HoldEach(nodes, t, names).Keys == nodes.Keys && FreeEach(nodes, t, names, a).Keys == nodes.Keys
  {
    if names != [] {
      SameNames(nodes, t, names[..|names| - 1], a);
    }
  }

  /** Node after node or all at once, the taints are the same. */
  lemma HoldEachIsHeld(nodes: Nodes, t: Taint, names: seq<string>, a: Answers)
    ensures HoldEach(nodes, t, names) == Held(nodes, t, Elems(names))
  {
    SameNames(nodes, t, names, a);
    forall n | n in nodes ensures HoldEach(nodes, t, names)[n] == Held(nodes, t, Elems(names))[n] {
      HoldEachAt(nodes, t, names, n);
    }
  }

  lemma FreeEachIsReleased(nodes: Nodes, t: Taint, names: seq<string>, a: Answers)
    ensures FreeEach(nodes, t, names, a) == Released(nodes, t, nodes.Keys - FreedOf(names, a))
  {
    SameNames(nodes, t, names, a);
    forall n | n in nodes
      ensures FreeEach(nodes, t, names, a)[n] == Released(nodes, t, nodes.Keys - FreedOf(names, a))[n]
    {
      FreeEachAt(nodes, t, names, a, n);
    }
  }

  /** A pass that touches no node's taints. */
  lemma NothingDone(nodes: Nodes, t: Taint, e: Effect)
    requires e.held == {} && e.freed == {}
    ensures TaintsAfter(nodes, t, e) == nodes
  {
  }

  lemma OnlyHeld(nodes: Nodes, t: Taint, names: seq<string>, a: Answers, e: Effect)
    requires e.held == Elems(names) && e.freed == {}
    ensures TaintsAfter(nodes, t, e) == HoldEach(nodes, t, names)
  {
    HoldEachIsHeld(nodes, t, names, a);
  }

  lemma OnlyFreed(nodes: Nodes, t: Taint, names: seq<string>, a: Answers, e: Effect)
    requires e.freed == FreedOf(names, a) && e.held == {}
    ensures TaintsAfter(nodes, t, e) == FreeEach(nodes, t, names, a)
  {
    FreeEachIsReleased(nodes, t, names, a);
    assert Held(nodes, t, {}) == nodes;
  }

  predicate AllFreed(nodes: seq<string>, a: Answers, i: nat)
    requires i <= |nodes|
  {
    forall k :: 0 <= k < i ==> a.untainted(nodes[k])
  }

  predicate AllEmptied(nodes: seq<string>, a: Answers, i: nat)
    requires i <= |nodes|
  {
    forall k :: 0 <= k < i ==> Emptied(a, nodes[k])
  }

  lemma EmptiedNext(nodes: seq<string>, a: Answers, i: nat)
    requires i < |nodes|
    ensures AllEmptied(nodes, a, i + 1) <==> AllEmptied(nodes, a, i) && Emptied(a, nodes[i])
  {
  }

  lemma FreedNext(nodes: seq<string>, a: Answers, i: nat)
    requires i < |nodes|
    ensures AllFreed(nodes, a, i + 1) <==> AllFreed(nodes, a, i) && a.untainted(nodes[i])
  {
  }

  lemma FreedAll(nodes: seq<string>, a: Answers)
    ensures FreedOf(nodes, a) == Elems(nodes) <==> AllFreed(nodes, a, |nodes|)
  {
    if FreedOf(nodes, a) == Elems(nodes) {
      forall k | 0 <= k < |nodes| ensures a.untainted(nodes[k]) {
        assert nodes[k] in Elems(nodes);
      }
    }
  }

  /** Creating Jobs node by node stops at the first refusal among the nodes still to do. */
  lemma StoppedAt(nodes: seq<string>, completed: seq<string>, a: Answers, i: nat)
    requires i < |nodes| && nodes[i] !in completed && !Creates(a)(nodes[i])
    requires forall k :: 0 <= k < |Undone(nodes[..i], completed)| ==> Creates(a)(Undone(nodes[..i], completed)[k])
    ensures var todo, k := Undone(nodes, completed), |Undone(nodes[..i], completed)|;
      Reached(todo, Creates(a)) == k < |todo| && todo[..k] == Undone(nodes[..i], completed)
  {
    var before := Undone(nodes[..i], completed);
    assert nodes[..i + 1][..i] == nodes[..i];
    assert Undone(nodes[..i + 1], completed) == before + [nodes[i]];
    UndonePrefix(nodes, completed, i + 1);
    ReachedAt(Undone(nodes, completed), Creates(a), |before|);
  }

  lemma StartJobsEffect(st: Status, a: Answers, todo: seq<string>)
    requires todo == Undone(st.all, st.completed)[..Reached(Undone(st.all, st.completed), Creates(a))]
    ensures var full := Undone(st.all, st.completed);
      var next := if |todo| == |full| then st.(updating := todo) else st.(state := ErrorCleanup);
      StartJobs(st, a) == Effect(next, true, {}, {}, Elems(todo))
  {
    assert |todo| == |Undone(st.all, st.completed)| ==> todo == Undone(st.all, st.completed);
  }

  class Rollout {
    const cluster: Cluster
    const taint: Taint
    var spec: Spec
    var state: State
    var all: seq<string>
    var pending: seq<string>
    var draining: seq<string>
    var updating: seq<string>
    var completed: seq<string>
    var failed: seq<string>
    var jobs: set<string>

    constructor (cluster: Cluster, key: string, spec: Spec)
      ensures this.cluster == cluster && this.spec == spec && jobs == {}
      ensures taint.key == key && taint.value == "" && taint.effect == "NoSchedule" && taint.timeAdded == None
      ensures Now() == Status(NotStarted, [], [], [], [], [], [])
    {
      this.cluster, taint, this.spec, jobs := cluster, UpdateTaint(key), spec, {};
      state, all, pending, draining, updating, completed, failed := NotStarted, [], [], [], [], [], [];
    }

    function Now(): Status
      reads this
    {
      Status(state, all, pending, draining, updating, completed, failed)
    }

    /** The status and the cluster are as the effect says. */
    twostate predicate Did(e: Effect)
      reads this, cluster
    {
      && Now() == e.status && spec == old(spec) && jobs == old(jobs) + e.jobs
      && cluster.nodes == TaintsAfter(old(cluster.nodes), taint, e)
    }

    /** One node's turn: taint it, then evict the GPU pods on it. */
    method TaintAndDrainNode(n: string, a: Answers) returns (reached: bool, busy: bool, ok: bool)
      requires Truthful(a, cluster.nodes)
      modifies cluster
      ensures reached == a.tainted(n) && ok == (reached && Emptied(a, n))
      ensures busy == (reached && a.pods(n).Some? && a.pods(n).value > 0)
      ensures a.tainted(n) ==> n in old(cluster.nodes)
      ensures var was := old(cluster.nodes);
        cluster.nodes == if a.tainted(n) then was[n := WithTaint(was[n], taint)] else was
    {
      var answered, _ := cluster.EnsureNodeTaint(n, taint, a.tainted(n));
      if !answered { return false, false, false; }
      if a.pods(n).None? { return true, false, false; }
      busy := a.pods(n).value > 0;
      return true, busy, !busy || a.evicted(n);
    }

    method TaintAndDrain(nodes: seq<string>, a: Answers) returns (busy: seq<string>, ok: bool)
      requires Truthful(a, cluster.nodes)
      modifies cluster
      ensures busy == Busy(nodes[..Reached(nodes, a.tainted)], a.pods) && ok == DrainStarted(a, nodes)
      ensures cluster.nodes == HoldEach(old(cluster.nodes), taint, nodes[..Reached(nodes, a.tainted)])
    {
      busy, ok := [], true;
      ghost var start := cluster.nodes;
      for i := 0 to |nodes|
        invariant forall k :: 0 <= k < i ==> a.tainted(nodes[k])
        invariant ok <==> AllEmptied(nodes, a, i)
        invariant busy == Busy(nodes[..i], a.pods)
        invariant cluster.nodes == HoldEach(start, taint, nodes[..i]) && cluster.nodes.Keys == start.Keys
      {
        assert nodes[..i + 1][..i] == nodes[..i];
        EmptiedNext(nodes, a, i);
        var reached, stillBusy, emptied := TaintAndDrainNode(nodes[i], a);
        if !reached {
          ReachedAt(nodes, a.tainted, i);
          return busy, false;
        }
        ok := ok && emptied;
        if stillBusy {
          busy := busy + [nodes[i]];
        }
      }
      ReachedAt(nodes, a.tainted, |nodes|);
      assert nodes[..|nodes|] == nodes;
    }

    method BeginUpdate(a: Answers) returns (writes: bool)
      requires Truthful(a, cluster.nodes)
      modifies this, cluster
      ensures Did(Begin(old(spec), old(Now()), a)) && writes
    {
      writes := true;
      if !a.verified {
        NothingDone(cluster.nodes, taint, Begin(spec, Now(), a));
        state := Error;
        return;
      }
      var chosen := SelectNodes(a.nodes);
      var first := chosen;
      if spec.canary && |chosen| > 0 {
        first := chosen[..1];
        pending := chosen[1..];
      }
      all := first;
      var ok;
      OnlyHeld(cluster.nodes, taint, first[..Reached(first, a.tainted)], a, Begin(spec, old(Now()), a));
      draining, ok := TaintAndDrain(first, a);
      state := if ok && |first| > 0 then Draining else Error;
    }

    method CheckDrains(a: Answers) returns (writes: bool)
      modifies this
      ensures Did(CheckDrain(old(Now()), a)) && writes
    {
      NothingDone(cluster.nodes, taint, CheckDrain(Now(), a));
      writes := true;
      var busy := [];
      for i := 0 to |draining|
        invariant Now() == old(Now()) && spec == old(spec) && jobs == old(jobs)
        invariant forall k :: 0 <= k < i ==> Emptied(a, draining[k])
        invariant busy == Busy(draining[..i], a.pods)
      {
        assert draining[..i + 1][..i] == draining[..i];
        var n := draining[i];
        assert n in draining;
        if a.pods(n).None? {
          assert !Emptied(a, n);
          state := Error;
          return;
        }
        if a.pods(n).value != 0 {
          busy := busy + [n];
          if !a.evicted(n) {
            assert !Emptied(a, n);
            state := Error;
            return;
          }
        }
      }
      assert draining[..|draining|] == draining;
      draining := busy;
      if |busy| == 0 {
        state := Updating;
      }
    }

    /** A Job for every node still to do, up to the first refusal. */
    method CreateJobs(a: Answers) returns (todo: seq<string>, ok: bool)
      modifies `jobs
      ensures var full := Undone(all, completed); var k := Reached(full, Creates(a));
        todo == full[..k] && ok == (k == |full|)
      ensures jobs == old(jobs) + Elems(todo)
    {
      todo := [];
      for i := 0 to |all|
        invariant todo == Undone(all[..i], completed)
        invariant jobs == old(jobs) + Elems(todo)
        invariant forall k :: 0 <= k < |todo| ==> Creates(a)(todo[k])
      {
        assert all[..i + 1][..i] == all[..i];
        if all[i] in completed { continue; }
        if a.creation(all[i]) == Refused {
          StoppedAt(all, completed, a, i);
          return todo, false;
        }
        jobs := jobs + {all[i]};
        todo := todo + [all[i]];
      }
      assert all[..|all|] == all;
      ReachedAt(todo, Creates(a), |todo|);
      ok := true;
    }

    method StartUpdateJobs(a: Answers) returns (writes: bool)
      modifies this
      ensures Did(StartJobs(old(Now()), a)) && writes
    {
      ghost var st, e := Now(), StartJobs(Now(), a);
      NothingDone(cluster.nodes, taint, e);
      var todo, ok := CreateJobs(a);
      StartJobsEffect(st, a, todo);
      if ok {
        updating := todo;
      } else {
        state := ErrorCleanup;
      }
      writes := true;
    }

    method ContinueUpdateJobs(a: Answers) returns (writes: bool)
      modifies this
      ensures Did(ContinueJobs(old(spec), old(Now()), a))
      ensures writes == ContinueJobs(old(spec), old(Now()), a).writes
    {
      NothingDone(cluster.nodes, taint, ContinueJobs(spec, Now(), a));
      writes := false;
      if a.jobs.None? {
        state := ErrorCleanup;
        return;
      }
      var listed := a.jobs.value;
      var running, done, broken := [], [], [];
      for i := 0 to |listed|
        invariant Now() == old(Now()) && spec == old(spec) && jobs == old(jobs)
        invariant running == Judged(listed[..i], completed, Running)
        invariant done == Judged(listed[..i], completed, Done)
        invariant broken == Judged(listed[..i], completed, Broken)
      {
        assert listed[..i + 1][..i] == listed[..i];
        var job := listed[i];
        if job.node.None? || job.node.value in completed { continue; }
        if job.succeeded > 0 {
          if job.tagged {
            done := done + [job.node.value];
          } else {
            broken := broken + [job.node.value];
          }
        } else if job.failed > 0 {
          broken := broken + [job.node.value];
        } else {
          running := running + [job.node.value];
        }
      }
      assert listed[..|listed|] == listed;
      failed := broken;
      updating := running;
      completed := completed + done;
      if |running| > 0 { return; }
      writes := true;
      state := Cleanup;
      if |failed| > 0 {
        state := ErrorCleanup;
      } else if spec.canary && |pending| > 0 {
        state := CanaryDone;
      }
    }

    method HandleCanaryDone(a: Answers) returns (writes: bool)
      requires Truthful(a, cluster.nodes)
      modifies this, cluster
      ensures Did(AfterCanary(old(spec), old(Now()), a))
      ensures writes == AfterCanary(old(spec), old(Now()), a).writes
    {
      ghost var e := AfterCanary(spec, Now(), a);
      if spec.hold {
        NothingDone(cluster.nodes, taint, e);
        return false;
      }
      writes := true;
      var remaining := pending;
      pending := [];
      if |remaining| == 0 {
        NothingDone(cluster.nodes, taint, e);
        state := Cleanup;
        return;
      }
      all := all + remaining;
      assert remaining[..|remaining|] == remaining;
      OnlyHeld(cluster.nodes, taint, remaining[..Reached(remaining, a.tainted)], a, e);
      var busy, ok := TaintAndDrain(remaining, a);
      if !ok {
        state := Error;
        return;
      }
      draining, state := busy, Draining;
    }

    method UntaintNode(n: string, a: Answers) returns (ok: bool)
      requires Truthful(a, cluster.nodes)
      modifies cluster
      ensures ok == a.untainted(n) && (ok ==> n in old(cluster.nodes))
      ensures var was := old(cluster.nodes);
        cluster.nodes == if ok then was[n := Others(was[n], taint)] else was
    {
      var answered, _ := cluster.RemoveNodeTaint(n, taint, a.untainted(n));
      ok := answered;
    }

    method UntaintAll(a: Answers) returns (ok: bool)
      requires Truthful(a, cluster.nodes)
      modifies cluster
      ensures cluster.nodes == FreeEach(old(cluster.nodes), taint, all, a) && ok == AllFreed(all, a, |all|)
    {
      ok := true;
      ghost var start := cluster.nodes;
      for i := 0 to |all|
        invariant ok <==> AllFreed(all, a, i)
        invariant cluster.nodes == FreeEach(start, taint, all[..i], a) && cluster.nodes.Keys == start.Keys
      {
        FreeEachNext(start, taint, all, a, i);
        FreedNext(all, a, i);
        var answered := UntaintNode(all[i], a);
        ok := ok && answered;
      }
      assert all[..|all|] == all;
    }

    method UntaintAndFinalize(a: Answers, withError: bool) returns (writes: bool)
      requires Truthful(a, cluster.nodes)
      modifies this, cluster
      ensures Did(Finish(old(Now()), a, withError)) && writes
    {
      OnlyFreed(cluster.nodes, taint, all, a, Finish(Now(), a, withError));
      FreedAll(all, a);
      var ok := UntaintAll(a);
      state := if !ok || withError then Error else Completed;
      writes := true;
    }

    method Reconcile(a: Answers) returns (writes: bool)
      requires Truthful(a, cluster.nodes)
      modifies this, cluster
      ensures Did(Handle(old(spec), old(Now()), a))
      ensures writes == Handle(old(spec), old(Now()), a).writes
    {
      if a.deleted && (state.CanaryDone? || state.NotStarted? || state.Draining?) {
        writes := UntaintAndFinalize(a, true);
        return;
      }
      match state
      case NotStarted => writes := BeginUpdate(a);
      case Draining => writes := CheckDrains(a);
      case Updating =>
        if |updating| == 0 {
          writes := StartUpdateJobs(a);
        } else {
          writes := ContinueUpdateJobs(a);
        }
      case CanaryDone => writes := HandleCanaryDone(a);
      case Cleanup => writes := UntaintAndFinalize(a, false);
      case ErrorCleanup => writes := UntaintAndFinalize(a, true);
      case Completed | Error | Unknown(_) =>
        NothingDone(cluster.nodes, taint, Handle(spec, Now(), a));
        writes := false;
    }
  }

  lemma {:induction false} UndonePrefix(nodes: seq<string>, completed: seq<string>, k: nat)
    requires k <= |nodes|
    ensures Undone(nodes[..k], completed) <= Undone(nodes, completed)
    decreases |nodes| - k
  {
    if k < |nodes| {
      UndonePrefix(nodes, completed, k + 1);
      assert nodes[..k + 1][..k] == nodes[..k];
    } else {
      assert nodes[..k] == nodes;
    }
  }
}
