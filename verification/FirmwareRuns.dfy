/** Whole rollouts: every sequence of passes, lost status writes and spec edits. */
module FirmwareRuns {
  import opened Prelude
  import opened NodeTaints
  import opened FirmwareUpdate
  import opened Runs

  /**
   The stored object and the cluster. The last three fields only record history: whether the rollout
   was begun as a canary, whether a pass has gone past the canary, and which nodes were tainted by
   begin passes whose status write was lost.
   */
  datatype Fleet = Fleet(spec: Spec, status: Status, nodes: Nodes, jobs: set<string>, staged: bool, widened: bool,
    stray: set<string>)

  datatype Step = Edit | Pass(answers: Answers)

  /** Node names are unique in the cluster. */
  ghost predicate UniqueNames(nodes: seq<NodeSeen>) {
    forall i, j :: 0 <= i < j < |nodes| ==> nodes[i].name != nodes[j].name
  }

  /** Every Job the rollout created is listed, once. */
  ghost predicate JobsListed(jobs: set<string>, seen: seq<JobSeen>) {
    && (forall i :: 0 <= i < |seen| ==> seen[i].node.Some? && seen[i].node.value in jobs)
    && (forall i, j :: 0 <= i < j < |seen| ==> seen[i].node != seen[j].node)
    && (forall n :: n in jobs ==> exists i :: 0 <= i < |seen| && seen[i].node == Some(n))
  }

  function Carriers(nodes: Nodes, t: Taint): set<string> {
    set n | n in nodes && Carries(nodes[n], t)
  }

  ghost predicate Fits(s: Fleet, a: Answers) {
    && Truthful(a, s.nodes)
    && (a.nodes.Some? ==> UniqueNames(a.nodes.value))
    && (a.jobs.Some? ==> JobsListed(s.jobs, a.jobs.value))
  }

  /** The pass goes past the canary. */
  predicate Widens(s: Fleet, a: Answers) {
    s.status.state.CanaryDone? && !s.spec.hold && !a.deleted
  }

  function After(t: Taint, s: Fleet, a: Answers): Fleet {
    var e := Handle(s.spec, s.status, a);
    var stored := e.writes && a.written;
    var begins := s.status.state.NotStarted?;
    Fleet(s.spec, if stored then e.status else s.status, TaintsAfter(s.nodes, t, e), s.jobs + e.jobs,
          if begins && stored then s.spec.canary else s.staged,
          s.widened || Widens(s, a),
          if begins && !stored then s.stray + e.held else s.stray)
  }

  /** An edit may change the spec, but not the method of a rollout in progress; nobody else adds this taint. */
  ghost predicate Next(t: Taint, s: Fleet, step: Step, s': Fleet) {
    match step
    case Edit =>
      && s' == s.(spec := s'.spec, nodes := s'.nodes)
      && (InProgress(s.status.state) ==> s'.spec.canary == s.spec.canary)
      && Carriers(s'.nodes, t) <= Carriers(s.nodes, t)
    case Pass(a) => Fits(s, a) && s' == After(t, s, a)
  }

  ghost predicate Start(t: Taint, s: Fleet) {
    && s.status == Status(NotStarted, [], [], [], [], [], [])
    && s.jobs == {} && !s.staged && !s.widened && s.stray == {} && Carriers(s.nodes, t) == {}
  }

  ghost predicate Run(t: Taint, states: seq<Fleet>, steps: seq<Step>) {
    Chain((s, step, s') => Next(t, s, step, s'), states, steps) && Start(t, states[0])
  }

  // ---------------------------------------------------------------- lists

  lemma {:induction false} UndoneContents(nodes: seq<string>, completed: seq<string>)
    ensures forall n :: n in Undone(nodes, completed) <==> n in nodes && n !in completed
  {
    if nodes != [] {
      var i := |nodes| - 1;
      UndoneContents(nodes[..i], completed);
      assert forall n :: n in nodes <==> n in nodes[..i] || n == nodes[i];
    }
  }

  lemma {:induction false} BusyContents(nodes: seq<string>, pods: string -> Option<nat>)
    ensures forall n :: n in Busy(nodes, pods) <==> n in nodes && pods(n).Some? && pods(n).value > 0
  {
    if nodes != [] {
      var i := |nodes| - 1;
      BusyContents(nodes[..i], pods);
      assert forall n :: n in nodes <==> n in nodes[..i] || n == nodes[i];
    }
  }

  lemma {:induction false} CandidatesContents(nodes: seq<NodeSeen>, n: string)
    ensures n in Candidates(nodes) <==> exists i :: 0 <= i < |nodes| && nodes[i].name == n && Suitable(nodes[i])
  {
    if nodes != [] {
      CandidatesContents(nodes[..|nodes| - 1], n);
    }
  }

  lemma {:induction false} CandidatesUnique(nodes: seq<NodeSeen>)
    requires UniqueNames(nodes)
    ensures Distinct(Candidates(nodes))
  {
    if nodes != [] {
      var i := |nodes| - 1;
      CandidatesUnique(nodes[..i]);
      CandidatesContents(nodes[..i], nodes[i].name);
    }
  }

  ghost predicate Shows(jobs: seq<JobSeen>, n: string, v: Verdict) {
    exists i :: 0 <= i < |jobs| && jobs[i].node == Some(n) && Judge(jobs[i]) == v
  }

  lemma ShowsNext(jobs: seq<JobSeen>, n: string, v: Verdict)
    requires jobs != []
    ensures var i := |jobs| - 1; Shows(jobs, n, v) <==>
      Shows(jobs[..i], n, v) || (jobs[i].node == Some(n) && Judge(jobs[i]) == v)
  {
    var i := |jobs| - 1;
    if Shows(jobs[..i], n, v) {
      var k :| 0 <= k < i && jobs[..i][k].node == Some(n) && Judge(jobs[..i][k]) == v;
      assert jobs[k].node == Some(n);
    }
    if Shows(jobs, n, v) {
      var k :| 0 <= k < |jobs| && jobs[k].node == Some(n) && Judge(jobs[k]) == v;
      if k < i {
        assert jobs[..i][k].node == Some(n);
      }
    }
  }

  lemma {:induction false} JudgedContents(jobs: seq<JobSeen>, completed: seq<string>, v: Verdict, n: string)
    ensures n in Judged(jobs, completed, v) <==> n !in completed && Shows(jobs, n, v)
  {
    if jobs != [] {
      JudgedContents(jobs[..|jobs| - 1], completed, v, n);
      ShowsNext(jobs, n, v);
    }
  }

  lemma {:induction false} JudgedUnique(jobs: seq<JobSeen>, completed: seq<string>, v: Verdict)
    requires forall i, j :: 0 <= i < j < |jobs| ==> jobs[i].node != jobs[j].node
    ensures Distinct(Judged(jobs, completed, v))
  {
    if jobs != [] {
      var i := |jobs| - 1;
      JudgedUnique(jobs[..i], completed, v);
      if jobs[i].node.Some? {
        JudgedContents(jobs[..i], completed, v, jobs[i].node.value);
      }
    }
  }

  /** Each node of an exhaustive list with one verdict each falls into exactly one class. */
  lemma OneVerdict(jobs: set<string>, seen: seq<JobSeen>, n: string)
    requires JobsListed(jobs, seen)
    ensures n in jobs <==> Shows(seen, n, Done) || Shows(seen, n, Broken) || Shows(seen, n, Running)
    ensures forall v, w :: Shows(seen, n, v) && Shows(seen, n, w) ==> v == w
  {
    if n in jobs {
      var i :| 0 <= i < |seen| && seen[i].node == Some(n);
      assert Shows(seen, n, Judge(seen[i]));
    }
  }

  // ---------------------------------------------------------------- the invariant

  ghost predicate Shape(st: Status) {
    Distinct(st.all + st.pending) && Distinct(st.completed) && Elems(st.completed) <= Elems(st.all)
  }

  /** Some node in scope is still to be updated. */
  ghost predicate Open(st: Status) {
    exists n :: n in st.all && n !in st.completed
  }

  ghost predicate AllDone(st: Status) {
    Elems(st.completed) == Elems(st.all) && st.failed == [] && st.updating == [] && st.all != []
  }

  ghost predicate Staged(s: Fleet) {
    var st := s.status;
    match st.state
    case NotStarted => st == Status(NotStarted, [], [], [], [], [], []) && s.jobs == {} && !s.staged && !s.widened
    case Draining => Open(st) && st.updating == [] && st.failed == []
    case Updating => st.failed == [] && Open(st) && (st.updating == [] || s.jobs == Elems(st.all))
    case CanaryDone => AllDone(st) && st.pending != []
    case Cleanup => AllDone(st) && st.pending == []
    case Completed => AllDone(st) && st.pending == []
    case ErrorCleanup => true
    case Error => true
    case Unknown(_) => false
  }

  ghost predicate ListsOk(s: Fleet) {
    var st := s.status;
    && Shape(st) && Staged(s)
    && Elems(st.completed) <= s.jobs <= Elems(st.all) && Elems(st.draining) <= Elems(st.all)
    && (InProgress(st.state) ==> s.staged == s.spec.canary && (st.pending != [] ==> s.staged))
    && (s.staged && !s.widened ==> |st.all| <= 1)
    && (s.widened ==> st.all != [] && st.all[0] in st.completed)
  }

  ghost predicate TaintsOk(t: Taint, s: Fleet) {
    var st, held := s.status, Carriers(s.nodes, t);
    && held <= s.stray + Elems(st.all) + (if s.widened then Elems(st.pending) else {})
    && (st.state.Completed? ==> held !! Elems(st.all))
  }

  lemma DistinctParts(a: seq<string>, b: seq<string>)
    requires Distinct(a + b)
    ensures Distinct(a) && Distinct(b) && forall n :: n in a ==> n !in b
  {
    forall i, j | 0 <= i < j < |a| ensures a[i] != a[j] {
      assert (a + b)[i] == a[i] && (a + b)[j] == a[j];
    }
    forall i, j | 0 <= i < j < |b| ensures b[i] != b[j] {
      assert (a + b)[|a| + i] == b[i] && (a + b)[|a| + j] == b[j];
    }
    forall i, j | 0 <= i < |a| && 0 <= j < |b| ensures a[i] != b[j] {
      assert (a + b)[i] == a[i] && (a + b)[|a| + j] == b[j];
    }
  }

  lemma DistinctConcat(a: seq<string>, b: seq<string>)
    requires Distinct(a) && Distinct(b) && forall n :: n in a ==> n !in b
    ensures Distinct(a + b)
  {
    forall i, j | 0 <= i < j < |a + b| ensures (a + b)[i] != (a + b)[j] {
      if i < |a| <= j {
        assert a[i] in a && b[j - |a|] in b;
      }
    }
  }

  /**
   The Job check splits the nodes in scope into completed, failed and still updating, each node once,
   given that every created Job is listed.
   */
  lemma JobCheckPartitions(spec: Spec, st: Status, a: Answers)
    requires Shape(st) && a.jobs.Some? && JobsListed(Elems(st.all), a.jobs.value)
    ensures var c := ContinueJobs(spec, st, a).status;
      && Distinct(c.completed)
      && multiset(c.completed) + multiset(c.failed) + multiset(c.updating) == multiset(st.all)
  {
    var seen := a.jobs.value;
    var done, broken := Judged(seen, st.completed, Done), Judged(seen, st.completed, Broken);
    var running := Judged(seen, st.completed, Running);
    forall v ensures Distinct(Judged(seen, st.completed, v)) {
      JudgedUnique(seen, st.completed, v);
    }
    DistinctParts(st.all, st.pending);
    DoneIsNew(st, seen);
    forall n ensures (multiset(st.completed + done) + multiset(broken) + multiset(running))[n] == multiset(st.all)[n] {
      OneNodeOneClass(st, seen, n);
    }
  }

  lemma DoneIsNew(st: Status, seen: seq<JobSeen>)
    requires Distinct(st.completed) && Distinct(Judged(seen, st.completed, Done))
    ensures Distinct(st.completed + Judged(seen, st.completed, Done))
  {
    forall n | n in st.completed ensures n !in Judged(seen, st.completed, Done) {
      JudgedContents(seen, st.completed, Done, n);
    }
    DistinctConcat(st.completed, Judged(seen, st.completed, Done));
  }

  lemma OneNodeOneClass(st: Status, seen: seq<JobSeen>, n: string)
    requires Distinct(st.all) && Distinct(st.completed) && Elems(st.completed) <= Elems(st.all)
    requires JobsListed(Elems(st.all), seen)
    requires forall v :: Distinct(Judged(seen, st.completed, v))
    ensures multiset(st.completed + Judged(seen, st.completed, Done))[n] +
      multiset(Judged(seen, st.completed, Broken))[n]
      + multiset(Judged(seen, st.completed, Running))[n] == multiset(st.all)[n]
  {
    OneVerdict(Elems(st.all), seen, n);
    CountDistinct(st.all, n);
    CountDistinct(st.completed, n);
    assert n in st.completed ==> n in Elems(st.completed);
    forall v
      ensures multiset(Judged(seen, st.completed, v))[n] == if n !in st.completed && Shows(seen, n, v) then 1 else 0
    {
      CountDistinct(Judged(seen, st.completed, v), n);
      JudgedContents(seen, st.completed, v, n);
    }
  }

  lemma CarriersAfter(nodes: Nodes, t: Taint, e: Effect)
    ensures Carriers(TaintsAfter(nodes, t, e), t) == Carriers(nodes, t) + e.held * nodes.Keys - e.freed
  {
    forall n | n in nodes
      ensures Carries(TaintsAfter(nodes, t, e)[n], t) <==> n !in e.freed && (n in e.held || Carries(nodes[n], t))
    {
      OthersFacts(nodes[n], t);
    }
  }

  // ---------------------------------------------------------------- every pass keeps it

  lemma BeginLists(spec: Spec, a: Answers)
    requires a.nodes.Some? ==> UniqueNames(a.nodes.value)
    ensures var e := Begin(spec, Status(NotStarted, [], [], [], [], [], []), a).status;
      && Distinct(e.all + e.pending) && Elems(e.draining) <= Elems(e.all)
      && (e.state.Draining? ==> e.all != []) && (e.state.Draining? || e.state.Error?)
      && (if spec.canary then |e.all| <= 1 else e.pending == [])
      && e == e.(updating := [], completed := [], failed := [])
  {
    if a.nodes.Some? {
      CandidatesUnique(a.nodes.value);
    }
    var chosen := Selected(a.nodes);
    var first := if spec.canary && chosen != [] then chosen[..1] else chosen;
    BusyContents(first[..Reached(first, a.tainted)], a.pods);
    assert chosen + [] == chosen;
    if chosen != [] {
      assert chosen[..1] + chosen[1..] == chosen;
    }
  }

  lemma BeginKeepsLists(t: Taint, s: Fleet, a: Answers)
    requires ListsOk(s) && Fits(s, a) && s.status.state.NotStarted? && !a.deleted
    ensures ListsOk(After(t, s, a))
  {
    BeginLists(s.spec, a);
    var e := Begin(s.spec, s.status, a).status;
    if e.all != [] {
      assert e.all[0] in e.all;
    }
  }

  lemma DrainKeepsLists(t: Taint, s: Fleet, a: Answers)
    requires ListsOk(s) && Fits(s, a) && s.status.state.Draining? && !a.deleted
    ensures ListsOk(After(t, s, a))
  {
    BusyContents(s.status.draining, a.pods);
  }

  lemma StartKeepsLists(t: Taint, s: Fleet, a: Answers)
    requires ListsOk(s) && Fits(s, a) && s.status.state.Updating? && s.status.updating == []
    ensures ListsOk(After(t, s, a))
  {
    var st := s.status;
    var todo := Undone(st.all, st.completed);
    UndoneContents(st.all, st.completed);
    var k := Reached(todo, Creates(a));
    assert forall n :: n in todo[..k] ==> n in todo;
    assert Elems(st.completed) + Elems(todo) == Elems(st.all);
  }

  /** A listed Job of the node succeeded and its log holds the completion tag. */
  ghost predicate Tagged(seen: seq<JobSeen>, n: string) {
    exists i :: 0 <= i < |seen| && seen[i].node == Some(n) && seen[i].succeeded > 0 && seen[i].tagged
  }

  ghost predicate FailedOrSilent(seen: seq<JobSeen>, n: string) {
    exists i :: 0 <= i < |seen| && seen[i].node == Some(n) &&
      if seen[i].succeeded > 0 then !seen[i].tagged else seen[i].failed > 0
  }

  ghost predicate StillRunning(seen: seq<JobSeen>, n: string) {
    exists i :: 0 <= i < |seen| && seen[i].node == Some(n) && seen[i].succeeded == 0 && seen[i].failed == 0
  }

  /** What a Job check makes of a node, from the Job's counters and log. */
  lemma CheckJudgesExactly(spec: Spec, st: Status, a: Answers, n: string)
    requires a.jobs.Some?
    ensures var c, seen := ContinueJobs(spec, st, a).status, a.jobs.value;
      && (n in c.completed <==> n in st.completed || Tagged(seen, n))
      && (n in c.failed <==> n !in st.completed && FailedOrSilent(seen, n))
      && (n in c.updating <==> n !in st.completed && StillRunning(seen, n))
  {
    var seen := a.jobs.value;
    JudgedContents(seen, st.completed, Done, n);
    JudgedContents(seen, st.completed, Broken, n);
    JudgedContents(seen, st.completed, Running, n);
    ShowsMeans(seen, n);
  }

  lemma ShowsMeans(seen: seq<JobSeen>, n: string)
    ensures Shows(seen, n, Done) <==> Tagged(seen, n)
    ensures Shows(seen, n, Broken) <==> FailedOrSilent(seen, n)
    ensures Shows(seen, n, Running) <==> StillRunning(seen, n)
  {
    forall i | 0 <= i < |seen| && seen[i].node == Some(n) ensures Shows(seen, n, Judge(seen[i])) {
    }
  }

  lemma CheckOutcome(spec: Spec, st: Status, a: Answers)
    requires Shape(st) && a.jobs.Some? && JobsListed(Elems(st.all), a.jobs.value)
    ensures var c := ContinueJobs(spec, st, a).status;
      && Distinct(c.completed) && Elems(c.completed) <= Elems(st.all)
      && (c.updating == [] && c.failed == [] ==> Elems(c.completed) == Elems(st.all))
  {
    JobCheckPartitions(spec, st, a);
    var c := ContinueJobs(spec, st, a).status;
    MultisetElems(c.completed, st.all);
    if c.updating == [] && c.failed == [] {
      MultisetElems(st.all, c.completed);
    }
  }

  /** The listed Jobs are some of the rollout's own, each once. */
  ghost predicate SomeListed(nodes: seq<string>, seen: seq<JobSeen>) {
    && (forall i :: 0 <= i < |seen| ==> seen[i].node.Some? && seen[i].node.value in nodes)
    && (forall i, j :: 0 <= i < j < |seen| ==> seen[i].node != seen[j].node)
  }

  ghost predicate Listed(seen: seq<JobSeen>, n: string) {
    exists i :: 0 <= i < |seen| && seen[i].node == Some(n)
  }

  /** A check that passes means every node completed exactly when no unfinished node's Job is missing from the list. */
  lemma PassedCheckIsHonestWhen(spec: Spec, st: Status, a: Answers)
    requires Shape(st) && a.jobs.Some? && SomeListed(st.all, a.jobs.value)
    requires var c := ContinueJobs(spec, st, a).status; c.updating == [] && c.failed == []
    ensures Elems(ContinueJobs(spec, st, a).status.completed) == Elems(st.all) <==>
      forall n :: n in st.all && n !in st.completed ==> Listed(a.jobs.value, n)
  {
    var seen, c := a.jobs.value, ContinueJobs(spec, st, a).status;
    forall n ensures n in c.completed <==> n in st.completed || Listed(seen, n) {
      JudgedContents(seen, st.completed, Done, n);
      JudgedContents(seen, st.completed, Broken, n);
      JudgedContents(seen, st.completed, Running, n);
      if Listed(seen, n) {
        var i :| 0 <= i < |seen| && seen[i].node == Some(n);
        assert Shows(seen, n, Judge(seen[i]));
      }
    }
    assert forall n :: n in Elems(c.completed) <==> n in c.completed;
    forall n | n in c.completed ensures n in st.all {
      assert n in st.completed ==> n in Elems(st.completed);
    }
    assert forall n :: n in Elems(st.all) <==> n in st.all;
  }

  lemma ContinueKeepsLists(t: Taint, s: Fleet, a: Answers)
    requires ListsOk(s) && Fits(s, a) && s.status.state.Updating? && s.status.updating != []
    ensures ListsOk(After(t, s, a))
  {
    if a.jobs.Some? {
      CheckOutcome(s.spec, s.status, a);
    }
  }

  lemma MultisetElems(a: seq<string>, b: seq<string>)
    requires multiset(a) <= multiset(b)
    ensures Elems(a) <= Elems(b)
  {
    forall n | n in Elems(a) ensures n in Elems(b) {
      assert n in multiset(a);
    }
  }

  lemma CanaryKeepsLists(t: Taint, s: Fleet, a: Answers)
    requires ListsOk(s) && Fits(s, a) && s.status.state.CanaryDone? && !a.deleted
    ensures ListsOk(After(t, s, a))
  {
    var st := s.status;
    BusyContents(st.pending, a.pods);
    DistinctParts(st.all, st.pending);
    assert (st.all + st.pending) + [] == st.all + st.pending;
    assert st.all[0] in Elems(st.all);
    assert st.pending[0] in st.all + st.pending && st.pending[0] !in st.all;
    assert st.pending[0] !in Elems(st.completed);
  }

  lemma FinishKeepsLists(t: Taint, s: Fleet, a: Answers)
    requires ListsOk(s) && Fits(s, a) && Finishes(s.status.state, a.deleted)
    ensures ListsOk(After(t, s, a))
  {
  }

  lemma PassKeepsLists(t: Taint, s: Fleet, a: Answers)
    requires ListsOk(s) && Fits(s, a)
    ensures ListsOk(After(t, s, a))
  {
    var st := s.status;
    if Finishes(st.state, a.deleted) {
      FinishKeepsLists(t, s, a);
    } else {
      match st.state
      case NotStarted => BeginKeepsLists(t, s, a);
      case Draining => DrainKeepsLists(t, s, a);
      case Updating =>
        if st.updating == [] {
          StartKeepsLists(t, s, a);
        } else {
          ContinueKeepsLists(t, s, a);
        }
      case CanaryDone => CanaryKeepsLists(t, s, a);
      case _ =>
    }
  }

  lemma BeginKeepsTaints(t: Taint, s: Fleet, a: Answers)
    requires ListsOk(s) && TaintsOk(t, s) && s.status.state.NotStarted? && !a.deleted
    ensures TaintsOk(t, After(t, s, a))
  {
    var e := Handle(s.spec, s.status, a);
    CarriersAfter(s.nodes, t, e);
    assert e.held <= Elems(e.status.all) && !e.status.state.Completed?;
  }

  lemma CanaryKeepsTaints(t: Taint, s: Fleet, a: Answers)
    requires ListsOk(s) && TaintsOk(t, s) && s.status.state.CanaryDone? && !a.deleted
    ensures TaintsOk(t, After(t, s, a))
  {
    var st, e := s.status, Handle(s.spec, s.status, a);
    CarriersAfter(s.nodes, t, e);
    assert e.held <= Elems(st.pending) && !e.status.state.Completed?;
    assert Elems(st.all + st.pending) == Elems(st.all) + Elems(st.pending);
  }

  lemma FinishKeepsTaints(t: Taint, s: Fleet, a: Answers)
    requires ListsOk(s) && TaintsOk(t, s) && Finishes(s.status.state, a.deleted)
    ensures TaintsOk(t, After(t, s, a))
  {
    CarriersAfter(s.nodes, t, Handle(s.spec, s.status, a));
  }

  lemma OtherFacts(spec: Spec, st: Status, a: Answers)
    requires !Finishes(st.state, a.deleted) && !st.state.NotStarted? && !st.state.CanaryDone?
    ensures var e := Handle(spec, st, a);
      && e.held == {} && e.freed == {} && e.status.all == st.all && e.status.pending == st.pending
      && (e.status.state.Completed? ==> st.state.Completed?)
  {
  }

  lemma OtherKeepsTaints(t: Taint, s: Fleet, a: Answers)
    requires ListsOk(s) && TaintsOk(t, s) && !Finishes(s.status.state, a.deleted)
    requires !s.status.state.NotStarted? && !s.status.state.CanaryDone?
    ensures TaintsOk(t, After(t, s, a))
  {
    OtherFacts(s.spec, s.status, a);
    NothingDone(s.nodes, t, Handle(s.spec, s.status, a));
  }

  lemma PassKeepsTaints(t: Taint, s: Fleet, a: Answers)
    requires ListsOk(s) && TaintsOk(t, s)
    ensures TaintsOk(t, After(t, s, a))
  {
    if Finishes(s.status.state, a.deleted) {
      FinishKeepsTaints(t, s, a);
    } else if s.status.state.NotStarted? {
      BeginKeepsTaints(t, s, a);
    } else if s.status.state.CanaryDone? {
      CanaryKeepsTaints(t, s, a);
    } else {
      OtherKeepsTaints(t, s, a);
    }
  }

  // ---------------------------------------------------------------- whole runs

  ghost predicate Inv(t: Taint, s: Fleet) {
    ListsOk(s) && TaintsOk(t, s)
  }

  lemma NextKeepsInv(t: Taint, s: Fleet, step: Step, s': Fleet)
    requires Inv(t, s) && Next(t, s, step, s')
    ensures Inv(t, s')
  {
    if step.Pass? {
      PassKeepsLists(t, s, step.answers);
      PassKeepsTaints(t, s, step.answers);
    }
  }

  lemma InvIsInductive(t: Taint)
    ensures Inductive((s, step, s') => Next(t, s, step, s'), s => Inv(t, s))
  {
    forall s, step, s' | Inv(t, s) && Next(t, s, step, s') ensures Inv(t, s') {
      NextKeepsInv(t, s, step, s');
    }
  }

  lemma Reachable(t: Taint, states: seq<Fleet>, steps: seq<Step>, k: nat)
    requires Run(t, states, steps) && k < |states|
    ensures Inv(t, states[k])
  {
    InvIsInductive(t);
    Always((s, step, s') => Next(t, s, step, s'), s => Inv(t, s), states, steps, k);
  }

  /**
   Canary safety: until a pass goes past the canary, no node but the first candidate is tainted or given
   a Job, bar nodes tainted by begin passes whose status write was lost.
   */
  lemma CanaryGoesFirst(t: Taint, states: seq<Fleet>, steps: seq<Step>, k: nat, n: string)
    requires Run(t, states, steps) && k < |states| && states[k].staged && !states[k].widened
    ensures n in Carriers(states[k].nodes, t) && n !in states[k].stray ==> states[k].status.all == [n]
    ensures n in states[k].jobs || n in states[k].status.draining ==> states[k].status.all == [n]
  {
    Reachable(t, states, steps, k);
    var all := states[k].status.all;
    assert n in states[k].status.draining ==> n in Elems(states[k].status.draining);
    if n in Elems(all) {
      assert all == [all[0]];
    }
  }

  /** A pass goes past the canary only after its node has completed, none failed, and nobody asked to hold. */
  lemma WidensAfterCanary(t: Taint, states: seq<Fleet>, steps: seq<Step>, k: nat)
    requires Run(t, states, steps) && k < |steps| && !states[k].widened && states[k + 1].widened
    ensures var s := states[k];
      && s.status.state.CanaryDone? && !s.spec.hold && s.staged && s.status.failed == []
      && |s.status.all| == 1 && s.status.all[0] in s.status.completed
  {
    Reachable(t, states, steps, k);
    var next := (s, step, s') => Next(t, s, step, s');
    assert next(states[k], steps[k], states[k + 1]);
    var st := states[k].status;
    assert st.all[0] in Elems(st.all);
  }

  lemma OnlyChecksComplete(spec: Spec, st: Status, a: Answers)
    ensures var e := Handle(spec, st, a);
      e.status.completed == st.completed || (a.jobs.Some? && e == ContinueJobs(spec, st, a))
  {
  }

  /** A node counted as completed was seen, in some earlier pass, with a succeeded Job and the tag in its log. */
  lemma {:induction false} CompletedHasEvidence(t: Taint, states: seq<Fleet>, steps: seq<Step>, k: nat, n: string)
    requires Run(t, states, steps) && k < |states| && n in states[k].status.completed
    ensures exists j ::
      0 <= j < k && steps[j].Pass? && steps[j].answers.jobs.Some? && Tagged(steps[j].answers.jobs.value, n)
  {
    if k > 0 {
      var next := (s, step, s') => Next(t, s, step, s');
      assert next(states[k - 1], steps[k - 1], states[k]);
      if n in states[k - 1].status.completed {
        CompletedHasEvidence(t, states, steps, k - 1, n);
      } else {
        NewlyCompleted(t, states[k - 1], steps[k - 1], states[k], n);
      }
    }
  }

  lemma NewlyCompleted(t: Taint, s: Fleet, step: Step, s': Fleet, n: string)
    requires Next(t, s, step, s') && n in s'.status.completed && n !in s.status.completed
    ensures step.Pass? && step.answers.jobs.Some? && Tagged(step.answers.jobs.value, n)
  {
    OnlyChecksComplete(s.spec, s.status, step.answers);
    CheckJudgesExactly(s.spec, s.status, step.answers, n);
  }

  /** What `completed` promises, and exactly which of the update's taints can be left. */
  lemma CompletedMeansDone(t: Taint, states: seq<Fleet>, steps: seq<Step>, k: nat)
    requires Run(t, states, steps) && k < |states| && states[k].status.state.Completed?
    ensures var s, st := states[k], states[k].status;
      && st.pending == [] && st.failed == [] && st.updating == []
      && multiset(st.completed) == multiset(st.all) && st.all != [] && s.jobs == Elems(st.all)
      && Carriers(s.nodes, t) <= s.stray - Elems(st.all)
  {
    Reachable(t, states, steps, k);
    var st := states[k].status;
    DistinctParts(st.all, st.pending);
    forall n ensures n in st.completed <==> n in st.all {
      assert n in Elems(st.completed) <==> n in Elems(st.all);
    }
    SameMembers(st.completed, st.all);
  }

  /** A step in which nobody but the controller touches the taint. */
  ghost predicate OwnNext(t: Taint, s: Fleet, step: Step, s': Fleet) {
    Next(t, s, step, s') && (step.Edit? ==> Carriers(s'.nodes, t) == Carriers(s.nodes, t))
  }

  /** A stray node outside the rollout's scope keeps its taint. */
  ghost predicate StraysHeld(t: Taint, s: Fleet) {
    s.stray - Elems(s.status.all) <= Carriers(s.nodes, t)
  }

  lemma ScopeFacts(spec: Spec, st: Status, a: Answers)
    ensures var e := Handle(spec, st, a);
      && e.freed <= Elems(st.all) && (forall n :: n in e.held ==> a.tainted(n))
      && (st.state.NotStarted? || Elems(st.all) <= Elems(e.status.all))
  {
  }

  lemma PassKeepsStrays(t: Taint, s: Fleet, a: Answers)
    requires ListsOk(s) && StraysHeld(t, s) && Fits(s, a)
    ensures StraysHeld(t, After(t, s, a))
  {
    CarriersAfter(s.nodes, t, Handle(s.spec, s.status, a));
    ScopeFacts(s.spec, s.status, a);
  }

  lemma StraysStayHeld(t: Taint, states: seq<Fleet>, steps: seq<Step>, k: nat)
    requires Run(t, states, steps) && Chain((s, step, s') => OwnNext(t, s, step, s'), states, steps) && k < |states|
    ensures StraysHeld(t, states[k])
  {
    var next := (s, step, s') => OwnNext(t, s, step, s');
    var inv := s => Inv(t, s) && StraysHeld(t, s);
    forall s, step, s' | inv(s) && next(s, step, s') ensures inv(s') {
      NextKeepsInv(t, s, step, s');
      if step.Pass? {
        PassKeepsStrays(t, s, step.answers);
      }
    }
    Always(next, inv, states, steps, k);
  }

  /** When only the controller touches the taint, `completed` leaves exactly the strays outside the scope. */
  lemma LeftBehindExactly(t: Taint, states: seq<Fleet>, steps: seq<Step>, k: nat)
    requires Run(t, states, steps) && Chain((s, step, s') => OwnNext(t, s, step, s'), states, steps)
    requires k < |states| && states[k].status.state.Completed?
    ensures Carriers(states[k].nodes, t) == states[k].stray - Elems(states[k].status.all)
  {
    StraysStayHeld(t, states, steps, k);
    CompletedMeansDone(t, states, steps, k);
  }

  /**
   Before the rollout is widened, the nodes tainted beside the canary are exactly the strays beside it: the
   canary is alone exactly when every begin pass that lost its write had tainted that same node.
   */
  lemma CanaryAloneExactlyWhen(t: Taint, states: seq<Fleet>, steps: seq<Step>, k: nat)
    requires Run(t, states, steps) && Chain((s, step, s') => OwnNext(t, s, step, s'), states, steps)
    requires k < |states| && states[k].staged && !states[k].widened
    ensures var s, all := states[k], Elems(states[k].status.all);
      && Carriers(s.nodes, t) - all == s.stray - all
      && (Carriers(s.nodes, t) <= all <==> s.stray <= all)
  {
    StraysStayHeld(t, states, steps, k);
    Reachable(t, states, steps, k);
    var held, stray, all := Carriers(states[k].nodes, t), states[k].stray, Elems(states[k].status.all);
    assert held - all == stray - all;
    WithinExactly(held, all);
    WithinExactly(stray, all);
  }

  lemma WithinExactly(a: set<string>, b: set<string>)
    ensures a <= b <==> a - b == {}
  {
    if a - b == {} {
      forall x | x in a ensures x in b {
        assert x in a - b || x in b;
      }
    }
  }

  /** A rollout whose first stored status came from its first begin pass leaves no taint behind. */
  lemma NothingLeftBehind(t: Taint, states: seq<Fleet>, steps: seq<Step>, k: nat)
    requires Run(t, states, steps) && k < |states| && states[k].status.state.Completed? && states[k].stray == {}
    ensures Carriers(states[k].nodes, t) == {}
  {
    CompletedMeansDone(t, states, steps, k);
  }

  // ---------------------------------------------------------------- the scope

  function Scope(s: Fleet): seq<string> {
    s.status.all + s.status.pending
  }

  /** beginUpdate fixes the scope to the suitable nodes, in order. */
  lemma BeginFixesScope(t: Taint, s: Fleet, a: Answers)
    requires ListsOk(s) && s.status.state.NotStarted? && !a.deleted && a.verified && a.written
    ensures Scope(After(t, s, a)) == Selected(a.nodes)
  {
    var chosen := Selected(a.nodes);
    if chosen != [] {
      assert chosen[..1] + chosen[1..] == chosen;
    }
    assert chosen + [] == chosen;
  }

  lemma PassKeepsScope(t: Taint, s: Fleet, a: Answers)
    requires !s.status.state.NotStarted?
    ensures Scope(After(t, s, a)) == Scope(s) && !After(t, s, a).status.state.NotStarted?
  {
    var st := s.status;
    assert (st.all + st.pending) + [] == st.all + st.pending;
  }

  lemma NextKeepsScope(t: Taint, s: Fleet, step: Step, s': Fleet)
    requires Next(t, s, step, s') && !s.status.state.NotStarted?
    ensures Scope(s') == Scope(s) && !s'.status.state.NotStarted?
  {
    if step.Pass? {
      PassKeepsScope(t, s, step.answers);
    }
  }

  /** All + Pending is one constant sequence from the start of the rollout on. */
  lemma {:induction false} ScopeIsConstant(t: Taint, states: seq<Fleet>, steps: seq<Step>, i: nat, j: nat)
    requires Chain((s, step, s') => Next(t, s, step, s'), states, steps)
    requires i <= j < |states| && !states[i].status.state.NotStarted?
    ensures Scope(states[j]) == Scope(states[i]) && !states[j].status.state.NotStarted?
    decreases j - i
  {
    if i < j {
      ScopeIsConstant(t, states, steps, i, j - 1);
      var next := (s, step, s') => Next(t, s, step, s');
      assert next(states[j - 1], steps[j - 1], states[j]);
      NextKeepsScope(t, states[j - 1], steps[j - 1], states[j]);
    }
  }

  // ---------------------------------------------------------------- termination

  /** How many state changes are still possible. */
  function Rank(st: Status): nat {
    match st.state
    case NotStarted => 7
    case Draining => if st.pending != [] then 6 else 3
    case Updating => if st.pending != [] then 5 else 2
    case CanaryDone => 4
    case Cleanup => 1
    case ErrorCleanup => 1
    case Completed => 0
    case Error => 0
    case Unknown(_) => 0
  }

  lemma HandleLowersRank(spec: Spec, st: Status, a: Answers)
    ensures var e := Handle(spec, st, a);
      e.writes ==> Rank(e.status) < Rank(st) || (e.status.state == st.state && e.status.pending == st.pending)
  {
  }

  lemma PassLowersRank(t: Taint, s: Fleet, a: Answers)
    ensures var s' := After(t, s, a);
      && Rank(s'.status) <= Rank(s.status)
      && (s'.status.state != s.status.state ==> Rank(s'.status) < Rank(s.status))
  {
    HandleLowersRank(s.spec, s.status, a);
  }

  function Changes(states: seq<Fleet>): nat {
    if |states| < 2 then 0
    else
      var i := |states| - 1;
      Changes(states[..i]) + (if states[i].status.state != states[i - 1].status.state then 1 else 0)
  }

  lemma {:induction false} ChangesBounded(t: Taint, states: seq<Fleet>, steps: seq<Step>, n: nat)
    requires Run(t, states, steps) && n < |states|
    ensures Changes(states[..n + 1]) + Rank(states[n].status) <= 7
  {
    if n > 0 {
      ChangesBounded(t, states, steps, n - 1);
      Reachable(t, states, steps, n - 1);
      var next := (s, step, s') => Next(t, s, step, s');
      assert next(states[n - 1], steps[n - 1], states[n]);
      assert states[..n + 1][..n] == states[..n];
      if steps[n - 1].Pass? {
        PassLowersRank(t, states[n - 1], steps[n - 1].answers);
      }
    }
  }

  /** However long it runs, a rollout changes state at most seven times. */
  lemma AtMostSevenChanges(t: Taint, states: seq<Fleet>, steps: seq<Step>)
    requires Run(t, states, steps)
    ensures Changes(states) <= 7
  {
    assert states[..|states|] == states;
    ChangesBounded(t, states, steps, |states| - 1);
  }

  lemma {:induction false} RankFalls(t: Taint, states: seq<Fleet>, steps: seq<Step>, i: nat, j: nat)
    requires Run(t, states, steps) && i <= j < |states|
    ensures Rank(states[j].status) <= Rank(states[i].status)
    decreases j - i
  {
    if i < j {
      RankFalls(t, states, steps, i, j - 1);
      Reachable(t, states, steps, j - 1);
      var next := (s, step, s') => Next(t, s, step, s');
      assert next(states[j - 1], steps[j - 1], states[j]);
      if steps[j - 1].Pass? {
        PassLowersRank(t, states[j - 1], steps[j - 1].answers);
      }
    }
  }

  /** canary_done is entered at most once, final states are never left, and no state is unknown. */
  lemma CanaryDoneOnce(t: Taint, states: seq<Fleet>, steps: seq<Step>, i: nat, k: nat, j: nat)
    requires Run(t, states, steps) && i <= k <= j < |states|
    ensures states[i].status.state.CanaryDone? && states[j].status.state.CanaryDone? ==>
      states[k].status.state.CanaryDone?
    ensures Rank(states[i].status) == 0 ==> Rank(states[k].status) == 0
    ensures !states[k].status.state.Unknown?
  {
    RankFalls(t, states, steps, i, k);
    RankFalls(t, states, steps, k, j);
    Reachable(t, states, steps, k);
  }

  /** After the pass that ends a rollout, which nodes in scope keep the taint. */
  lemma LastPassReleases(t: Taint, s: Fleet, a: Answers, n: string)
    requires Fits(s, a) && Rank(s.status) > 0 && Rank(After(t, s, a).status) == 0 && n in After(t, s, a).status.all
    ensures n in Carriers(After(t, s, a).nodes, t) <==>
      && (n in Carriers(s.nodes, t) || n in Handle(s.spec, s.status, a).held)
      && !(Finishes(s.status.state, a.deleted) && a.untainted(n))
  {
    CarriersAfter(s.nodes, t, Handle(s.spec, s.status, a));
    FreedExactly(s.spec, s.status, a);
    HandleLowersRank(s.spec, s.status, a);
  }

  lemma FreedExactly(spec: Spec, st: Status, a: Answers)
    ensures var e := Handle(spec, st, a);
      && e.freed == (if Finishes(st.state, a.deleted) then FreedOf(st.all, a) else {})
      && (Finishes(st.state, a.deleted) ==> e.status.all == st.all)
      && (forall n :: n in e.held ==> a.tainted(n))
  {
  }

  // ---------------------------------------------------------------- progress

  /** Everything the pass asks for is granted, no pod is in the way and every Job is done. */
  ghost predicate Favourable(s: Fleet, a: Answers) {
    && Fits(s, a) && !a.deleted && a.verified && a.written && !s.spec.hold
    && Selected(a.nodes) != []
    && (forall n :: n in Selected(a.nodes) || n in s.status.pending ==> a.tainted(n))
    && (forall n :: n in s.status.all ==> a.untainted(n))
    && (forall n :: a.pods(n) == Some(0) && a.creation(n) != Refused)
    && a.jobs.Some? && (forall i :: 0 <= i < |a.jobs.value| ==> Judge(a.jobs.value[i]) == Done)
  }

  /** Favourable passes still needed. */
  function ToGo(st: Status): nat {
    match st.state
    case NotStarted => 9
    case Draining => if st.pending != [] then 8 else 4
    case Updating => (if st.pending != [] then 6 else 2) + (if st.updating == [] then 1 else 0)
    case CanaryDone => 5
    case Cleanup => 1
    case _ => 0
  }

  ghost predicate Healthy(s: Fleet) {
    ListsOk(s) && !s.status.state.Error? && !s.status.state.ErrorCleanup?
  }

  lemma {:induction false} QuietBusy(nodes: seq<string>, pods: string -> Option<nat>)
    requires forall n :: pods(n) == Some(0)
    ensures Busy(nodes, pods) == []
  {
    if nodes != [] {
      QuietBusy(nodes[..|nodes| - 1], pods);
    }
  }

  lemma GrantedReached(nodes: seq<string>, ok: string -> bool)
    requires forall n :: n in nodes ==> ok(n)
    ensures Reached(nodes, ok) == |nodes|
  {
  }

  lemma AllJobsDone(jobs: seq<JobSeen>, completed: seq<string>, v: Verdict)
    requires v != Done && forall i :: 0 <= i < |jobs| ==> Judge(jobs[i]) == Done
    ensures Judged(jobs, completed, v) == []
  {
    if Judged(jobs, completed, v) != [] {
      JudgedContents(jobs, completed, v, Judged(jobs, completed, v)[0]);
    }
  }

  lemma FavourableBegin(s: Fleet, a: Answers)
    requires Favourable(s, a)
    ensures Begin(s.spec, s.status, a).status.state == Draining
  {
    var chosen := Selected(a.nodes);
    var first := if s.spec.canary then chosen[..1] else chosen;
    assert forall n :: n in first ==> n in chosen;
    GrantedReached(first, a.tainted);
  }

  lemma FavourableStart(s: Fleet, a: Answers)
    requires Favourable(s, a) && Open(s.status)
    ensures var e := StartJobs(s.status, a).status; e == s.status.(updating := e.updating) && e.updating != []
  {
    var st := s.status;
    GrantedReached(Undone(st.all, st.completed), Creates(a));
    UndoneContents(st.all, st.completed);
    var n :| n in st.all && n !in st.completed;
    assert n in Undone(st.all, st.completed);
  }

  lemma FavourableCheck(s: Fleet, a: Answers)
    requires Favourable(s, a)
    ensures var e := ContinueJobs(s.spec, s.status, a);
      && e.writes && e.status.pending == s.status.pending
      && e.status.state == if s.spec.canary && s.status.pending != [] then CanaryDone else Cleanup
  {
    AllJobsDone(a.jobs.value, s.status.completed, Broken);
    AllJobsDone(a.jobs.value, s.status.completed, Running);
  }

  lemma FavourablePassAdvances(t: Taint, s: Fleet, a: Answers)
    requires Healthy(s) && Favourable(s, a)
    ensures var s' := After(t, s, a); Healthy(s') && (ToGo(s'.status) < ToGo(s.status) || s'.status.state.Completed?)
  {
    PassKeepsLists(t, s, a);
    var st := s.status;
    match st.state
    case NotStarted => FavourableBegin(s, a);
    case Draining => QuietBusy(st.draining, a.pods);
    case Updating =>
      if st.updating == [] {
        FavourableStart(s, a);
      } else {
        FavourableCheck(s, a);
      }
    case CanaryDone => GrantedReached(st.pending, a.tainted);
    case Cleanup =>
      assert AllFreed(st.all, a, |st.all|);
      FreedAll(st.all, a);
    case _ =>
  }

  ghost predicate FavouredNext(t: Taint, s: Fleet, step: Step, s': Fleet) {
    step.Pass? && Favourable(s, step.answers) && Next(t, s, step, s')
  }

  /** From any healthy reachable state, nine favourable passes in a row complete the rollout. */
  lemma FavourableRunCompletes(t: Taint, states: seq<Fleet>, steps: seq<Step>, k: nat)
    requires Chain((s, step, s') => FavouredNext(t, s, step, s'), states, steps)
    requires Healthy(states[0]) && 9 <= k < |states|
    ensures states[k].status.state.Completed?
  {
    var next := (s, step, s') => FavouredNext(t, s, step, s');
    var healthy := s => Healthy(s);
    var left := (s: Fleet) => ToGo(s.status);
    forall s, step, s' | healthy(s) && next(s, step, s') ensures healthy(s') && (left(s') < left(s) || left(s') == 0) {
      FavourablePassAdvances(t, s, step.answers);
    }
    Falls(next, healthy, left, states, steps, k);
    Always(next, healthy, states, steps, k);
  }
}
