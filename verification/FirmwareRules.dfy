/**
 The rollout's transitions, told by what the cluster answers: for every state, which answers lead to which next state
 and what is done on the way. And what follows for whole rollouts: no node is flashed under running GPU pods.
 */
module FirmwareRules {
  import opened Prelude
  import opened NodeTaints
  import opened FirmwareUpdate
  import opened FirmwareRuns
  import opened Runs

  // ---------------------------------------------------------------- the conditions

  /** A node the rollout takes on: not going away, and not reported unready. */
  ghost predicate Fit(n: NodeSeen) {
    !n.deleting && !exists i :: 0 <= i < |n.conditions| && n.conditions[i] == Condition("Ready", false)
  }

  ghost predicate FitAndNamed(a: Answers, n: string) {
    a.nodes.Some? && exists x :: x in a.nodes.value && x.name == n && Fit(x)
  }

  /** No GPU pod is left on the node. */
  ghost predicate Empty(a: Answers, n: string) {
    a.pods(n) == Some(0)
  }

  /** The node's GPU pods could be listed, and asked to leave if there are any. */
  ghost predicate Leaving(a: Answers, n: string) {
    Empty(a, n) || (a.pods(n) != None && a.evicted(n))
  }

  lemma FitIsSuitable(x: NodeSeen)
    ensures Fit(x) <==> Suitable(x)
  {
    if c :| c in x.conditions && c.kind == "Ready" && !c.isTrue {
      var i :| 0 <= i < |x.conditions| && x.conditions[i] == c;
      assert x.conditions[i] == Condition("Ready", false);
    }
    if i :| 0 <= i < |x.conditions| && x.conditions[i] == Condition("Ready", false) {
      assert x.conditions[i] in x.conditions;
    }
  }

  lemma SelectedAreFit(a: Answers, n: string)
    ensures n in Selected(a.nodes) <==> FitAndNamed(a, n)
  {
    if a.nodes.Some? {
      var nodes := a.nodes.value;
      CandidatesContents(nodes, n);
      if x :| x in nodes && x.name == n && Fit(x) {
        var i :| 0 <= i < |nodes| && nodes[i] == x;
        FitIsSuitable(x);
      }
      if i :| 0 <= i < |nodes| && nodes[i].name == n && Suitable(nodes[i]) {
        FitIsSuitable(nodes[i]);
        assert nodes[i] in nodes;
      }
    }
  }

  lemma LeavingIsEmptied(a: Answers, n: string)
    ensures Leaving(a, n) <==> Emptied(a, n)
  {
  }

  lemma ReachedAll(nodes: seq<string>, ok: string -> bool)
    ensures Reached(nodes, ok) == |nodes| <==> forall n :: n in nodes ==> ok(n)
  {
    if Reached(nodes, ok) < |nodes| {
      assert nodes[Reached(nodes, ok)] in nodes;
    }
  }

  lemma DrainStartedIs(a: Answers, nodes: seq<string>)
    ensures DrainStarted(a, nodes) <==> forall n :: n in nodes ==> a.tainted(n) && Leaving(a, n)
  {
    ReachedAll(nodes, a.tainted);
  }

  lemma BusyAre(nodes: seq<string>, a: Answers, n: string)
    requires forall x :: x in nodes ==> Leaving(a, x)
    ensures n in Busy(nodes, a.pods) <==> n in nodes && !Empty(a, n)
  {
    BusyContents(nodes, a.pods);
  }

  lemma NoneBusy(nodes: seq<string>, a: Answers)
    requires forall x :: x in nodes ==> Leaving(a, x)
    ensures Busy(nodes, a.pods) == [] <==> forall n :: n in nodes ==> Empty(a, n)
  {
    forall n ensures n in Busy(nodes, a.pods) <==> n in nodes && !Empty(a, n) {
      BusyAre(nodes, a, n);
    }
    if Busy(nodes, a.pods) != [] {
      assert Busy(nodes, a.pods)[0] in Busy(nodes, a.pods);
    }
  }

  // ---------------------------------------------------------------- the transitions

  /** Nothing is done to the cluster, and nothing changes but what is named. */
  ghost predicate OnlyStatus(e: Effect) {
    e.held == {} && e.freed == {} && e.jobs == {}
  }

  ghost predicate Begun(spec: Spec, st: Status, a: Answers, e: Effect) {
    && (forall n :: n in e.status.all || (spec.canary && n in e.status.pending) <==> FitAndNamed(a, n))
    && (if spec.canary then |e.status.all| == 1 else e.status.pending == st.pending)
    && e.held == Elems(e.status.all)
    && (forall n :: n in e.status.draining <==> n in e.status.all && !Empty(a, n))
  }

  /**
   A rollout begins exactly when its image is verified, some node is fit, and every node of the first batch is
   tainted and leaving; the batch is one canary, or everything.
   */
  lemma BeginMovesExactly(spec: Spec, st: Status, a: Answers)
    requires st.state == NotStarted
    ensures var e := Handle(spec, st, a);
      && e.writes && e.jobs == {} && (e.status.state == Draining || e.status.state == Error)
      && (e.status.state == Draining <==>
            && !a.deleted && a.verified && (exists n :: FitAndNamed(a, n))
            && forall n :: n in e.status.all ==> a.tainted(n) && Leaving(a, n))
      && (e.status.state == Draining ==> Begun(spec, st, a, e))
      && (!a.deleted && !a.verified ==> OnlyStatus(e) && e.status == st.(state := Error))
  {
    if !a.deleted && a.verified {
      var chosen := Selected(a.nodes);
      forall n ensures n in chosen <==> FitAndNamed(a, n) {
        SelectedAreFit(a, n);
      }
      var first := if spec.canary && chosen != [] then chosen[..1] else chosen;
      DrainStartedIs(a, first);
      ReachedAll(first, a.tainted);
      assert chosen != [] ==> chosen[0] in chosen && chosen[0] in first;
      assert chosen != [] ==> chosen == chosen[..1] + chosen[1..];
      if DrainStarted(a, first) {
        assert first[..|first|] == first;
        forall n ensures n in Busy(first, a.pods) <==> n in first && !Empty(a, n) {
          BusyAre(first, a, n);
        }
      }
    }
  }

  /** Updating starts exactly when no node that is being drained has a GPU pod left. */
  lemma DrainMovesExactly(spec: Spec, st: Status, a: Answers)
    requires st.state == Draining && !a.deleted
    ensures var e := Handle(spec, st, a);
      && e.writes && OnlyStatus(e) && e.status == st.(state := e.status.state, draining := e.status.draining)
      && (e.status.state == Updating <==> forall n :: n in st.draining ==> Empty(a, n))
      && (e.status.state == Error <==> exists n :: n in st.draining && !Leaving(a, n))
      && (e.status.state != Error ==>
            && (e.status.state == Draining || e.status.state == Updating)
            && forall n :: n in e.status.draining <==> n in st.draining && !Empty(a, n))
  {
    if forall n :: n in st.draining ==> Leaving(a, n) {
      NoneBusy(st.draining, a);
      forall n ensures n in Busy(st.draining, a.pods) <==> n in st.draining && !Empty(a, n) {
        BusyAre(st.draining, a, n);
      }
    } else {
      var n :| n in st.draining && !Leaving(a, n);
      assert !Emptied(a, n);
    }
  }

  /** Jobs are made for the nodes in scope that are not completed, all of them unless one is refused. */
  lemma StartMovesExactly(spec: Spec, st: Status, a: Answers)
    requires st.state == Updating && st.updating == []
    ensures var e := Handle(spec, st, a);
      var open := set n | n in st.all && n !in st.completed;
      && e.writes && e.held == {} && e.freed == {} && e.jobs <= open
      && (e.status.state == ErrorCleanup <==> exists n :: n in open && a.creation(n) == Refused)
      && (e.status.state != ErrorCleanup ==>
            e.jobs == open == Elems(e.status.updating) && e.status == st.(updating := e.status.updating))
      && (e.status.state == ErrorCleanup ==> e.status == st.(state := ErrorCleanup))
  {
    var todo := Undone(st.all, st.completed);
    UndoneContents(st.all, st.completed);
    ReachedAll(todo, Creates(a));
    assert forall n :: n in todo[..Reached(todo, Creates(a))] ==> n in todo;
  }

  /** A check is written exactly when it finds no Job running; what it then leads to, by its verdicts. */
  lemma CheckMovesExactly(spec: Spec, st: Status, a: Answers)
    requires st.state == Updating && st.updating != []
    ensures var e := Handle(spec, st, a);
      && OnlyStatus(e) && e.status.all == st.all && e.status.pending == st.pending && e.status.draining == st.draining
      && (e.writes <==> a.jobs.Some? && !exists n :: n !in st.completed && StillRunning(a.jobs.value, n))
      && (e.writes ==>
            var broken := exists n :: n !in st.completed && FailedOrSilent(a.jobs.value, n);
            e.status.state == if broken then ErrorCleanup
              else if spec.canary && st.pending != [] then CanaryDone else Cleanup)
  {
    if a.jobs.Some? {
      var c := ContinueJobs(spec, st, a).status;
      forall n
        ensures n in c.failed <==> n !in st.completed && FailedOrSilent(a.jobs.value, n)
        ensures n in c.updating <==> n !in st.completed && StillRunning(a.jobs.value, n)
      {
        CheckJudgesExactly(spec, st, a, n);
      }
      assert c.failed != [] ==> c.failed[0] in c.failed;
      assert c.updating != [] ==> c.updating[0] in c.updating;
    }
  }

  /** After the canary: nothing while held, else on to the rest, exactly if all of it is tainted and leaving. */
  lemma CanaryMovesExactly(spec: Spec, st: Status, a: Answers)
    requires st.state == CanaryDone && !a.deleted
    ensures var e := Handle(spec, st, a);
      && e.freed == {} && e.jobs == {}
      && (spec.hold ==> e == Effect(st, false, {}, {}, {}))
      && (!spec.hold && st.pending == [] ==> e == Effect(st.(state := Cleanup), true, {}, {}, {}))
      && (!spec.hold && st.pending != [] ==>
            && e.writes && e.status.all == st.all + st.pending && e.status.pending == []
            && e.status.completed == st.completed
            && (e.status.state == Draining <==>
                  forall n :: n in st.pending ==> a.tainted(n) && Leaving(a, n))
            && (e.status.state != Draining ==> e.status.state == Error)
            && (e.status.state == Draining ==>
                  && e.held == Elems(st.pending)
                  && forall n :: n in e.status.draining <==> n in st.pending && !Empty(a, n)))
  {
    DrainStartedIs(a, st.pending);
    if DrainStarted(a, st.pending) {
      forall n ensures n in Busy(st.pending, a.pods) <==> n in st.pending && !Empty(a, n) {
        BusyAre(st.pending, a, n);
      }
    }
  }

  /** The last pass: completed exactly out of cleanup, and only if every node in scope lost its taint. */
  lemma FinishMovesExactly(spec: Spec, st: Status, a: Answers)
    requires st.state == Cleanup || st.state == ErrorCleanup
      || (a.deleted && (st.state == NotStarted || st.state == Draining || st.state == CanaryDone))
    ensures var e := Handle(spec, st, a);
      && e.writes && e.held == {} && e.jobs == {} && e.status == st.(state := e.status.state)
      && (forall n :: n in e.freed <==> n in st.all && a.untainted(n))
      && (e.status.state == Completed <==> st.state == Cleanup && forall n :: n in st.all ==> a.untainted(n))
      && (e.status.state != Completed ==> e.status.state == Error)
  {
    var freed := FreedOf(st.all, a);
    assert freed == Elems(st.all) <==> forall n :: n in st.all ==> a.untainted(n) by {
      assert forall n :: n in Elems(st.all) <==> n in st.all;
    }
  }

  // ---------------------------------------------------------------- no Job under running pods

  /** Some pass before step k found no GPU pod on the node. */
  ghost predicate SeenEmpty(steps: seq<Step>, k: nat, n: string) {
    exists j :: 0 <= j < k && j < |steps| && steps[j].Pass? && Empty(steps[j].answers, n)
  }

  /** A node with a Job was seen empty, and so was every node in scope that is not waiting to be drained. */
  ghost predicate FlashedEmpty(s: Fleet, n: string, seen: bool) {
    && (n in s.jobs ==> seen)
    && (n in s.status.all && n !in s.status.draining && s.status.state == Draining ==> seen)
    && (n in s.status.all && (s.status.state in {Updating, CanaryDone, Cleanup}) ==> seen)
  }

  lemma PassKeepsFlashedEmpty(t: Taint, s: Fleet, a: Answers, n: string, seen: bool)
    requires Inv(t, s) && FlashedEmpty(s, n, seen)
    ensures FlashedEmpty(After(t, s, a), n, seen || Empty(a, n))
  {
    var st := s.status;
    if Finishes(st.state, a.deleted) {
      FinishMovesExactly(s.spec, st, a);
    } else {
      match st.state
      case NotStarted => BeginMovesExactly(s.spec, st, a);
      case Draining => DrainMovesExactly(s.spec, st, a);
      case Updating =>
        if st.updating == [] {
          StartMovesExactly(s.spec, st, a);
        } else {
          CheckMovesExactly(s.spec, st, a);
        }
      case CanaryDone => CanaryMovesExactly(s.spec, st, a);
      case _ =>
    }
  }

  lemma {:induction false} ReachableFlashedEmpty(t: Taint, states: seq<Fleet>, steps: seq<Step>, k: nat, n: string)
    requires Run(t, states, steps) && k < |states|
    ensures FlashedEmpty(states[k], n, SeenEmpty(steps, k, n))
  {
    if k > 0 {
      ReachableFlashedEmpty(t, states, steps, k - 1, n);
      Reachable(t, states, steps, k - 1);
      var next := (s, step, s') => Next(t, s, step, s');
      assert next(states[k - 1], steps[k - 1], states[k]);
      if steps[k - 1].Pass? {
        PassKeepsFlashedEmpty(t, states[k - 1], steps[k - 1].answers, n, SeenEmpty(steps, k - 1, n));
        assert Empty(steps[k - 1].answers, n) ==> SeenEmpty(steps, k, n);
      }
      assert SeenEmpty(steps, k - 1, n) ==> SeenEmpty(steps, k, n);
    }
  }

  /** A node is given its firmware Job only after some pass has found no GPU pod on it. */
  lemma JobsOnlyOnEmptiedNodes(t: Taint, states: seq<Fleet>, steps: seq<Step>, k: nat, n: string)
    requires Run(t, states, steps) && k < |states| && n in states[k].jobs
    ensures exists j :: 0 <= j < k && steps[j].Pass? && steps[j].answers.pods(n) == Some(0)
  {
    ReachableFlashedEmpty(t, states, steps, k, n);
    var j :| 0 <= j < k && j < |steps| && steps[j].Pass? && Empty(steps[j].answers, n);
    assert steps[j].answers.pods(n) == Some(0);
  }
}
