/** A node's guards over every sequence of pod turns and forgets. */
module XpumRuns {
  import opened Prelude
  import opened DeviceRecord
  import opened XpumRefresh
  import opened Runs

  datatype Step = Forget | Pod(pod: PodSeen, states: States, mode: Mode)

  /**
   History beside the guards: the deletions since the node was last forgotten, and since a pod was last found in
   order.
   */
  datatype Life = Life(guard: Guard, log: seq<Time>, spent: nat)

  /** A pod whose record is compared with the node's devices. */
  predicate Compared(step: Step) {
    step.Pod? && step.pod.running && step.pod.record.Some?
  }

  function HeldBy(step: Step): set<string>
    requires Compared(step)
  {
    Parsed(step.pod.record.value)
  }

  function Reaction(g: Guard, step: Step): (Guard, Reason, Outcome)
    requires Compared(step)
  {
    Refreshed(g, step.states, HeldBy(step), step.mode, step.pod.restart)
  }

  predicate Deletes(g: Guard, step: Step) {
    Compared(step) && Reaction(g, step).1 != NoReason && Reaction(g, step).2 == Done
  }

  predicate InOrder(g: Guard, step: Step) {
    Compared(step) && Reaction(g, step).1 == NoReason
  }

  function Turned(s: Life, step: Step): Life {
    if step.Forget? then Life(Guard(None, 0, {}), [], 0)
    else
      Life(PodTurn(s.guard, step.pod, step.states, step.mode).guard,
           if Deletes(s.guard, step) then s.log + [step.pod.restart.stamp] else s.log,
           if InOrder(s.guard, step) then 0 else if Deletes(s.guard, step) then s.spent + 1 else s.spent)
  }

  ghost predicate Next(s: Life, step: Step, s': Life) {
    s' == Turned(s, step) && (step.Pod? ==> step.pod.restart.now <= step.pod.restart.stamp)
  }

  ghost predicate Run(states: seq<Life>, steps: seq<Step>) {
    Chain((s, t, s') => Next(s, t, s'), states, steps) && states[0] == Life(Guard(None, 0, {}), [], 0)
  }

  /** The turn of pod i, when the pods before it have had theirs. */
  function TurnOf(g: Guard, pods: seq<PodSeen>, states: States, mode: Mode, i: nat): Turn
    requires i < |pods|
  {
    PodTurn(Sweep(g, pods[..i], states, mode).guard, pods[i], states, mode)
  }

  /** Turn k is the first to fail, or none does and k counts the pods. */
  ghost predicate EndsAt(g: Guard, pods: seq<PodSeen>, states: States, mode: Mode, k: nat) {
    && k <= |pods| && (forall i :: 0 <= i < k ==> !TurnOf(g, pods, states, mode, i).failed)
    && (k < |pods| ==> TurnOf(g, pods, states, mode, k).failed)
  }

  ghost predicate AsksAgain(g: Guard, pods: seq<PodSeen>, states: States, mode: Mode) {
    exists i :: 0 <= i < |pods| && TurnOf(g, pods, states, mode, i).requeue
  }

  lemma SameTurns(g: Guard, pods: seq<PodSeen>, states: States, mode: Mode, n: nat, i: nat)
    requires i < n <= |pods|
    ensures TurnOf(g, pods[..n], states, mode, i) == TurnOf(g, pods, states, mode, i)
  {
    assert pods[..n][..i] == pods[..i];
  }

  /** A pass over a node's pods ends with the first turn that fails. */
  lemma {:induction false} SweepEndsAtFailure(g: Guard, pods: seq<PodSeen>, states: States, mode: Mode) returns (k: nat)
    ensures EndsAt(g, pods, states, mode, k)
    ensures Sweep(g, pods, states, mode).failed <==> k < |pods|
    ensures k < |pods| ==> Sweep(g, pods, states, mode).guard == TurnOf(g, pods, states, mode, k).guard
  {
    if pods == [] {
      k := 0;
    } else {
      var n := |pods| - 1;
      k := SweepEndsAtFailure(g, pods[..n], states, mode);
      forall i | 0 <= i < n ensures TurnOf(g, pods[..n], states, mode, i) == TurnOf(g, pods, states, mode, i) {
        SameTurns(g, pods, states, mode, n, i);
      }
      if k == n && !TurnOf(g, pods, states, mode, n).failed {
        k := k + 1;
      }
    }
  }

  /** A pass without failure comes back exactly if some turn asked for it. */
  lemma {:induction false} SweepAsksExactlyWhen(g: Guard, pods: seq<PodSeen>, states: States, mode: Mode)
    requires !Sweep(g, pods, states, mode).failed
    ensures Sweep(g, pods, states, mode).requeue <==> AsksAgain(g, pods, states, mode)
  {
    if pods != [] {
      var n := |pods| - 1;
      SweepAsksExactlyWhen(g, pods[..n], states, mode);
      forall i | 0 <= i < n ensures TurnOf(g, pods[..n], states, mode, i) == TurnOf(g, pods, states, mode, i) {
        SameTurns(g, pods, states, mode, n, i);
      }
      assert Sweep(g, pods, states, mode).requeue <==>
        Sweep(g, pods[..n], states, mode).requeue || TurnOf(g, pods, states, mode, n).requeue;
      if i :| 0 <= i < n && TurnOf(g, pods[..n], states, mode, i).requeue {
        assert TurnOf(g, pods, states, mode, i).requeue;
      }
    }
  }

  /** A pass over a node's pods is that many turns. */
  lemma {:induction false} SweepIsTurns(s: Life, pods: seq<PodSeen>, states: States, mode: Mode)
    returns (lives: seq<Life>, steps: seq<Step>)
    requires forall p :: p in pods ==> p.restart.now <= p.restart.stamp
    ensures Chain((s, t, s') => Next(s, t, s'), lives, steps) && lives[0] == s && |steps| <= |pods|
    ensures lives[|steps|].guard == Sweep(s.guard, pods, states, mode).guard
    ensures forall i :: 0 <= i < |steps| ==> steps[i] == Pod(pods[i], states, mode)
    ensures !Sweep(s.guard, pods, states, mode).failed ==> |steps| == |pods|
  {
    if pods == [] {
      lives, steps := [s], [];
    } else {
      var k := |pods| - 1;
      assert forall p :: p in pods[..k] ==> p in pods;
      lives, steps := SweepIsTurns(s, pods[..k], states, mode);
      if !Sweep(s.guard, pods[..k], states, mode).failed {
        var step, last := Pod(pods[k], states, mode), lives[|steps|];
        var next := (s, t, s') => Next(s, t, s');
        assert pods[k] in pods && next(last, step, Turned(last, step));
        Append(next, lives, steps, step, Turned(last, step));
        lives, steps := lives + [Turned(last, step)], steps + [step];
      }
    }
  }

  /** A pod is deleted exactly when there is a reason, budget, no cooldown, a free slot, and the delete goes through. */
  lemma DeletesExactlyWhen(g: Guard, step: Step)
    requires Compared(step)
    ensures var x := step.pod.restart;
      Deletes(g, step) <==>
        && ((exists d :: Usable(step.states, d) && d !in HeldBy(step))
            || (step.mode == Always && exists d :: d in HeldBy(step) && d in g.lost && Usable(step.states, d)))
        && g.attempts < 3 && (g.last.Some? ==> x.now >= g.last.value + 120)
        && x.restarting.Some? && x.restarting.value < 3 && x.deleted
  {
    var missing, rebound := Missing(step.states, HeldBy(step)), Rebound(step.states, HeldBy(step), g.lost);
    if missing != {} {
      var d :| d in missing;
    }
    if rebound != {} {
      var d :| d in rebound;
    }
    assert (exists d :: Usable(step.states, d) && d !in HeldBy(step)) ==> missing != {} by {
      if d :| Usable(step.states, d) && d !in HeldBy(step) {
        assert d in missing;
      }
    }
    assert (exists d :: d in HeldBy(step) && d in g.lost && Usable(step.states, d)) ==> rebound != {} by {
      if d :| d in HeldBy(step) && d in g.lost && Usable(step.states, d) {
        assert d in rebound;
      }
    }
  }

  /** There is something to restart for: a usable GPU the pod lacks, or, if asked for, one that came back. */
  ghost predicate HasCause(g: Guard, step: Step)
    requires Compared(step)
  {
    || (exists d :: Usable(step.states, d) && d !in HeldBy(step))
    || (step.mode == Always && exists d :: d in HeldBy(step) && d in g.lost && Usable(step.states, d))
  }

  lemma CauseIsReason(g: Guard, step: Step)
    requires Compared(step)
    ensures HasCause(g, step) <==> Reaction(g, step).1 != NoReason
  {
    var missing, rebound := Missing(step.states, HeldBy(step)), Rebound(step.states, HeldBy(step), g.lost);
    if d :| Usable(step.states, d) && d !in HeldBy(step) {
      assert d in missing;
    }
    if d :| d in HeldBy(step) && d in g.lost && Usable(step.states, d) {
      assert d in rebound;
    }
    if missing != {} {
      var d :| d in missing;
    }
    if rebound != {} {
      var d :| d in rebound;
    }
  }

  /** When the controller comes back for a pod and when it reports an error, for each kind of pod. */
  lemma TurnExactly(g: Guard, step: Step)
    requires step.Pod?
    ensures var t, pod, x := PodTurn(g, step.pod, step.states, step.mode), step.pod, step.pod.restart;
      var cool := g.last.Some? ==> x.now >= g.last.value + 120;
      && (!pod.running ==> t == Turn(g, false, false))
      && (pod.running && pod.record == None ==>
            && t.guard == g
            && (t.failed <==> (exists c :: c in pod.claims && c.named && !c.fetched)
                              || (!pod.patched && exists c :: c in pod.claims && c.named && c.allocation != None))
            && (t.requeue <==> forall c :: c in pod.claims && c.named ==> c.fetched && c.allocation == None))
      && (Compared(step) ==>
            && (t.requeue <==> HasCause(g, step) && g.attempts < 3
                               && (!cool || (x.restarting.Some? && x.restarting.value >= 3)))
            && (t.failed <==> HasCause(g, step) && g.attempts < 3 && cool
                              && (x.restarting == None || (x.restarting.value < 3 && !x.deleted))))
  {
    if Compared(step) {
      CauseIsReason(g, step);
    }
  }

  // ---------------------------------------------------------------- spacing and budget

  ghost predicate Spaced(log: seq<Time>) {
    forall i :: 0 < i < |log| ==> log[i - 1] + RESTART_COOLDOWN <= log[i]
  }

  ghost predicate Budgeted(s: Life) {
    && s.guard.last == (if s.log == [] then None else Some(s.log[|s.log| - 1]))
    && Spaced(s.log) && s.spent == s.guard.attempts <= MAX_RESTART_ATTEMPTS
  }

  lemma TurnKeepsBudget(s: Life, step: Step, s': Life)
    requires Budgeted(s) && Next(s, step, s')
    ensures Budgeted(s')
  {
  }

  /**
   Between two forgets, pod deletions on a node are a cooldown apart and at most three come without a pod found
   in order.
   */
  lemma DeletionsAreRationed(states: seq<Life>, steps: seq<Step>, n: nat)
    requires Run(states, steps) && n < |states|
    ensures states[n].spent <= 3
    ensures forall i, j :: 0 <= i < j < |states[n].log| ==> states[n].log[i] + 120 * (j - i) <= states[n].log[j]
  {
    var next, inv := (s, t, s') => Next(s, t, s'), s => Budgeted(s);
    forall s, t, s' | inv(s) && next(s, t, s') ensures inv(s') {
      TurnKeepsBudget(s, t, s');
    }
    Runs.Always(next, inv, states, steps, n);
    forall i, j | 0 <= i < j < |states[n].log|
      ensures states[n].log[i] + RESTART_COOLDOWN * (j - i) <= states[n].log[j]
    {
      SpacedApart(states[n].log, i, j);
    }
  }

  lemma {:induction false} SpacedApart(log: seq<Time>, i: nat, j: nat)
    requires Spaced(log) && i < j < |log|
    ensures log[i] + RESTART_COOLDOWN * (j - i) <= log[j]
    decreases j
  {
    if i + 1 < j {
      SpacedApart(log, i, j - 1);
    }
  }

  // ---------------------------------------------------------------- rebind edges

  predicate SawUnusable(step: Step, d: string) {
    Compared(step) && d in HeldBy(step) && Unusable(step.states, d)
  }

  predicate ReboundAt(g: Guard, step: Step, d: string) {
    Compared(step) && d in Rebound(step.states, HeldBy(step), g.lost)
  }

  predicate RebindRestart(g: Guard, step: Step, d: string) {
    Deletes(g, step) && Reaction(g, step).1 == Rebind && ReboundAt(g, step, d)
  }

  /** The turn deals with the edge: it restarts or gives up for it, or the mode leaves it to the pod. */
  predicate Consumes(g: Guard, step: Step, d: string) {
    && ReboundAt(g, step, d) && Missing(step.states, HeldBy(step)) == {}
    && (step.mode == Always ==>
          RestartOutcome(g, step.pod.restart) == Done || RestartOutcome(g, step.pod.restart) == Abandoned)
  }

  /** An edge is set exactly by seeing a held device unusable, and dropped exactly when dealt with or forgotten. */
  lemma EdgeMovesExactlyWhen(s: Life, step: Step, d: string)
    ensures d in Turned(s, step).guard.lost <==>
      !step.Forget? && ((d in s.guard.lost && !Consumes(s.guard, step, d)) || SawUnusable(step, d))
  {
  }

  /** An edge that appeared was set by some turn, and nothing dropped it since. */
  lemma {:induction false} EdgeWasSet(states: seq<Life>, steps: seq<Step>, i: nat, j: nat, d: string) returns (k: nat)
    requires Chain((s, t, s') => Next(s, t, s'), states, steps) && i <= j < |states|
    requires d !in states[i].guard.lost && d in states[j].guard.lost
    ensures i <= k < j && SawUnusable(steps[k], d)
    ensures forall m :: k < m < j ==> !steps[m].Forget? && !Consumes(states[m].guard, steps[m], d)
    decreases j
  {
    var next := (s, t, s') => Next(s, t, s');
    assert next(states[j - 1], steps[j - 1], states[j]);
    EdgeMovesExactlyWhen(states[j - 1], steps[j - 1], d);
    if SawUnusable(steps[j - 1], d) {
      k := j - 1;
    } else {
      k := EdgeWasSet(states, steps, i, j - 1, d);
    }
  }

  /** Two rebind restarts naming the same device have a turn between them that saw it published and unusable. */
  lemma RebindsAreSeparated(states: seq<Life>, steps: seq<Step>, i: nat, j: nat, d: string)
    requires Chain((s, t, s') => Next(s, t, s'), states, steps) && i < j < |steps|
    requires RebindRestart(states[i].guard, steps[i], d) && RebindRestart(states[j].guard, steps[j], d)
    ensures exists k :: i < k < j && SawUnusable(steps[k], d)
  {
    var next := (s, t, s') => Next(s, t, s');
    assert next(states[i], steps[i], states[i + 1]);
    EdgeMovesExactlyWhen(states[i], steps[i], d);
    var k := EdgeWasSet(states, steps, i + 1, j, d);
  }

  /** Every rebind restart goes back to such a turn, with no forget in between. */
  lemma RebindHasCause(states: seq<Life>, steps: seq<Step>, j: nat, d: string)
    requires Run(states, steps) && j < |steps| && RebindRestart(states[j].guard, steps[j], d)
    ensures exists k :: 0 <= k < j && SawUnusable(steps[k], d) && forall m :: k < m < j ==> !steps[m].Forget?
  {
    var k := EdgeWasSet(states, steps, 0, j, d);
  }

  /** Whatever defers or fails meanwhile, an edge nobody dealt with is reported again. */
  lemma {:induction false} DeferralKeepsEdge(states: seq<Life>, steps: seq<Step>, i: nat, j: nat, d: string)
    requires Chain((s, t, s') => Next(s, t, s'), states, steps) && i <= j < |steps|
    requires d in states[i].guard.lost
    requires forall m :: i <= m < j ==> !steps[m].Forget? && !Consumes(states[m].guard, steps[m], d)
    ensures Compared(steps[j]) && d in HeldBy(steps[j]) && Usable(steps[j].states, d) ==>
      ReboundAt(states[j].guard, steps[j], d)
    ensures d in states[j].guard.lost
    decreases j
  {
    if i < j {
      DeferralKeepsEdge(states, steps, i, j - 1, d);
      var next := (s, t, s') => Next(s, t, s');
      assert next(states[j - 1], steps[j - 1], states[j]);
      EdgeMovesExactlyWhen(states[j - 1], steps[j - 1], d);
    }
  }

  /** In Always mode, a turn that puts the restart off consumes nothing. */
  lemma DeferredConsumesNothing(g: Guard, step: Step, d: string)
    requires Compared(step) && step.mode == Always && Reaction(g, step).1 != NoReason
    requires Reaction(g, step).2 == Deferred || Reaction(g, step).2 == Failed
    ensures !Consumes(g, step, d)
  {
  }
}
