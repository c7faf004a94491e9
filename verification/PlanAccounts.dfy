/**
 Approvals against recoveries: what a pass starts is what it takes from the stored list, over edits and lost
 writes.
 */
module PlanAccounts {
  import opened Prelude
  import opened RecoveryEvents
  import opened Approvals
  import opened ApprovalMerge
  import opened Reconciler
  import opened Runs
  import opened PlanRuns

  lemma {:induction false} PrunedContents(s: seq<Approval>, referenced: set<string>)
    ensures forall a :: a in Pruned(s, referenced) <==> a in s && !Prunable(a, referenced)
  {
    if s != [] {
      var n := |s| - 1;
      PrunedContents(s[..n], referenced);
      assert forall a :: a in s <==> a in s[..n] || a == s[n];
    }
  }

  lemma ConsumedMember(s: seq<Approval>, id: string)
    ensures id in ConsumedIds(s) <==> exists a :: a in s && a.consumed && a.id == id
  {
    if id in ConsumedIds(s) {
      var i :| 0 <= i < |s| && s[i].consumed && s[i].id == id;
      assert s[i] in s;
    }
  }

  /** What a pass newly marks consumed in its copy is what it spent; pruning takes none of it back. */
  lemma PassConsumes(op: Operator, p: Pass)
    requires ValidPass(op, p) && Admissible(p.approvals)
    ensures Diff(p.approvals, p.kept).consumed == SpentIds(p.outcomes)
  {
    var spent := SpentIds(p.outcomes);
    forall id ensures id in Diff(p.approvals, p.kept).consumed <==> id in spent {
      PassConsumesId(op, p, id);
    }
  }

  lemma PassConsumesId(op: Operator, p: Pass, id: string)
    requires ValidPass(op, p) && Admissible(p.approvals)
    ensures id in Diff(p.approvals, p.kept).consumed <==> id in SpentIds(p.outcomes)
  {
    var spent, referenced := SpentIds(p.outcomes), ReferencedIds(p.synced);
    if id in spent {
      var i :| 0 <= i < |p.outcomes| && p.outcomes[i].Started? && !p.outcomes[i].approval.persistent
        && p.outcomes[i].approval.id == id;
      var k := StartedUnder(op, p, i);
      SpentIsConsumed(p.approvals, spent, referenced, k);
    } else {
      UnspentIsNot(p.approvals, spent, referenced, id);
    }
  }

  lemma SpentIsConsumed(s: seq<Approval>, spent: set<string>, referenced: set<string>, k: nat)
    requires UniqueIds(s) && k < |s| && s[k].id in spent && s[k].id in referenced && !s[k].consumed
    ensures s[k].id in Diff(s, Pruned(Spend(s, spent), referenced)).consumed
  {
    PrunedContents(Spend(s, spent), referenced);
    SpendMarks(s, spent);
    ConsumedMember(Pruned(Spend(s, spent), referenced), s[k].id);
    assert Spend(s, spent)[k] in Spend(s, spent);
    forall a | a in s && a.id == s[k].id ensures !a.consumed {
      SameIdSameApproval(s, a, s[k]);
    }
    ConsumedMember(s, s[k].id);
  }

  lemma UnspentIsNot(s: seq<Approval>, spent: set<string>, referenced: set<string>, id: string)
    requires id !in spent
    ensures id !in Diff(s, Pruned(Spend(s, spent), referenced)).consumed
  {
    PrunedContents(Spend(s, spent), referenced);
    ConsumedMember(Pruned(Spend(s, spent), referenced), id);
    ConsumedMember(s, id);
    forall a | a in Spend(s, spent) && a.id == id ensures a in s {
      var k :| 0 <= k < |s| && Spend(s, spent)[k] == a;
      assert s[k] == a;
    }
  }

  /** The approval an event started under: listed, unspent until now, and still referred to at the end of the pass. */
  lemma StartedUnder(op: Operator, p: Pass, i: nat) returns (k: nat)
    requires ValidPass(op, p) && Admissible(p.approvals) && i < |p.outcomes| && p.outcomes[i].Started?
    ensures k < |p.approvals| && p.approvals[k] == p.outcomes[i].approval && !p.approvals[k].consumed
    ensures p.approvals[k].id in ReferencedIds(p.synced)
  {
    PhaseFacts(CtxOf(op, p), p.detected, p.inputs.approvals, p.approved, p.outcomes, i);
    PassKeepsKeys(op, p);
    k :| 0 <= k < |p.approvals| && p.approvals[k] == p.outcomes[i].approval;
    assert p.synced[i].approvalId == p.approvals[k].id;
  }

  /** A one-shot approval some event started under, and none is held back under. */
  ghost predicate UsedUp(p: Pass, a: Approval) {
    !a.persistent && Started(a) in p.outcomes && HeldBack(a) !in p.outcomes
  }

  /** A consumed one-shot approval that no event left by the pass refers to. */
  ghost predicate DoneWith(p: Pass, a: Approval) {
    a.consumed && !a.persistent && forall e :: e in p.synced ==> e.approvalId != a.id
  }

  /** What a pass leaves of the approvals: those it is not done with, the used-up ones marked. */
  lemma KeptExactly(op: Operator, p: Pass, a: Approval)
    requires ValidPass(op, p) && Admissible(p.approvals)
    ensures a in p.kept <==>
      && !DoneWith(p, a)
      && exists b :: b in p.approvals && a == if UsedUp(p, b) then b.(consumed := true) else b
  {
    var spent := Spend(p.approvals, SpentIds(p.outcomes));
    PrunedContents(spent, ReferencedIds(p.synced));
    forall k | 0 <= k < |p.approvals|
      ensures spent[k] == if UsedUp(p, p.approvals[k]) then p.approvals[k].(consumed := true) else p.approvals[k]
    {
      MarkedExactly(op, p, k);
    }
    assert a in spent <==> exists b :: b in p.approvals && a == if UsedUp(p, b) then b.(consumed := true) else b by {
      if b :| b in p.approvals && a == if UsedUp(p, b) then b.(consumed := true) else b {
        var k :| 0 <= k < |p.approvals| && p.approvals[k] == b;
        assert spent[k] == a;
      }
    }
    if a in spent {
      var k :| 0 <= k < |spent| && spent[k] == a;
      assert a.id != "" by {
        assert p.approvals[k] in p.approvals;
      }
      DoneIsPrunable(p, a);
    }
  }

  lemma MarkedExactly(op: Operator, p: Pass, k: nat)
    requires ValidPass(op, p) && Admissible(p.approvals) && k < |p.approvals|
    ensures var b := p.approvals[k];
      Spend(p.approvals, SpentIds(p.outcomes))[k] == if UsedUp(p, b) then b.(consumed := true) else b
  {
    var b := p.approvals[k];
    SpentExactly(CtxOf(op, p), p.detected, p.inputs.approvals, p.approved, p.outcomes, k);
    AmongOutcomes(p.outcomes, b);
    if UsedUp(p, b) {
      UsedWasOpen(op, p, b);
    }
  }

  lemma AmongOutcomes(outcomes: seq<Outcome>, a: Approval)
    ensures Started(a) in outcomes <==> exists i :: 0 <= i < |outcomes| && outcomes[i] == Started(a)
    ensures HeldBack(a) in outcomes <==> exists i :: 0 <= i < |outcomes| && outcomes[i] == HeldBack(a)
  {
  }

  lemma UsedWasOpen(op: Operator, p: Pass, a: Approval)
    requires ValidPass(op, p) && Started(a) in p.outcomes
    ensures !a.consumed
  {
    var i :| 0 <= i < |p.outcomes| && p.outcomes[i] == Started(a);
    PhaseFacts(CtxOf(op, p), p.detected, p.inputs.approvals, p.approved, p.outcomes, i);
  }

  lemma DoneIsPrunable(p: Pass, a: Approval)
    requires a.id != ""
    ensures DoneWith(p, a) <==> Prunable(a, ReferencedIds(p.synced))
  {
    if a.id in ReferencedIds(p.synced) {
      var i :| 0 <= i < |p.synced| && p.synced[i].approvalId == a.id;
      assert p.synced[i] in p.synced;
    }
  }

  // ---------------------------------------------------------------- what reaches the stored list

  function OpenIds(approvals: seq<Approval>): set<string> {
    set i | 0 <= i < |approvals| && !approvals[i].consumed :: approvals[i].id
  }

  lemma OpenMember(s: seq<Approval>, id: string)
    ensures id in OpenIds(s) <==> exists a :: a in s && !a.consumed && a.id == id
  {
    if id in OpenIds(s) {
      var i :| 0 <= i < |s| && !s[i].consumed && s[i].id == id;
      assert s[i] in s;
    }
  }

  /** A merge newly marks exactly the open entries it was told to mark and not to remove. */
  lemma MergeConsumes(ch: Changes, s: seq<Approval>, id: string)
    requires UniqueIds(s)
    ensures id in ConsumedIds(Merge(ch, s)) - ConsumedIds(s) <==>
      id in ch.consumed && id !in ch.removed && id in OpenIds(s)
  {
    MergeContents(ch, s);
    ConsumedMember(s, id);
    ConsumedMember(Merge(ch, s), id);
    OpenMember(s, id);
    if id in ch.consumed && id !in ch.removed && id in OpenIds(s) {
      var a :| a in s && !a.consumed && a.id == id;
      assert Mark(ch, a) in Merge(ch, s);
      forall b | b in s && b.id == id ensures !b.consumed {
        SameIdSameApproval(s, a, b);
      }
    }
  }

  /** What the stored list shows newly consumed by a pass, against the list it was merged into. */
  function NewlyConsumed(step: Step, s': Server): set<string>
    requires step.Reconcile?
  {
    ConsumedIds(s'.approvals) - ConsumedIds(step.current)
  }

  /** Approvals a pass spent that the stored list never shows: deleted or marked meanwhile, or the write was lost. */
  function Missed(step: Step): set<string>
    requires step.Reconcile?
  {
    SpentIds(step.pass.outcomes) - (if step.specWritten then OpenIds(step.current) else {})
  }

  lemma SpentIsKept(op: Operator, p: Pass, id: string)
    requires ValidPass(op, p) && Admissible(p.approvals) && id in SpentIds(p.outcomes)
    ensures id !in Diff(p.approvals, p.kept).removed
  {
    PassConsumesId(op, p, id);
    assert id in ConsumedIds(p.kept);
  }

  /** Any pass, any approvals, any edits meanwhile: what it spent is newly consumed in the stored list, or missed. */
  lemma StoredConsumesExactly(op: Operator, name: string, s: Server, step: Step, s': Server)
    requires Next(op, name, s, step, s') && Admissible(s.approvals) && step.Reconcile?
    ensures NewlyConsumed(step, s') !! Missed(step)
    ensures NewlyConsumed(step, s') + Missed(step) == SpentIds(step.pass.outcomes)
  {
    var p, ch := step.pass, Diff(s.approvals, step.pass.kept);
    forall id ensures id in NewlyConsumed(step, s') <==>
      id in SpentIds(p.outcomes) && step.specWritten && id in OpenIds(step.current)
    {
      if step.specWritten {
        MergeConsumes(ch, step.current, id);
        PassConsumesId(op, p, id);
        if id in SpentIds(p.outcomes) {
          SpentIsKept(op, p, id);
        }
      }
    }
  }

  // ---------------------------------------------------------------- counting

  /** Every approval the pass reads names one event, and the events have different IDs. */
  ghost predicate OneToOne(s: Server, step: Step) {
    step.Reconcile? ==> AllByEventId(s.approvals) && DistinctIds(step.pass.detected)
  }

  /** A pass starts as many recoveries as it newly consumes approvals, plus those it spent and missed. */
  lemma PassBalances(op: Operator, name: string, s: Server, step: Step, s': Server)
    requires Next(op, name, s, step, s') && Admissible(s.approvals) && step.Reconcile? && OneToOne(s, step)
    ensures |StartedSet(step.pass.outcomes)| == |NewlyConsumed(step, s')| + |Missed(step)|
  {
    var p := step.pass;
    StoredConsumesExactly(op, name, s, step, s');
    PhaseIsOneEventEach(CtxOf(op, p), p.detected, p.inputs.approvals, p.approved, p.outcomes);
    SpentEqualsStarted(p.approvals, p.detected, p.outcomes);
    DisjointSizes(NewlyConsumed(step, s'), Missed(step));
  }

  lemma DisjointSizes<T>(a: set<T>, b: set<T>)
    requires a !! b
    ensures |a + b| == |a| + |b|
  {
  }

  function RecoveriesStarted(steps: seq<Step>): nat {
    if steps == [] then 0
    else
      var last := steps[|steps| - 1];
      RecoveriesStarted(steps[..|steps| - 1]) + if last.Reconcile? then |StartedSet(last.pass.outcomes)| else 0
  }

  function ApprovalsConsumed(states: seq<Server>, steps: seq<Step>): nat
    requires |states| == |steps| + 1
  {
    if steps == [] then 0
    else
      var n := |steps| - 1;
      ApprovalsConsumed(states[..n + 1], steps[..n]) +
      if steps[n].Reconcile? then |NewlyConsumed(steps[n], states[n + 1])| else 0
  }

  function ApprovalsMissed(steps: seq<Step>): nat {
    if steps == [] then 0
    else
      var last := steps[|steps| - 1];
      ApprovalsMissed(steps[..|steps| - 1]) + if last.Reconcile? then |Missed(last)| else 0
  }

  lemma RunPrefix(op: Operator, name: string, states: seq<Server>, steps: seq<Step>)
    requires Run(op, name, states, steps) && steps != []
    ensures Run(op, name, states[..|states| - 1], steps[..|steps| - 1])
  {
  }

  /** Over any run, recoveries started equal approvals consumed plus those spent and missed. */
  lemma {:induction false} RunBalances(op: Operator, name: string, states: seq<Server>, steps: seq<Step>)
    requires Run(op, name, states, steps)
    requires forall i :: 0 <= i < |steps| ==> OneToOne(states[i], steps[i])
    ensures RecoveriesStarted(steps) == ApprovalsConsumed(states, steps) + ApprovalsMissed(steps)
  {
    if steps != [] {
      var n := |steps| - 1;
      RunPrefix(op, name, states, steps);
      RunBalances(op, name, states[..n + 1], steps[..n]);
      ReachableStatus(op, name, states, steps, n);
      var next := (s, t, s') => Next(op, name, s, t, s');
      assert next(states[n], steps[n], states[n + 1]);
      if steps[n].Reconcile? {
        PassBalances(op, name, states[n], steps[n], states[n + 1]);
      }
    }
  }

  /** Whatever the pass spent was written to a list that still showed it open. */
  ghost predicate Landed(step: Step) {
    step.Reconcile? ==>
      || SpentIds(step.pass.outcomes) == {}
      || (step.specWritten && SpentIds(step.pass.outcomes) <= OpenIds(step.current))
  }

  lemma MissedWhenNotLanded(step: Step)
    requires step.Reconcile?
    ensures |Missed(step)| == 0 <==> Landed(step)
  {
    NothingLeft(SpentIds(step.pass.outcomes), if step.specWritten then OpenIds(step.current) else {});
  }

  lemma NothingLeft<T>(a: set<T>, b: set<T>)
    ensures |a - b| == 0 <==> a <= b
  {
    if |a - b| == 0 {
      forall x | x in a ensures x in b {
        assert x in a - b || x in b;
      }
    }
  }

  lemma {:induction false} MissedNothing(steps: seq<Step>)
    ensures ApprovalsMissed(steps) == 0 <==> forall i :: 0 <= i < |steps| ==> Landed(steps[i])
  {
    if steps != [] {
      var n := |steps| - 1;
      MissedNothing(steps[..n]);
      assert forall i :: 0 <= i < n ==> steps[..n][i] == steps[i];
      if steps[n].Reconcile? {
        MissedWhenNotLanded(steps[n]);
      }
    }
  }

  /**
   Recoveries and consumed approvals balance over a run exactly when every write of spent approvals
   landed and found each of them still listed and open.
   */
  lemma BalancesExactlyWhen(op: Operator, name: string, states: seq<Server>, steps: seq<Step>)
    requires Run(op, name, states, steps)
    requires forall i :: 0 <= i < |steps| ==> OneToOne(states[i], steps[i])
    ensures RecoveriesStarted(steps) == ApprovalsConsumed(states, steps) <==>
      forall i :: 0 <= i < |steps| ==> Landed(steps[i])
  {
    RunBalances(op, name, states, steps);
    MissedNothing(steps);
  }
}
