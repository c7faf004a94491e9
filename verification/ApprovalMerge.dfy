/**
 Writing spec.approvals back over edits made meanwhile, pruning spent entries, and the admission
 step that keeps approval IDs unique.
 */
module ApprovalMerge {
  import opened Prelude
  import opened RecoveryEvents
  import opened Approvals

  function ReferencedIds(events: seq<Event>): set<string> {
    set i | 0 <= i < |events| && events[i].approvalId != "" :: events[i].approvalId
  }

  /** A consumed one-shot approval no event refers to. */
  predicate Prunable(a: Approval, referenced: set<string>) {
    a.consumed && !a.persistent && a.id !in referenced
  }

  function Pruned(approvals: seq<Approval>, referenced: set<string>): seq<Approval> {
    if approvals == [] then []
    else
      var before, last := Pruned(approvals[..|approvals| - 1], referenced), approvals[|approvals| - 1];
      if Prunable(last, referenced) then before else before + [last]
  }

  /** What a pass did to the approvals. */
  datatype Changes = Changes(consumed: set<string>, removed: set<string>)

  function IdsOf(approvals: seq<Approval>): set<string> {
    set i | 0 <= i < |approvals| :: approvals[i].id
  }

  function ConsumedIds(approvals: seq<Approval>): set<string> {
    set i | 0 <= i < |approvals| && approvals[i].consumed :: approvals[i].id
  }

  /** diffApprovals, for lists with unique IDs: flags flipped and entries dropped. */
  function Diff(orig: seq<Approval>, now: seq<Approval>): Changes {
    Changes(ConsumedIds(now) - ConsumedIds(orig), IdsOf(orig) - IdsOf(now))
  }

  method DiffApprovals(orig: seq<Approval>, now: seq<Approval>) returns (ch: Changes)
    requires UniqueIds(orig)
    ensures ch == Diff(orig, now)
  {
    var was: map<string, bool> := map[];
    for i := 0 to |orig|
      invariant was.Keys == IdsOf(orig[..i])
      invariant forall id :: id in was ==> (was[id] <==> id in ConsumedIds(orig[..i]))
    {
      assert orig[i].id !in IdsOf(orig[..i]);
      IdsGrow(orig, i);
      was := was[orig[i].id := orig[i].consumed];
    }
    assert orig[..|orig|] == orig;
    var present, consumed, removed := {}, {}, {};
    for i := 0 to |now|
      invariant present == IdsOf(now[..i])
      invariant consumed == ConsumedIds(now[..i]) - ConsumedIds(orig)
    {
      IdsGrow(now, i);
      present := present + {now[i].id};
      if now[i].consumed && !(now[i].id in was && was[now[i].id]) {
        consumed := consumed + {now[i].id};
      }
    }
    assert now[..|now|] == now;
    for i := 0 to |orig|
      invariant removed == IdsOf(orig[..i]) - IdsOf(now)
    {
      IdsGrow(orig, i);
      if orig[i].id !in present {
        removed := removed + {orig[i].id};
      }
    }
    ch := Changes(consumed, removed);
  }

  lemma IdsGrow(approvals: seq<Approval>, i: nat)
    requires i < |approvals|
    ensures IdsOf(approvals[..i + 1]) == IdsOf(approvals[..i]) + {approvals[i].id}
    ensures ConsumedIds(approvals[..i + 1]) ==
      ConsumedIds(approvals[..i]) + if approvals[i].consumed then {approvals[i].id} else {}
  {
    var a, b := approvals[..i], approvals[..i + 1];
    assert forall j :: 0 <= j < i ==> b[j] == a[j];
    assert b[i] == approvals[i];
  }

  function Mark(ch: Changes, a: Approval): Approval {
    if a.id in ch.consumed then a.(consumed := true) else a
  }

  /** apply: drop what was dropped, mark what was marked, keep the rest in order. */
  function Merge(ch: Changes, approvals: seq<Approval>): seq<Approval> {
    if approvals == [] then []
    else
      var before, last := Merge(ch, approvals[..|approvals| - 1]), approvals[|approvals| - 1];
      if last.id in ch.removed then before else before + [Mark(ch, last)]
  }

  method Apply(ch: Changes, approvals: seq<Approval>) returns (kept: seq<Approval>, changed: bool)
    ensures kept == Merge(ch, approvals)
    ensures changed <==> kept != approvals
  {
    kept, changed := [], false;
    for i := 0 to |approvals|
      invariant kept == Merge(ch, approvals[..i]) && |kept| <= i
      invariant changed <==> kept != approvals[..i]
    {
      assert approvals[..i + 1][..i] == approvals[..i];
      assert approvals[..i + 1] == approvals[..i] + [approvals[i]];
      var a := approvals[i];
      if a.id in ch.removed {
        changed := true;
        continue;
      }
      if a.id in ch.consumed && !a.consumed {
        a := a.(consumed := true);
        changed := true;
      }
      assert kept + [a] == approvals[..i + 1] ==> kept == approvals[..i] && a == approvals[i] by {
        if kept + [a] == approvals[..i + 1] {
          assert (kept + [a])[..i] == kept;
        }
      }
      kept := kept + [a];
    }
    assert approvals[..|approvals|] == approvals;
  }

  // ---------------------------------------------------------------- the merge is the right one

  /** Membership, both ways: what a merge leaves is what was not removed, marked. */
  lemma {:induction false} MergeContents(ch: Changes, s: seq<Approval>)
    ensures forall a :: a in Merge(ch, s) <==> exists b :: b in s && b.id !in ch.removed && a == Mark(ch, b)
    ensures |Merge(ch, s)| <= |s|
  {
    if s != [] {
      var n := |s| - 1;
      MergeContents(ch, s[..n]);
      assert forall b :: b in s <==> b in s[..n] || b == s[n];
    }
  }

  lemma {:induction false} MergeConcat(ch: Changes, s: seq<Approval>, t: seq<Approval>)
    ensures Merge(ch, s + t) == Merge(ch, s) + Merge(ch, t)
  {
    if t == [] {
      assert s + t == s;
    } else {
      var n := |t| - 1;
      assert (s + t)[..|s + t| - 1] == s + t[..n];
      MergeConcat(ch, s, t[..n]);
    }
  }

  /** Two sets of changes that agree on every entry merge alike. */
  lemma {:induction false} MergeAgrees(ch: Changes, ch': Changes, s: seq<Approval>)
    requires forall a :: a in s ==> (a.id in ch.removed <==> a.id in ch'.removed)
    requires forall a :: a in s && a.id !in ch.removed ==> Mark(ch, a) == Mark(ch', a)
    ensures Merge(ch, s) == Merge(ch', s)
  {
    if s != [] {
      var n := |s| - 1;
      assert s[n] in s;
      MergeAgrees(ch, ch', s[..n]);
    }
  }

  /** The difference a pass left against its starting copy rebuilds the pass's result from that copy. */
  lemma DiffThenMerge(ch: Changes, orig: seq<Approval>)
    requires UniqueIds(orig)
    ensures Merge(Diff(orig, Merge(ch, orig)), orig) == Merge(ch, orig)
  {
    var now := Merge(ch, orig);
    var d := Diff(orig, now);
    MergeContents(ch, orig);
    forall a | a in orig
      ensures a.id in ch.removed <==> a.id in d.removed
      ensures a.id !in ch.removed ==> Mark(ch, a) == Mark(d, a)
    {
      DiffAtEntry(ch, orig, a);
    }
    MergeAgrees(d, ch, orig);
  }

  lemma DiffAtEntry(ch: Changes, orig: seq<Approval>, a: Approval)
    requires UniqueIds(orig) && a in orig
    ensures var d := Diff(orig, Merge(ch, orig));
      && (a.id in ch.removed <==> a.id in d.removed)
      && (a.id !in ch.removed ==> Mark(ch, a) == Mark(d, a))
  {
    var now := Merge(ch, orig);
    MergeContents(ch, orig);
    IdOf(orig, a);
    forall b | b in now && b.id == a.id ensures a.id !in ch.removed && b == Mark(ch, a) {
      var c :| c in orig && c.id !in ch.removed && b == Mark(ch, c);
      SameIdSameApproval(orig, a, c);
    }
    if a.id !in ch.removed {
      assert Mark(ch, a) in now;
      IdOf(now, Mark(ch, a));
    }
    if a.id in ConsumedIds(orig) {
      var j :| 0 <= j < |orig| && orig[j].consumed && orig[j].id == a.id;
      SameIdSameApproval(orig, a, orig[j]);
    }
  }

  lemma IdOf(s: seq<Approval>, a: Approval)
    requires a in s
    ensures a.id in IdsOf(s) && (a.consumed ==> a.id in ConsumedIds(s))
  {
    var i :| 0 <= i < |s| && s[i] == a;
  }

  /** Entries appended meanwhile, under IDs the pass never touched, come through unchanged. */
  lemma {:induction false} MergeKeepsAppended(ch: Changes, s: seq<Approval>, added: seq<Approval>)
    requires forall a :: a in added ==> a.id !in ch.consumed && a.id !in ch.removed
    ensures Merge(ch, s + added) == Merge(ch, s) + added
  {
    MergeConcat(ch, s, added);
    MergeAgrees(ch, Changes({}, {}), added);
    EmptyChanges(added);
  }

  lemma {:induction false} EmptyChanges(s: seq<Approval>)
    ensures Merge(Changes({}, {}), s) == s
  {
    if s != [] {
      EmptyChanges(s[..|s| - 1]);
    }
  }

  /** An admin's deletions commute with the write-back. */
  lemma {:induction false} MergeCommutesWithDeletion(ch: Changes, s: seq<Approval>, gone: set<string>)
    ensures Merge(ch, Merge(Changes({}, gone), s)) == Merge(Changes({}, gone), Merge(ch, s))
  {
    if s != [] {
      var n := |s| - 1;
      var del := Changes({}, gone);
      var before, last := s[..n], s[n];
      MergeCommutesWithDeletion(ch, before, gone);
      if last.id !in gone {
        MergeConcat(ch, Merge(del, before), [last]);
        assert Merge(ch, [last]) == if last.id in ch.removed then [] else [Mark(ch, last)];
      }
      if last.id !in ch.removed {
        MergeConcat(del, Merge(ch, before), [Mark(ch, last)]);
        assert Merge(del, [Mark(ch, last)]) == if last.id in gone then [] else [Mark(ch, last)];
      }
    }
  }

  /** A second application finds nothing to do. */
  lemma {:induction false} MergeIsIdempotent(ch: Changes, s: seq<Approval>)
    ensures Merge(ch, Merge(ch, s)) == Merge(ch, s)
  {
    if s != [] {
      var n := |s| - 1;
      MergeIsIdempotent(ch, s[..n]);
      if s[n].id !in ch.removed {
        MergeConcat(ch, Merge(ch, s[..n]), [Mark(ch, s[n])]);
        assert Merge(ch, [Mark(ch, s[n])]) == [Mark(ch, s[n])];
      }
    }
  }

  /** Entries under other IDs keep their contents and their order. */
  function Untouched(ch: Changes, s: seq<Approval>): seq<Approval> {
    if s == [] then []
    else
      var before, last := Untouched(ch, s[..|s| - 1]), s[|s| - 1];
      if last.id in ch.removed || last.id in ch.consumed then before else before + [last]
  }

  lemma {:induction false} MergeKeepsTheRest(ch: Changes, s: seq<Approval>)
    ensures Untouched(ch, Merge(ch, s)) == Untouched(ch, s)
  {
    if s != [] {
      MergeKeepsTheRest(ch, s[..|s| - 1]);
    }
  }

  lemma {:induction false} MergeKeepsUniqueIds(ch: Changes, s: seq<Approval>)
    requires UniqueIds(s)
    ensures UniqueIds(Merge(ch, s))
  {
    if s != [] {
      var n := |s| - 1;
      MergeKeepsUniqueIds(ch, s[..n]);
      MergeContents(ch, s[..n]);
      forall a | a in Merge(ch, s[..n]) ensures a.id != s[n].id {
        var b :| b in s[..n] && b.id !in ch.removed && a == Mark(ch, b);
      }
    }
  }

  // ---------------------------------------------------------------- what a pass does is such a change

  /** Spending and pruning, seen as changes to the copy the pass started with. */
  function PassChanges(orig: seq<Approval>, spent: set<string>, referenced: set<string>): Changes {
    Changes(spent, set i | 0 <= i < |orig| && Prunable(Spend(orig, spent)[i], referenced) :: orig[i].id)
  }

  lemma {:induction false} PassIsAMerge(orig: seq<Approval>, spent: set<string>, referenced: set<string>)
    requires UniqueIds(orig)
    ensures Pruned(Spend(orig, spent), referenced) == Merge(PassChanges(orig, spent, referenced), orig)
  {
    SpendMarks(orig, spent);
    PrefixIsAMerge(orig, spent, referenced, |orig|);
    assert Spend(orig, spent)[..|orig|] == Spend(orig, spent) && orig[..|orig|] == orig;
  }

  lemma SpendMarks(orig: seq<Approval>, spent: set<string>)
    requires UniqueIds(orig)
    ensures forall i :: 0 <= i < |orig| ==> Spend(orig, spent)[i] == Mark(Changes(spent, {}), orig[i])
  {
  }

  lemma RemovedAt(orig: seq<Approval>, spent: set<string>, referenced: set<string>, k: nat)
    requires UniqueIds(orig) && k < |orig|
    ensures orig[k].id in PassChanges(orig, spent, referenced).removed <==> Prunable(Spend(orig, spent)[k], referenced)
  {
    if orig[k].id in PassChanges(orig, spent, referenced).removed {
      var i :| 0 <= i < |orig| && Prunable(Spend(orig, spent)[i], referenced) && orig[i].id == orig[k].id;
      assert i == k;
    }
  }

  lemma {:induction false} PrefixIsAMerge(orig: seq<Approval>, spent: set<string>, referenced: set<string>, n: nat)
    requires UniqueIds(orig) && n <= |orig|
    ensures Pruned(Spend(orig, spent)[..n], referenced) == Merge(PassChanges(orig, spent, referenced), orig[..n])
  {
    if n > 0 {
      PrefixIsAMerge(orig, spent, referenced, n - 1);
      SpendMarks(orig, spent);
      RemovedAt(orig, spent, referenced, n - 1);
      assert Spend(orig, spent)[..n][..n - 1] == Spend(orig, spent)[..n - 1] && orig[..n][..n - 1] == orig[..n - 1];
    }
  }

  // ---------------------------------------------------------------- admission

  datatype Admission = Accepted(approvals: seq<Approval>) | Rejected

  const MAX_ID_DRAWS := 10

  /** Draw k of the random source gave an ID already in use. */
  predicate InUse(present: set<string>, draw: nat -> Option<string>, k: nat) {
    draw(k).Some? && draw(k).value in present
  }

  /** Nothing but IDs in use, up to the tenth draw or to a failure of the random source. */
  ghost predicate Exhausted(present: set<string>, draw: nat -> Option<string>) {
    exists k: nat :: ExhaustedAt(present, draw, k)
  }

  ghost predicate ExhaustedAt(present: set<string>, draw: nat -> Option<string>, k: nat) {
    k <= 10 && (k == 10 || draw(k).None?) && forall j :: 0 <= j < k ==> InUse(present, draw, j)
  }

  lemma FreshStops(present: set<string>, draw: nat -> Option<string>, i: nat, k: nat)
    requires i < MAX_ID_DRAWS && draw(i).Some? && draw(i).value !in present
    requires forall j :: 0 <= j < i || 0 <= j < k ==> InUse(present, draw, j)
    ensures k < MAX_ID_DRAWS && draw(k).Some?
  {
    assert !InUse(present, draw, i);
    if k < i {
      assert InUse(present, draw, k);
    }
  }

  lemma FreshEndsIt(present: set<string>, draw: nat -> Option<string>, i: nat)
    requires i < MAX_ID_DRAWS && draw(i).Some? && draw(i).value !in present && forall j :: 0 <= j < i ==>
      InUse(present, draw, j)
    ensures !Exhausted(present, draw)
  {
    if Exhausted(present, draw) {
      var k: nat :| ExhaustedAt(present, draw, k);
      FreshStops(present, draw, i, k);
    }
  }

  /** The first of ten random draws not in use; None is a failure of the random source, which ends the search. */
  method GenerateApprovalId(present: set<string>, draw: nat -> Option<string>) returns (id: Option<string>)
    ensures id.Some? ==> id.value !in present
    ensures id.Some? ==> exists k :: 0 <= k < MAX_ID_DRAWS && draw(k) == id && forall j :: 0 <= j < k ==>
      InUse(present, draw, j)
    ensures id.None? <==> Exhausted(present, draw)
  {
    for i := 0 to MAX_ID_DRAWS
      invariant forall j :: 0 <= j < i ==> InUse(present, draw, j)
    {
      if draw(i).None? {
        assert ExhaustedAt(present, draw, i);
        return None;
      }
      if draw(i).value in present { continue; }
      FreshEndsIt(present, draw, i);
      return draw(i);
    }
    assert ExhaustedAt(present, draw, MAX_ID_DRAWS);
    id := None;
  }

  /** The same entries in order: those that had an ID keep it, the others got fresh ones, all different. */
  ghost predicate Defaulted(approvals: seq<Approval>, r: seq<Approval>) {
    && |r| == |approvals|
    && (forall i :: 0 <= i < |approvals| ==>
          && r[i] == approvals[i].(id := r[i].id) && r[i].id != ""
          && (approvals[i].id != "" ==> r[i].id == approvals[i].id))
    && (forall i, j :: 0 <= i < |approvals| && 0 <= j < |approvals| && i != j && approvals[i].id == "" ==>
      r[i].id != r[j].id)
  }

  /** An ID some entry came with, or was drawn for an entry before number i. */
  ghost predicate Taken(approvals: seq<Approval>, draw: nat -> nat -> Option<string>, i: nat, id: string) {
    || (exists j :: 0 <= j < |approvals| && approvals[j].id == id)
    || (exists j: nat, k: nat :: j < i && k < MAX_ID_DRAWS && draw(j)(k) == Some(id))
  }

  lemma DrawnIsTaken(approvals: seq<Approval>, draw: nat -> nat -> Option<string>, i: nat, id: string)
    requires exists k: nat :: k < MAX_ID_DRAWS && draw(i)(k) == Some(id)
    ensures Taken(approvals, draw, i + 1, id)
  {
  }

  /** Every draw for entry i gave a taken ID, up to the tenth or to a failure of the random source. */
  ghost predicate DrewNothing(approvals: seq<Approval>, draw: nat -> nat -> Option<string>, i: nat) {
    exists n: nat :: DrewNothingBy(approvals, draw, i, n)
  }

  ghost predicate DrewNothingBy(approvals: seq<Approval>, draw: nat -> nat -> Option<string>, i: nat, n: nat) {
    && n <= 10 && (n == 10 || draw(i)(n).None?)
    && forall k :: 0 <= k < n ==> draw(i)(k).Some? && Taken(approvals, draw, i, draw(i)(k).value)
  }

  lemma ExhaustedDrewNothing(approvals: seq<Approval>, draw: nat -> nat -> Option<string>, i: nat, present: set<string>)
    requires Exhausted(present, draw(i)) && forall id :: id in present ==> Taken(approvals, draw, i, id)
    ensures DrewNothing(approvals, draw, i)
  {
    var n: nat :| ExhaustedAt(present, draw(i), n);
    forall k | 0 <= k < n ensures draw(i)(k).Some? && Taken(approvals, draw, i, draw(i)(k).value) {
      assert InUse(present, draw(i), k);
    }
    assert DrewNothingBy(approvals, draw, i, n);
  }

  ghost predicate OutOfDraws(approvals: seq<Approval>, draw: nat -> nat -> Option<string>) {
    exists i :: 0 <= i < |approvals| && approvals[i].id == "" && DrewNothing(approvals, draw, i)
  }

  /** The defaulter's loop after i entries; `present` are the IDs no fresh one may be. */
  ghost predicate PartlyDefaulted(approvals: seq<Approval>, done: seq<Approval>, present: set<string>) {
    && |done| <= |approvals|
    && (forall j :: 0 <= j < |approvals| && approvals[j].id != "" ==> approvals[j].id in present)
    && (forall j :: 0 <= j < |done| ==>
          && done[j] == approvals[j].(id := done[j].id) && done[j].id != "" && done[j].id in present
          && (approvals[j].id != "" ==> done[j].id == approvals[j].id))
    && (forall j, k :: 0 <= j < |done| && 0 <= k < |done| && j != k && approvals[j].id == "" ==>
      done[j].id != done[k].id)
    && (forall j, k :: 0 <= j < |done| <= k < |approvals| && approvals[j].id == "" ==> done[j].id != approvals[k].id)
  }

  lemma GivenIdKept(approvals: seq<Approval>, done: seq<Approval>, present: set<string>)
    requires PartlyDefaulted(approvals, done, present) && |done| < |approvals| && approvals[|done|].id != ""
    ensures PartlyDefaulted(approvals, done + [approvals[|done|]], present)
  {
  }

  lemma FreshIdGiven(approvals: seq<Approval>, done: seq<Approval>, present: set<string>, id: string)
    requires PartlyDefaulted(approvals, done, present) && |done| < |approvals| && approvals[|done|].id == ""
    requires id !in present && id != ""
    ensures PartlyDefaulted(approvals, done + [approvals[|done|].(id := id)], present + {id})
  {
  }

  /** The defaulter. */
  method DefaultIds(approvals: seq<Approval>, draw: nat -> nat -> Option<string>) returns (r: Admission)
    requires forall n, k :: draw(n)(k) != Some("")
    ensures r.Accepted? ==> Defaulted(approvals, r.approvals)
    ensures r.Rejected? ==> OutOfDraws(approvals, draw)
  {
    var present := set i | 0 <= i < |approvals| && approvals[i].id != "" :: approvals[i].id;
    var done: seq<Approval> := [];
    for i := 0 to |approvals|
      invariant |done| == i && PartlyDefaulted(approvals, done, present)
      invariant forall id :: id in present ==> Taken(approvals, draw, i, id)
    {
      if approvals[i].id == "" {
        var id := GenerateApprovalId(present, draw(i));
        if id.None? {
          ExhaustedDrewNothing(approvals, draw, i, present);
          return Rejected;
        }
        DrawnIsTaken(approvals, draw, i, id.value);
        FreshIdGiven(approvals, done, present, id.value);
        present := present + {id.value};
        done := done + [approvals[i].(id := id.value)];
      } else {
        GivenIdKept(approvals, done, present);
        done := done + [approvals[i]];
      }
    }
    r := Accepted(done);
  }

  /** One of event ID and selector, persistent only with a selector. */
  predicate WellShaped(a: Approval) {
    (a.eventId != "" <==> a.selector.None?) && (a.persistent ==> a.selector.Some?)
  }

  /** What makes a label selector one that can match is decided by the Kubernetes library. */
  type LabelCheck = map<string, string> -> bool

  predicate LabelsValid(a: Approval, valid: LabelCheck) {
    a.selector.None? || |a.selector.value.labels| == 0 || valid(a.selector.value.labels)
  }

  ghost predicate AllWellShaped(approvals: seq<Approval>, valid: LabelCheck) {
    forall i :: 0 <= i < |approvals| ==> WellShaped(approvals[i]) && LabelsValid(approvals[i], valid)
  }

  ghost predicate GivenIdsDiffer(approvals: seq<Approval>) {
    forall i, j :: 0 <= i < j < |approvals| && approvals[i].id != "" ==> approvals[i].id != approvals[j].id
  }

  /**
   validateApprovals accepts exactly the lists in which every entry has an event ID or a selector and not both, only
   selectors are persistent, label selectors are valid, and given IDs differ.
   */
  method ValidateApprovals(approvals: seq<Approval>, valid: LabelCheck) returns (ok: bool)
    ensures ok <==> AllWellShaped(approvals, valid) && GivenIdsDiffer(approvals)
    ensures ok ==> forall a :: a in approvals ==>
      && (a.eventId == "" || a.selector == None) && (a.eventId != "" || a.selector != None)
      && (a.persistent ==> a.selector != None)
      && (a.selector != None && a.selector.value.labels != map[] ==> valid(a.selector.value.labels))
    ensures !ok ==>
      || (exists a :: a in approvals && (a.eventId == "" <==> a.selector == None))
      || (exists a :: a in approvals && a.persistent && a.selector == None)
      || (exists a :: a in approvals && a.selector != None && !valid(a.selector.value.labels))
      || (exists i, j :: 0 <= i < j < |approvals| && approvals[i].id == approvals[j].id != "")
  {
    var seen := {};
    for i := 0 to |approvals|
      invariant seen == set k | 0 <= k < i && approvals[k].id != "" :: approvals[k].id
      invariant forall k :: 0 <= k < i ==> WellShaped(approvals[k]) && LabelsValid(approvals[k], valid)
      invariant forall j, k :: 0 <= j < k < i && approvals[j].id != "" ==> approvals[j].id != approvals[k].id
    {
      var a := approvals[i];
      if a.id != "" {
        if a.id in seen { return false; }
        seen := seen + {a.id};
      }
      var hasEventId, hasSelector := a.eventId != "", a.selector.Some?;
      if hasEventId && hasSelector { return false; }
      if !hasEventId && !hasSelector { return false; }
      if a.persistent && !hasSelector { return false; }
      if hasSelector && |a.selector.value.labels| > 0 {
        if !valid(a.selector.value.labels) { return false; }
      }
    }
    ok := true;
  }

  /** Defaulting then validating leaves only lists whose IDs are set and unique. */
  method Admit(approvals: seq<Approval>, draw: nat -> nat -> Option<string>, valid: LabelCheck) returns (r: Admission)
    requires forall n, k :: draw(n)(k) != Some("")
    ensures r.Accepted? ==> Defaulted(approvals, r.approvals)
    ensures r.Accepted? ==> UniqueIds(r.approvals)
    ensures r.Accepted? ==> forall a :: a in r.approvals ==> a.id != "" && WellShaped(a) && LabelsValid(a, valid)
    ensures r.Rejected? ==>
      OutOfDraws(approvals, draw) || !AllWellShaped(approvals, valid) || !GivenIdsDiffer(approvals)
  {
    r := DefaultIds(approvals, draw);
    if r.Accepted? {
      var ok := ValidateApprovals(r.approvals, valid);
      if !ok { r := Rejected; }
    }
  }

  // ---------------------------------------------------------------- writing back

  class StoredPlan {
    var approvals: seq<Approval>
    var events: seq<Event>

    /**
     persistPlan: the status, then the approvals, merged into the list as it stands by then. A failed
     status write does not keep the approvals from being written; a merge with nothing to do writes nothing.
     */
    method Persist(orig: seq<Approval>, kept: seq<Approval>, synced: seq<Event>, statusTaken: bool, specTaken: bool)
      returns (ok: bool, specWritten: bool)
      requires UniqueIds(orig)
      modifies this
      ensures events == if statusTaken then synced else old(events)
      ensures approvals == if specTaken then Merge(Diff(orig, kept), old(approvals)) else old(approvals)
      ensures specWritten <==> approvals != old(approvals)
      ensures ok <==>
        && (statusTaken || synced == old(events))
        && (specTaken || Merge(Diff(orig, kept), old(approvals)) == old(approvals))
    {
      ok, specWritten := true, false;
      var changes := DiffApprovals(orig, kept);
      if synced != events {
        if statusTaken {
          events := synced;
        } else {
          ok := false;
        }
      }
      if changes.consumed == {} && changes.removed == {} {
        EmptyChanges(approvals);
        return;
      }
      var merged, changed := Apply(changes, approvals);
      if !changed { return; }
      if specTaken {
        approvals, specWritten := merged, true;
      } else {
        ok := false;
      }
    }
  }
}
