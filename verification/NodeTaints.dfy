/** The taints a controller puts on the nodes it works on, and takes off again. */
module NodeTaints {
  import opened Prelude

  datatype Taint = Taint(key: string, value: string, effect: string, timeAdded: Option<Time>)

  /** Identity of a taint; the time the API server stamps on it is not part of it. */
  predicate SameTaint(a: Taint, b: Taint) {
    a.key == b.key && a.value == b.value && a.effect == b.effect
  }

  predicate Carries(taints: seq<Taint>, t: Taint) {
    exists x :: x in taints && SameTaint(x, t)
  }

  function WithTaint(taints: seq<Taint>, t: Taint): seq<Taint> {
    if Carries(taints, t) then taints else taints + [t]
  }

  /** The taints other than t, in order. */
  function Others(taints: seq<Taint>, t: Taint): seq<Taint> {
    if taints == [] then []
    else
      var before, last := Others(taints[..|taints| - 1], t), taints[|taints| - 1];
      if SameTaint(last, t) then before else before + [last]
  }

  lemma {:induction false} OthersContents(taints: seq<Taint>, t: Taint)
    ensures forall x :: x in Others(taints, t) <==> x in taints && !SameTaint(x, t)
    ensures !Carries(taints, t) ==> Others(taints, t) == taints
  {
    if taints != [] {
      var n := |taints| - 1;
      OthersContents(taints[..n], t);
      assert forall x :: x in taints <==> x in taints[..n] || x == taints[n];
    }
  }

  lemma OthersFacts(taints: seq<Taint>, t: Taint)
    ensures !Carries(Others(taints, t), t)
    ensures !Carries(taints, t) ==> Others(taints, t) == taints
    ensures Others(Others(taints, t), t) == Others(taints, t)
    ensures Carries(WithTaint(taints, t), t)
    ensures Others(WithTaint(taints, t), t) == Others(taints, t)
  {
    OthersContents(taints, t);
    OthersContents(Others(taints, t), t);
    if !Carries(taints, t) {
      assert t in WithTaint(taints, t);
      assert WithTaint(taints, t)[..|taints|] == taints;
    }
  }

  lemma OthersTwice(taints: seq<Taint>, t: Taint)
    ensures Others(Others(taints, t), t) == Others(taints, t)
  {
    OthersFacts(taints, t);
  }

  type Nodes = map<string, seq<Taint>>

  class Cluster {
    var nodes: Nodes

    constructor (initial: Nodes)
      ensures nodes == initial
    {
      nodes := initial;
    }

    /** answered: the API server served both the read and the write. */
    method EnsureNodeTaint(name: string, taint: Taint, answered: bool) returns (ok: bool, added: bool)
      requires answered ==> name in nodes
      modifies this
      ensures ok == answered && added == (answered && !Carries(old(nodes)[name], taint))
      ensures nodes == if answered then old(nodes)[name := WithTaint(old(nodes)[name], taint)] else old(nodes)
    {
      if !answered { return false, false; }
      var taints := nodes[name];
      for i := 0 to |taints|
        invariant forall j :: 0 <= j < i ==> !SameTaint(taints[j], taint)
        invariant nodes == old(nodes)
      {
        if SameTaint(taints[i], taint) {
          assert nodes == nodes[name := taints];
          return true, false;
        }
      }
      nodes := nodes[name := taints + [taint]];
      ok, added := true, true;
    }

    method RemoveNodeTaint(name: string, taint: Taint, answered: bool) returns (ok: bool, removed: bool)
      requires answered ==> name in nodes
      modifies this
      ensures ok == answered && removed == (answered && Carries(old(nodes)[name], taint))
      ensures nodes == if answered then old(nodes)[name := Others(old(nodes)[name], taint)] else old(nodes)
    {
      if !answered { return false, false; }
      var taints := nodes[name];
      var kept := [];
      removed := false;
      for i := 0 to |taints|
        invariant kept == Others(taints[..i], taint)
        invariant removed <==> Carries(taints[..i], taint)
        invariant nodes == old(nodes)
      {
        assert taints[..i + 1][..i] == taints[..i];
        assert forall x :: x in taints[..i + 1] <==> x in taints[..i] || x == taints[i];
        if SameTaint(taints[i], taint) {
          removed := true;
          continue;
        }
        kept := kept + [taints[i]];
      }
      assert taints[..|taints|] == taints;
      if !removed {
        OthersFacts(taints, taint);
        assert nodes == nodes[name := taints];
        return true, false;
      }
      nodes := nodes[name := kept];
      ok := true;
    }

    method NodesWithTaint(taint: Taint) returns (tainted: set<string>)
      ensures tainted == set n | n in nodes && Carries(nodes[n], taint)
    {
      tainted := {};
      var todo := nodes.Keys;
      while todo != {}
        invariant todo <= nodes.Keys
        invariant tainted == set n | n in nodes.Keys - todo && Carries(nodes[n], taint)
        decreases todo
      {
        var n :| n in todo;
        todo := todo - {n};
        if Carries(nodes[n], taint) {
          tainted := tainted + {n};
        }
      }
    }

    /** untaintNodesExcept; `failing` are the nodes the API server refuses to update. */
    method UntaintNodesExcept(taint: Taint, keep: set<string>, listed: bool, failing: set<string>)
      modifies this
      ensures nodes == if listed then Released(old(nodes), taint, keep + failing) else old(nodes)
    {
      if !listed { return; }
      var todo := NodesWithTaint(taint);
      ghost var start := nodes;
      ghost var tainted := todo;
      while todo != {}
        invariant todo <= tainted && nodes.Keys == start.Keys
        invariant forall n :: n in nodes ==>
          nodes[n] == if n in tainted && n !in todo && n !in keep + failing then Others(start[n], taint) else start[n]
        decreases todo
      {
        var n :| n in todo;
        todo := todo - {n};
        if n in keep { continue; }
        var _, _ := RemoveNodeTaint(n, taint, n !in failing);
      }
      forall n | n in nodes && n !in tainted ensures Others(start[n], taint) == start[n] {
        OthersFacts(start[n], taint);
      }
    }
  }

  /** Every node outside keep loses the taint. */
  function Released(nodes: Nodes, taint: Taint, keep: set<string>): Nodes {
    map n | n in nodes :: if n in keep then nodes[n] else Others(nodes[n], taint)
  }

  /** Every node of a set is given the taint. */
  function Held(nodes: Nodes, taint: Taint, held: set<string>): Nodes {
    map n | n in nodes :: if n in held then WithTaint(nodes[n], taint) else nodes[n]
  }

  lemma HeldMore(nodes: Nodes, t: Taint, held: set<string>, n: string)
    requires n in nodes
    ensures Held(nodes, t, held)[n := WithTaint(Held(nodes, t, held)[n], t)] == Held(nodes, t, held + {n})
  {
    OthersFacts(nodes[n], t);
  }

  /** Holding some nodes and releasing the rest: who carries the taint, and nothing else has changed. */
  lemma HeldThenReleased(nodes: Nodes, taint: Taint, held: set<string>, keep: set<string>, n: string)
    requires n in nodes
    ensures var after := Released(Held(nodes, taint, held), taint, keep);
      && n in after
      && (Carries(after[n], taint) <==> n in keep && (Carries(nodes[n], taint) || n in held))
      && Others(after[n], taint) == Others(nodes[n], taint)
  {
    OthersFacts(nodes[n], taint);
    OthersFacts(WithTaint(nodes[n], taint), taint);
  }

  /** Another taint's fate is decided by the others, so it is untouched as well. */
  lemma OtherTaintStays(a: seq<Taint>, b: seq<Taint>, t: Taint, other: Taint)
    requires Others(a, t) == Others(b, t) && !SameTaint(other, t)
    ensures Carries(a, other) <==> Carries(b, other)
  {
    CarriedByOthers(a, t, other);
    CarriedByOthers(b, t, other);
  }

  lemma CarriedByOthers(a: seq<Taint>, t: Taint, other: Taint)
    requires !SameTaint(other, t)
    ensures Carries(a, other) <==> Carries(Others(a, t), other)
  {
    OthersContents(a, t);
  }
}
