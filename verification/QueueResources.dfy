/** Splitting the cluster's GPU resources evenly over Kueue queues. */
module QueueResources {
  import opened Prelude

  /** Quantities count nano-units; one whole unit is this many. */
  const UNIT := 1_000_000_000

  const I915 := "gpu.intel.com/i915"
  const XE := "gpu.intel.com/xe"
  const CPU := "cpu"
  const MEMORY := "memory"

  type Quantities = map<string, nat>

  /** resource.Quantity.Value: whole units, rounded up. */
  function Value(q: nat): (v: nat)
    ensures (v - 1) * UNIT < q <= v * UNIT
  {
    (q + UNIT - 1) / UNIT
  }

  function Amount(m: Quantities, kind: string): nat {
    if kind in m then m[kind] else 0
  }

  // ---------------------------------------------------------------- adding up

  predicate HasGpu(node: Quantities) {
    I915 in node || XE in node
  }

  /** Whether a node adds to a kind at all, and how much. */
  predicate Adds(node: Quantities, kind: string) {
    ((kind == I915 || kind == XE) && kind in node) || ((kind == CPU || kind == MEMORY) && HasGpu(node))
  }

  function Total(nodes: seq<Quantities>, kind: string): nat {
    if nodes == [] then 0
    else
      var i := |nodes| - 1;
      Total(nodes[..i], kind) + if Adds(nodes[i], kind) then Amount(nodes[i], kind) else 0
  }

  ghost predicate SumsUp(nodes: seq<Quantities>, m: Quantities) {
    && (forall kind :: Amount(m, kind) == Total(nodes, kind))
    && (forall kind :: kind in m <==> exists i :: 0 <= i < |nodes| && Adds(nodes[i], kind))
  }

  lemma KindsDiffer()
    ensures I915 != XE && I915 != CPU && I915 != MEMORY && XE != CPU && XE != MEMORY && CPU != MEMORY
  {
    assert |CPU| == 3 && |MEMORY| == 6 && |I915| == 18 && |XE| == 16;
  }

  class Totals {
    var amounts: Quantities

    constructor ()
      ensures amounts == map[]
    {
      amounts := map[];
    }

    method Add(kind: string, quantity: nat)
      modifies this
      ensures amounts == old(amounts)[kind := Amount(old(amounts), kind) + quantity]
    {
      amounts := amounts[kind := if kind in amounts then amounts[kind] + quantity else quantity];
    }

    /** The GPU resources a node lists. */
    method AddGpus(node: Quantities) returns (added: bool)
      modifies this
      ensures added == HasGpu(node)
      ensures forall kind ::
        Amount(amounts, kind) == Amount(old(amounts), kind) + if kind in {I915, XE} then Amount(node, kind) else 0
      ensures forall kind :: kind in amounts <==> kind in old(amounts) || (kind in {I915, XE} && kind in node)
    {
      KindsDiffer();
      added := false;
      if I915 in node {
        Add(I915, node[I915]);
        added := true;
      }
      if XE in node {
        Add(XE, node[XE]);
        added := true;
      }
    }

    method AddNode(node: Quantities)
      modifies this
      ensures forall kind ::
        Amount(amounts, kind) == Amount(old(amounts), kind) + if Adds(node, kind) then Amount(node, kind) else 0
      ensures forall kind :: kind in amounts <==> kind in old(amounts) || Adds(node, kind)
    {
      KindsDiffer();
      var added := AddGpus(node);
      if added {
        Add(CPU, Amount(node, CPU));
        Add(MEMORY, Amount(node, MEMORY));
      }
    }

    /** getDevicePluginResources, over the nodes in whatever order the map yields them. */
    method DevicePluginResources(nodes: seq<Quantities>)
      modifies this
      ensures SumsUp(nodes, amounts)
    {
      amounts := map[];
      for i := 0 to |nodes|
        invariant SumsUp(nodes[..i], amounts)
      {
        assert nodes[..i + 1][..i] == nodes[..i];
        ghost var before := amounts;
        AddNode(nodes[i]);
        AddedOne(nodes[..i + 1], before, amounts);
      }
      assert nodes[..|nodes|] == nodes;
    }
  }

  lemma AddedOne(nodes: seq<Quantities>, before: Quantities, after: Quantities)
    requires nodes != [] && SumsUp(nodes[..|nodes| - 1], before)
    requires var node := nodes[|nodes| - 1];
      && (forall kind ::
            Amount(after, kind) == Amount(before, kind) + if Adds(node, kind) then Amount(node, kind) else 0)
      && (forall kind :: kind in after <==> kind in before || Adds(node, kind))
    ensures SumsUp(nodes, after)
  {
    var k := |nodes| - 1;
    forall kind ensures kind in after <==> exists i :: 0 <= i < |nodes| && Adds(nodes[i], kind) {
      if kind in before {
        var i :| 0 <= i < k && Adds(nodes[..k][i], kind);
        assert Adds(nodes[i], kind);
      }
      if exists i :: 0 <= i < |nodes| && Adds(nodes[i], kind) {
        var i :| 0 <= i < |nodes| && Adds(nodes[i], kind);
        if i < k {
          assert Adds(nodes[..k][i], kind);
        }
      }
    }
  }

  /** What one more node adds: its GPUs, and its CPU and memory if it has any GPU. */
  lemma TotalGrowsBy(nodes: seq<Quantities>, node: Quantities, kind: string)
    ensures Total([], kind) == 0
    ensures Total(nodes + [node], kind) == Total(nodes, kind) +
      if kind in {"gpu.intel.com/i915", "gpu.intel.com/xe"} then Amount(node, kind)
      else if kind in {"cpu", "memory"} && ("gpu.intel.com/i915" in node || "gpu.intel.com/xe" in node)
      then Amount(node, kind) else 0
  {
    KindsDiffer();
    assert (nodes + [node])[..|nodes|] == nodes;
  }

  /** The totals do not depend on the order of the nodes. */
  lemma {:induction false} TotalIgnoresOrder(a: seq<Quantities>, b: seq<Quantities>, kind: string)
    requires multiset(a) == multiset(b)
    ensures Total(a, kind) == Total(b, kind)
    decreases |a|
  {
    if a == [] {
      assert |multiset(b)| == 0;
    } else {
      var i := |a| - 1;
      assert a[i] in multiset(b);
      var j :| 0 <= j < |b| && b[j] == a[i];
      Without(a, i);
      Without(b, j);
      assert a[..i] + a[i + 1..] == a[..i];
      TotalIgnoresOrder(a[..i], b[..j] + b[j + 1..], kind);
      TotalDrops(b, j, kind);
    }
  }

  lemma Without<T>(s: seq<T>, j: nat)
    requires j < |s|
    ensures multiset(s[..j] + s[j + 1..]) == multiset(s) - multiset{s[j]}
  {
    assert s == s[..j] + [s[j]] + s[j + 1..];
  }

  lemma {:induction false} TotalDrops(s: seq<Quantities>, j: nat, kind: string)
    requires j < |s|
    ensures Total(s, kind) == Total(s[..j] + s[j + 1..], kind) + if Adds(s[j], kind) then Amount(s[j], kind) else 0
  {
    var k := |s| - 1;
    if j == k {
      assert s[..j] + s[j + 1..] == s[..k];
    } else {
      TotalDrops(s[..k], j, kind);
      var rest := s[..j] + s[j + 1..];
      assert rest[..|rest| - 1] == s[..k][..j] + s[..k][j + 1..];
    }
  }

  // ---------------------------------------------------------------- dividing

  /** What queue i of n gets of a total. */
  function Share(q: nat, n: nat, i: nat): nat
    requires i < n
  {
    Value(q) / n + if i < Value(q) % n then 1 else 0
  }

  predicate Enough(q: nat, n: nat) {
    q == 0 || Value(q) >= n
  }

  ghost predicate IsShare(total: Quantities, n: nat, i: nat, m: Quantities)
    requires i < n
  {
    && (forall kind :: kind in m <==> kind in total && total[kind] != 0)
    && (forall kind :: kind in m ==> m[kind] == Share(total[kind], n, i))
  }

  lemma ShareAtLeastOne(q: nat, n: nat, i: nat)
    requires i < n && q != 0
    ensures Enough(q, n) ==> Share(q, n, i) >= 1
    ensures !Enough(q, n) ==> Share(q, n, n - 1) == 0 && (Share(q, n, i) >= 1 <==> i < Value(q))
  {
    var v := Value(q);
    assert v == n * (v / n) + v % n;
    if v >= n {
      assert v / n >= 1;
    } else {
      assert v / n == 0 && v % n == v;
    }
  }

  /** One queue's turn; None when some kind does not reach it. */
  method DivideOnce(total: Quantities, n: nat, i: nat) returns (m: Option<Quantities>)
    requires i < n
    ensures m.Some? ==> IsShare(total, n, i, m.value)
    ensures m.None? <==> exists kind :: kind in total && total[kind] != 0 && Share(total[kind], n, i) < 1
  {
    var share: Quantities := map[];
    var todo := total.Keys;
    while todo != {}
      invariant todo <= total.Keys
      invariant forall kind :: kind in share <==> kind in total && kind !in todo && total[kind] != 0
      invariant forall kind :: kind in share ==> share[kind] == Share(total[kind], n, i) >= 1
      decreases todo
    {
      var kind :| kind in todo;
      todo := todo - {kind};
      var quantity := total[kind];
      if quantity == 0 { continue; }
      var value := Value(quantity) / n;
      var mod := Value(quantity) % n;
      if i < mod {
        value := value + 1;
      }
      if value < 1 { return None; }
      share := share[kind := value];
    }
    return Some(share);
  }

  /** Succeeds exactly when every kind present reaches the number of queues. */
  method DivideResources(total: Quantities, n: int) returns (shares: Option<seq<Quantities>>)
    ensures shares.Some? <==> n <= 0 || forall kind :: kind in total ==> Enough(total[kind], n)
    ensures shares.Some? ==> |shares.value| == if n <= 0 then 0 else n
    ensures shares.Some? && n > 0 ==> AreShares(total, n, shares.value)
  {
    var queues := [];
    var i := 0;
    while i < n
      invariant 0 <= i && (0 <= n ==> i <= n) && (n < 0 ==> i == 0)
      invariant |queues| == i
      invariant forall k :: 0 <= k < i ==> IsShare(total, n, k, queues[k])
      invariant forall k, kind :: 0 <= k < i && kind in total && total[kind] != 0 ==> Share(total[kind], n, k) >= 1
    {
      var m := DivideOnce(total, n, i);
      if m.None? {
        var kind :| kind in total && total[kind] != 0 && Share(total[kind], n, i) < 1;
        ShareAtLeastOne(total[kind], n, i);
        return None;
      }
      queues := queues + [m.value];
      i := i + 1;
    }
    if n > 0 {
      forall kind | kind in total ensures Enough(total[kind], n) {
        if total[kind] != 0 {
          assert Share(total[kind], n, n - 1) >= 1;
          ShareAtLeastOne(total[kind], n, n - 1);
        }
      }
    }
    return Some(queues);
  }

  /** What the first k queues get together. */
  function HandedOut(q: nat, n: nat, k: nat): nat
    requires k <= n
  {
    if k == 0 then 0 else HandedOut(q, n, k - 1) + Share(q, n, k - 1)
  }

  lemma {:induction false} HandedOutSoFar(q: nat, n: nat, k: nat)
    requires k <= n && 0 < n
    ensures var v := Value(q); HandedOut(q, n, k) == k * (v / n) + if k < v % n then k else v % n
  {
    if k > 0 {
      HandedOutSoFar(q, n, k - 1);
      var d := Value(q) / n;
      assert k * d == (k - 1) * d + d;
    }
  }

  /** The shares add up to the whole units of the total, differ by at most one, and earlier queues get the more. */
  lemma SharesAddUp(q: nat, n: nat, i: nat, j: nat)
    requires i < n && j < n
    ensures HandedOut(q, n, n) == Value(q) && Share(q, n, i) <= Share(q, n, j) + 1
    ensures i <= j ==> Share(q, n, j) <= Share(q, n, i)
  {
    HandedOutSoFar(q, n, n);
    var v := Value(q);
    assert v == n * (v / n) + v % n && v % n < n;
  }

  /**
   Nothing is gained or lost exactly when the total is a whole number of units; otherwise less than one unit is
   made up.
   */
  lemma DivisionConserves(q: nat, n: nat)
    requires 0 < n
    ensures q <= HandedOut(q, n, n) * UNIT < q + UNIT
    ensures HandedOut(q, n, n) * UNIT == q <==> q % UNIT == 0
  {
    SharesAddUp(q, n, 0, 0);
  }

  /** What the queues are handed of a kind, over the maps themselves. */
  function SumOf(shares: seq<Quantities>, kind: string): nat {
    if shares == [] then 0 else SumOf(shares[..|shares| - 1], kind) + Amount(shares[|shares| - 1], kind)
  }

  ghost predicate AreShares(total: Quantities, n: nat, shares: seq<Quantities>) {
    |shares| == n && forall i :: 0 <= i < n ==> IsShare(total, n, i, shares[i])
  }

  lemma {:induction false} SumIsHandedOut(total: Quantities, n: nat, shares: seq<Quantities>, kind: string, k: nat)
    requires AreShares(total, n, shares) && kind in total && total[kind] != 0 && k <= n
    ensures SumOf(shares[..k], kind) == HandedOut(total[kind], n, k)
  {
    if k > 0 {
      SumIsHandedOut(total, n, shares, kind, k - 1);
      assert shares[..k][..k - 1] == shares[..k - 1];
      assert IsShare(total, n, k - 1, shares[k - 1]);
    }
  }

  /** The maps returned for the queues: each kind adds up to its whole units, no two queues differ by more than one. */
  lemma QueuesAddUp(total: Quantities, n: nat, shares: seq<Quantities>, kind: string)
    requires 0 < n && AreShares(total, n, shares)
    ensures SumOf(shares, kind) == Value(Amount(total, kind))
    ensures forall i, j :: 0 <= i < n && 0 <= j < n ==> Amount(shares[i], kind) <= Amount(shares[j], kind) + 1
  {
    if kind in total && total[kind] != 0 {
      SumIsHandedOut(total, n, shares, kind, n);
      assert shares[..n] == shares;
      SharesAddUp(total[kind], n, 0, 0);
      forall i, j | 0 <= i < n && 0 <= j < n ensures Amount(shares[i], kind) <= Amount(shares[j], kind) + 1 {
        SharesAddUp(total[kind], n, i, j);
        assert IsShare(total, n, i, shares[i]) && IsShare(total, n, j, shares[j]);
      }
    } else {
      NothingToShare(total, n, shares, kind);
    }
  }

  lemma {:induction false} NothingToShare(total: Quantities, n: nat, shares: seq<Quantities>, kind: string)
    requires Amount(total, kind) == 0 && |shares| <= n && forall i :: 0 <= i < |shares| ==>
      IsShare(total, n, i, shares[i])
    ensures SumOf(shares, kind) == 0 && forall i :: 0 <= i < |shares| ==> Amount(shares[i], kind) == 0
  {
    if shares != [] {
      NothingToShare(total, n, shares[..|shares| - 1], kind);
      assert IsShare(total, n, |shares| - 1, shares[|shares| - 1]);
    }
  }

  /** End to end: what the queues get of a whole-unit kind is what the nodes listing a GPU have of it. */
  lemma QueuesGetTheNodesTotal(nodes: seq<Quantities>, total: Quantities, n: nat, shares: seq<Quantities>, kind: string)
    requires SumsUp(nodes, total) && 0 < n && AreShares(total, n, shares)
    requires forall node :: node in nodes && kind in node ==> node[kind] % UNIT == 0
    ensures SumOf(shares, kind) * UNIT == Total(nodes, kind)
  {
    WholeTotal(nodes, kind);
    assert Amount(total, kind) == Total(nodes, kind);
    QueuesAddUp(total, n, shares, kind);
    SharesAddUp(Amount(total, kind), n, 0, 0);
    DivisionConserves(Amount(total, kind), n);
  }

  lemma {:induction false} WholeTotal(nodes: seq<Quantities>, kind: string)
    requires forall node :: node in nodes && kind in node ==> node[kind] % UNIT == 0
    ensures Total(nodes, kind) % UNIT == 0
  {
    if nodes != [] {
      var i := |nodes| - 1;
      assert nodes[i] in nodes;
      WholeTotal(nodes[..i], kind);
    }
  }
}
