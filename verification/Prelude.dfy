/** Small shared vocabulary: optional values, and the kind of recovery a GPU can be given. */
module Prelude {

  datatype Option<+T> = None | Some(value: T)

  /** spec.defaultResetType, selector and override values. `Untyped` is the empty string. */
  datatype RecoveryType = Untyped | Sbr | Slot | Amc | Reflash

  /** A GPU, by node and PCI address. */
  datatype DeviceKey = DeviceKey(node: string, bdf: string)

  /** Seconds on the clock the controllers read. */
  type Time = nat

  function Elems<T>(s: seq<T>): set<T> {
    set x | x in s
  }

  ghost predicate Distinct<T>(s: seq<T>) {
    forall i, j :: 0 <= i < j < |s| ==> s[i] != s[j]
  }

  lemma {:induction false} CountDistinct<T>(s: seq<T>, x: T)
    requires Distinct(s)
    ensures multiset(s)[x] == if x in s then 1 else 0
  {
    if s != [] {
      var i := |s| - 1;
      CountDistinct(s[..i], x);
      assert s == s[..i] + [s[i]];
      assert x in s <==> x in s[..i] || x == s[i];
    }
  }

  /** Lists without repetition and with the same members are rearrangements of each other. */
  lemma SameMembers<T>(s: seq<T>, t: seq<T>)
    requires Distinct(s) && Distinct(t) && forall x :: x in s <==> x in t
    ensures multiset(s) == multiset(t)
  {
    forall x ensures multiset(s)[x] == multiset(t)[x] {
      CountDistinct(s, x);
      CountDistinct(t, x);
    }
  }

  /** part is full with some entries left out: entry i of part is entry at[i] of full, and at rises. */
  ghost predicate PickedInOrder<T>(part: seq<T>, full: seq<T>, at: seq<nat>) {
    && |at| == |part|
    && (forall i :: 0 <= i < |at| ==> at[i] < |full| && part[i] == full[at[i]])
    && (forall i, j :: 0 <= i < j < |at| ==> at[i] < at[j])
  }
}
