/** Runs of a transition relation, and the ways of carrying a fact along one. */
module Runs {

  ghost predicate Chain<S(!new), T(!new)>(next: (S, T, S) -> bool, states: seq<S>, steps: seq<T>) {
    && |states| == |steps| + 1
    && forall i :: 0 <= i < |steps| ==> next(states[i], steps[i], states[i + 1])
  }

  ghost predicate Inductive<S(!new), T(!new)>(next: (S, T, S) -> bool, inv: S -> bool) {
    forall s, t, s' :: inv(s) && next(s, t, s') ==> inv(s')
  }

  /** An inductive fact that holds at the start holds throughout. */
  lemma {:induction false} Always<S(!new), T(!new)>(next: (S, T, S) -> bool, inv: S -> bool,
          states: seq<S>, steps: seq<T>, n: nat)
    requires Chain(next, states, steps) && n < |states| && inv(states[0]) && Inductive(next, inv)
    ensures inv(states[n])
  {
    if n > 0 {
      Always(next, inv, states, steps, n - 1);
      assert next(states[n - 1], steps[n - 1], states[n]);
    }
  }

  /** A rank no step lowers is not lowered along a line of things followed from state to state. */
  lemma {:induction false} Rises<S(!new), T(!new), E(!new)>(next: (S, T, S) -> bool, inv: S -> bool,
          at: (S, E) -> bool, rank: (S, E) -> nat, states: seq<S>, steps: seq<T>, m: nat, line: seq<E>, n: nat)
    requires Chain(next, states, steps) && inv(states[0]) && Inductive(next, inv)
    requires n < |line| && m + |line| <= |states|
    requires forall k :: 0 <= k < |line| ==> at(states[m + k], line[k])
    requires forall s, t, s', e, e' :: inv(s) && next(s, t, s') && at(s, e) && at(s', e') ==> rank(s, e) <= rank(s', e')
    ensures rank(states[m], line[0]) <= rank(states[m + n], line[n])
  {
    if n > 0 {
      Rises(next, inv, at, rank, states, steps, m, line, n - 1);
      Always(next, inv, states, steps, m + n - 1);
      assert next(states[m + n - 1], steps[m + n - 1], states[m + n]);
      assert at(states[m + n - 1], line[n - 1]) && at(states[m + n], line[n]);
    }
  }

  /** What a step leaves as it is, bar a cause, stands along a line until there was one. */
  lemma {:induction false} StandsUntil<S(!new), T(!new), E(!new)>(next: (S, T, S) -> bool, inv: S -> bool,
          at: (S, E) -> bool, cause: (S, T) -> bool, states: seq<S>, steps: seq<T>, m: nat, line: seq<E>, n: nat)
    requires Chain(next, states, steps) && inv(states[0]) && Inductive(next, inv)
    requires n < |line| && m + |line| <= |states|
    requires forall k :: 0 <= k < |line| ==> at(states[m + k], line[k])
    requires forall s, t, s', e ::
      inv(s) && next(s, t, s') && at(s, line[0]) && at(s', e) ==> e == line[0] || cause(s, t)
    ensures line[n] == line[0] || exists k :: m <= k < m + n && cause(states[k], steps[k])
  {
    if n > 0 {
      StandsUntil(next, inv, at, cause, states, steps, m, line, n - 1);
      Always(next, inv, states, steps, m + n - 1);
      assert next(states[m + n - 1], steps[m + n - 1], states[m + n]);
      assert at(states[m + n - 1], line[n - 1]) && at(states[m + n], line[n]);
    }
  }

  /** A measure every step lowers until it is zero is zero after that many steps. */
  lemma {:induction false} Falls<S(!new), T(!new)>(next: (S, T, S) -> bool, inv: S -> bool, measure: S -> nat,
          states: seq<S>, steps: seq<T>, n: nat)
    requires Chain(next, states, steps) && n < |states| && inv(states[0]) && Inductive(next, inv)
    requires forall s, t, s' :: inv(s) && next(s, t, s') ==> measure(s') < measure(s) || measure(s') == 0
    ensures measure(states[n]) == 0 || measure(states[n]) + n <= measure(states[0])
  {
    if n > 0 {
      Falls(next, inv, measure, states, steps, n - 1);
      Always(next, inv, states, steps, n - 1);
      assert next(states[n - 1], steps[n - 1], states[n]);
    }
  }

  lemma Append<S(!new), T(!new)>(next: (S, T, S) -> bool, states: seq<S>, steps: seq<T>, t: T, s: S)
    requires Chain(next, states, steps) && next(states[|steps|], t, s)
    ensures Chain(next, states + [s], steps + [t])
  {
  }

  /** A move that is always possible can be made any number of times. */
  lemma {:induction false} Unroll<S(!new), T(!new)>(next: (S, T, S) -> bool, inv: S -> bool,
          move: S -> T, to: S -> S, s: S, k: nat)
    returns (states: seq<S>, steps: seq<T>)
    requires inv(s) && forall x :: inv(x) ==> inv(to(x)) && next(x, move(x), to(x))
    ensures Chain(next, states, steps) && |steps| == k && states[0] == s && forall i :: 0 <= i <= k ==> inv(states[i])
  {
    if k == 0 {
      states, steps := [s], [];
    } else {
      states, steps := Unroll(next, inv, move, to, s, k - 1);
      var last := states[k - 1];
      assert inv(last);
      Append(next, states, steps, move(last), to(last));
      states, steps := states + [to(last)], steps + [move(last)];
    }
  }

  lemma Prepend<S(!new), T(!new)>(next: (S, T, S) -> bool, s: S, t: T, states: seq<S>, steps: seq<T>)
    requires Chain(next, states, steps) && next(s, t, states[0])
    ensures Chain(next, [s] + states, [t] + steps)
  {
    forall i | 0 <= i < |[t] + steps| ensures next(([s] + states)[i], ([t] + steps)[i], ([s] + states)[i + 1]) {
      if i > 0 {
        assert next(states[i - 1], steps[i - 1], states[i]);
      }
    }
  }
}
