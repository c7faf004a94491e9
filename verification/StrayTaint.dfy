/** A rollout that completes and still leaves a node tainted: its first begin pass lost its status write. */
module StrayTaint {
  import opened Prelude
  import opened NodeTaints
  import opened FirmwareUpdate
  import opened Runs
  import opened FirmwareRuns

  const EMPTY := Status(NotStarted, [], [], [], [], [], [])

  const FIRST :=
    Fleet(Spec(false, false), EMPTY, map["a" := [], "b" := []], {}, false, false, {})

  function Grants(node: string, jobs: seq<JobSeen>, written: bool): Answers {
    Answers(false, true, Some([NodeSeen(node, false, [])]),
            (n: string) => n in {"a", "b"}, (n: string) => Some(0), (n: string) => true,
            (n: string) => Made, Some(jobs), (n: string) => n in {"a", "b"}, written)
  }

  /** The first pass selects node a and loses its write; from then on a is gone from the selection and all goes well. */
  function Turn(s: Fleet): Answers {
    if s.stray == {} then Grants("a", [], false)
    else Grants("b", if "b" in s.jobs then [JobSeen(Some("b"), 1, 0, true)] else [], true)
  }

  ghost predicate OnTrack(s: Fleet) {
    && Healthy(s) && s.spec == Spec(false, false) && s.nodes.Keys == {"a", "b"}
    && s.stray == {"a"} && Elems(s.status.all) <= {"b"} && s.status.pending == []
  }

  lemma OneCandidate(node: string)
    ensures Candidates([NodeSeen(node, false, [])]) == [node]
  {
    var s := [NodeSeen(node, false, [])];
    assert s[..0] == [] && Candidates(s[..0]) == [];
  }

  function Second(t: Taint): Fleet {
    FIRST.(nodes := map["a" := [t], "b" := []], stray := {"a"})
  }

  lemma LostEffect()
    ensures var e := Handle(FIRST.spec, FIRST.status, Turn(FIRST)); e.held == {"a"} && e.freed == {} && e.jobs == {}
  {
    OneCandidate("a");
    GrantedReached(["a"], Turn(FIRST).tainted);
    assert ["a"][..1] == ["a"];
  }

  lemma LostBegin(t: Taint)
    ensures After(t, FIRST, Turn(FIRST)) == Second(t)
  {
    LostEffect();
    OnlyATainted(t, Handle(FIRST.spec, FIRST.status, Turn(FIRST)));
  }

  lemma OnlyATainted(t: Taint, e: Effect)
    requires e.held == {"a"} && e.freed == {}
    ensures TaintsAfter(FIRST.nodes, t, e) == map["a" := [t], "b" := []]
  {
    assert [] + [t] == [t];
  }

  lemma SecondIsOnTrack(t: Taint)
    ensures OnTrack(Second(t)) && Fits(FIRST, Turn(FIRST))
  {
  }

  lemma TrackIsFavourable(s: Fleet)
    requires OnTrack(s)
    ensures Favourable(s, Turn(s))
  {
    OneCandidate("b");
    assert s.jobs <= {"b"};
    assert forall n :: n in s.status.all ==> n in Elems(s.status.all);
  }

  lemma TrackScope(t: Taint, s: Fleet)
    requires OnTrack(s)
    ensures var st := After(t, s, Turn(s)).status; st.pending == [] && Elems(st.all) <= {"b"}
  {
    OneCandidate("b");
    var s' := After(t, s, Turn(s));
    if s.status.state.NotStarted? {
      BeginFixesScope(t, s, Turn(s));
    } else {
      PassKeepsScope(t, s, Turn(s));
      assert s.status.all + [] == s.status.all;
    }
    assert Elems(s'.status.all) <= Elems(Scope(s'));
  }

  lemma TrackContinues(t: Taint, s: Fleet)
    requires OnTrack(s)
    ensures OnTrack(After(t, s, Turn(s))) && Favourable(s, Turn(s))
  {
    TrackIsFavourable(s);
    FavourablePassAdvances(t, s, Turn(s));
    TrackScope(t, s);
  }

  lemma TrackNeverEnds(t: Taint)
    ensures forall s :: OnTrack(s) ==>
      OnTrack(After(t, s, Turn(s))) && FavouredNext(t, s, Pass(Turn(s)), After(t, s, Turn(s)))
  {
    forall s | OnTrack(s)
      ensures OnTrack(After(t, s, Turn(s))) && FavouredNext(t, s, Pass(Turn(s)), After(t, s, Turn(s)))
    {
      TrackContinues(t, s);
    }
  }

  lemma LongTrack(t: Taint, first: Fleet) returns (states: seq<Fleet>, steps: seq<Step>)
    requires OnTrack(first)
    ensures Chain((s, step, s') => FavouredNext(t, s, step, s'), states, steps)
    ensures |states| == 10 && states[0] == first && OnTrack(states[9]) && states[9].status.state.Completed?
  {
    var favoured := (s, step, s') => FavouredNext(t, s, step, s');
    var track, move, to := s => OnTrack(s), s => Pass(Turn(s)), s => After(t, s, Turn(s));
    TrackNeverEnds(t);
    states, steps := Unroll(favoured, track, move, to, first, 9);
    assert track(states[9]);
    FavourableRunCompletes(t, states, steps, 9);
  }

  lemma OwnRun(t: Taint, first: Fleet, a: Answers, states: seq<Fleet>, steps: seq<Step>)
    requires Chain((s, step, s') => FavouredNext(t, s, step, s'), states, steps)
    requires Start(t, first) && Fits(first, a) && states[0] == After(t, first, a)
    ensures Run(t, [first] + states, [Pass(a)] + steps)
    ensures Chain((s, step, s') => OwnNext(t, s, step, s'), [first] + states, [Pass(a)] + steps)
  {
    var favoured := (s, step, s') => FavouredNext(t, s, step, s');
    var next := (s, step, s') => Next(t, s, step, s');
    var own := (s, step, s') => OwnNext(t, s, step, s');
    forall i | 0 <= i < |steps|
      ensures next(states[i], steps[i], states[i + 1]) && own(states[i], steps[i], states[i + 1])
    {
      assert favoured(states[i], steps[i], states[i + 1]);
    }
    assert next(first, Pass(a), states[0]) && own(first, Pass(a), states[0]);
    Prepend(next, first, Pass(a), states, steps);
    Prepend(own, first, Pass(a), states, steps);
  }

  /** There is a run that completes with a node still carrying the update's taint. */
  lemma CompletedCanLeaveATaint(t: Taint) returns (states: seq<Fleet>, steps: seq<Step>)
    ensures Run(t, states, steps) && |states| == 11
    ensures states[10].status.state.Completed? && Carriers(states[10].nodes, t) == {"a"}
  {
    LostBegin(t);
    SecondIsOnTrack(t);
    assert Start(t, FIRST);
    var later, moves := LongTrack(t, Second(t));
    OwnRun(t, FIRST, Turn(FIRST), later, moves);
    states, steps := [FIRST] + later, [Pass(Turn(FIRST))] + moves;
    StraysRemain(t, states, steps, later[9]);
  }

  lemma StraysRemain(t: Taint, states: seq<Fleet>, steps: seq<Step>, last: Fleet)
    requires Run(t, states, steps) && Chain((s, step, s') => OwnNext(t, s, step, s'), states, steps)
    requires |states| == 11 && states[10] == last && OnTrack(last) && last.status.state.Completed?
    ensures Carriers(last.nodes, t) == {"a"}
  {
    LeftBehindExactly(t, states, steps, 10);
  }

  // ---------------------------------------------------------------- two nodes before the canary is done

  /** A begin pass that is granted what it asks for, with these candidates. */
  ghost predicate Begins(a: Answers, first: string, rest: seq<string>) {
    && !a.deleted && a.verified && Selected(a.nodes) == [first] + rest && a.tainted(first) && a.pods(first) == Some(0)
  }

  lemma CanaryBegins(spec: Spec, a: Answers, first: string, rest: seq<string>)
    requires spec.canary && Begins(a, first, rest)
    ensures Handle(spec, EMPTY, a) == Effect(Status(Draining, [first], rest, [], [], [], []), true, {first}, {}, {})
  {
    var chosen := [first] + rest;
    assert chosen[..1] == [first] && chosen[1..] == rest && [first][..1] == [first] && [first][..0] == [];
    assert Busy([first], a.pods) == [] by {
      assert Busy([first][..0], a.pods) == [];
    }
    assert Elems([first]) == {first};
    GrantedReached([first], a.tainted);
  }

  /** Stored or lost, such a pass taints the first candidate; only a stored one begins the rollout. */
  lemma BeginStep(t: Taint, s: Fleet, a: Answers, first: string, rest: seq<string>)
    requires s.status == EMPTY && s.spec.canary && Begins(a, first, rest) && first in s.nodes
    ensures var s' := After(t, s, a);
      && s'.spec == s.spec && s'.nodes.Keys == s.nodes.Keys && s'.jobs == s.jobs && s'.widened == s.widened
      && Carriers(s'.nodes, t) == Carriers(s.nodes, t) + {first}
      && (a.written ==> s'.status == Status(Draining, [first], rest, [], [], [], []) && s'.staged)
      && (!a.written ==> s'.status == EMPTY && s'.staged == s.staged)
  {
    CanaryBegins(s.spec, a, first, rest);
    CarriersAfter(s.nodes, t, Handle(s.spec, s.status, a));
  }

  function Ready(name: string): NodeSeen {
    NodeSeen(name, false, [])
  }

  /** Both nodes are listed, in the given order. */
  function Listing(first: string, second: string, written: bool): Answers {
    Answers(false, true, Some([Ready(first), Ready(second)]),
            (n: string) => n in {first, second}, (n: string) => Some(0), (n: string) => true,
            (n: string) => Made, None, (n: string) => n in {first, second}, written)
  }

  lemma ListingBegins(a: string, b: string, written: bool)
    ensures Begins(Listing(a, b, written), a, [b])
  {
    var s := [Ready(a), Ready(b)];
    assert s[..1] == [Ready(a)];
    OneCandidate(a);
  }

  lemma ListingFits(s: Fleet, a: string, b: string, written: bool)
    requires s.nodes.Keys == {a, b} && a != b
    ensures Fits(s, Listing(a, b, written))
  {
  }

  /** A begin pass that loses its write, then one that does not, with another first candidate. */
  lemma LostThenBegun(t: Taint, s: Fleet, lost: Answers, begun: Answers, x: string, y: string)
    requires s.status == EMPTY && s.spec.canary && s.nodes.Keys == {x, y} && !s.widened
    requires Begins(lost, x, [y]) && !lost.written && Begins(begun, y, [x]) && begun.written
    ensures var s' := After(t, After(t, s, lost), begun);
      && s'.staged && !s'.widened && s'.status == Status(Draining, [y], [x], [], [], [], [])
      && Carriers(s'.nodes, t) == Carriers(s.nodes, t) + {x} + {y}
  {
    BeginStep(t, s, lost, x, [y]);
    BeginStep(t, After(t, s, lost), begun, y, [x]);
  }

  function Bare(x: string, y: string): Fleet {
    Fleet(Spec(true, false), EMPTY, map[x := [], y := []], {}, false, false, {})
  }

  lemma BareStarts(t: Taint, x: string, y: string)
    ensures Start(t, Bare(x, y)) && Bare(x, y).nodes.Keys == {x, y}
  {
  }

  lemma CompanySteps(t: Taint, s: Fleet, x: string, y: string)
    requires x != y && Start(t, s) && s.spec.canary && s.nodes.Keys == {x, y}
    ensures var s' := After(t, s, Listing(x, y, false));
      && Next(t, s, Pass(Listing(x, y, false)), s')
      && Next(t, s', Pass(Listing(y, x, true)), After(t, s', Listing(y, x, true)))
  {
    ListingBegins(x, y, false);
    BeginStep(t, s, Listing(x, y, false), x, [y]);
    ListingFits(s, x, y, false);
    ListingFits(After(t, s, Listing(x, y, false)), y, x, true);
  }

  /** For any two nodes there is a canary run with both tainted while the canary itself still drains. */
  lemma CanaryCanHaveCompany(t: Taint, x: string, y: string) returns (states: seq<Fleet>, steps: seq<Step>)
    requires x != y
    ensures Run(t, states, steps) && |states| == 3
    ensures states[2].staged && !states[2].widened && states[2].status.all == [y] && states[2].status.state.Draining?
    ensures Carriers(states[2].nodes, t) == {x, y}
  {
    var s, lost, begun := Bare(x, y), Listing(x, y, false), Listing(y, x, true);
    BareStarts(t, x, y);
    var s' := After(t, s, lost);
    var s'' := After(t, s', begun);
    CompanySteps(t, s, x, y);
    ListingBegins(x, y, false);
    ListingBegins(y, x, true);
    LostThenBegun(t, s, lost, begun, x, y);
    TwoSteps(t, s, Pass(lost), s', Pass(begun), s'');
    states, steps := [s, s', s''], [Pass(lost), Pass(begun)];
  }

  lemma TwoSteps(t: Taint, a: Fleet, p: Step, b: Fleet, q: Step, c: Fleet)
    requires Start(t, a) && Next(t, a, p, b) && Next(t, b, q, c)
    ensures Run(t, [a, b, c], [p, q])
  {
  }
}
