/** What the validator decides: the logical reading of a schema. */
module SchemaMeaning {
  import opened JsonValue
  import opened SchemaGraph
  import opened SchemaLaws
  import opened SchemaTermination
  import opened SchemaReading
  import opened SchemaEntry

  /** References being expanded at this very path have a rank the current node has not risen above. */
  ghost predicate Quiet(rank: seq<nat>, n: nat, f: Frame)
    requires n < |rank|
  {
    forall k :: 0 <= k < |f.active| ==>
      && f.active[k].0 < |rank| && |f.active[k].1| <= |f.at|
      && (f.active[k].1 == f.at ==> rank[f.active[k].0] >= rank[n])
  }

  /** What has to hold where node `n` is run: `Ready`, and no reference that could come back. */
  ghost predicate Fine(rank: seq<nat>, n: nat, f: Frame) {
    Ready(f.schema, rank, n) && Quiet(rank, n, f)
  }

  // ---------------------------------------------------------------------
  // Trackers
  // ---------------------------------------------------------------------

  /** An attached tracker gains exactly the places that the node evaluates. */
  ghost predicate NodeTracks(s: Schema, rank: seq<nat>, n: nat, x: Json, st: State, out: State)
    requires Ready(s, rank, n)
  {
    && (st.tracker.Some? <==> out.tracker.Some?)
    && (st.tracker.Some? ==>
          forall p :: p in out.tracker.value <==> p in st.tracker.value || EvaluatedAt(true, s, rank, n, x, p))
  }

  ghost predicate ActionTracks(s: Schema, rank: seq<nat>, n: nat, x: Json, act: Action, st: State, out: State)
    requires ReadyAction(s, rank, n, x, act)
  {
    && (st.tracker.Some? <==> out.tracker.Some?)
    && (st.tracker.Some? ==>
          forall p :: p in out.tracker.value <==> p in st.tracker.value || MarkedBy(true, s, rank, n, x, act, p))
  }

  ghost predicate ActionsTrack(s: Schema, rank: seq<nat>, n: nat, x: Json, acts: seq<Action>, st: State, out: State)
    requires ReadyActions(s, rank, n, x, acts)
  {
    && (st.tracker.Some? <==> out.tracker.Some?)
    && (st.tracker.Some? ==>
          forall p :: p in out.tracker.value <==> p in st.tracker.value || EvaluatedBy(true, s, rank, n, x, acts, p))
  }

  // ---------------------------------------------------------------------
  // Nodes and actions
  // ---------------------------------------------------------------------

  lemma {:induction false} NodeMeans(fuel: nat, rank: seq<nat>, n: nat, f: Frame, st: State)
    requires Fine(rank, n, f) && RunNode(fuel, n, f, st).Some?
    ensures var out := RunNode(fuel, n, f, st).value;
            && (out.IsValid() <==> st.IsValid() && Satisfies(true, f.schema, rank, n, f.instance))
            && (out.IsValid() ==> NodeTracks(f.schema, rank, n, f.instance, st, out))
    decreases fuel, 0
  {
    assert StratifiedNode(f.schema, rank, n) && AcyclicNode(f.schema, rank, n);
    match f.schema.nodes[n]
    case BooleanSchema(_) =>
    case ObjectSchema(_, tracked, selfIndex) =>
      PlanMeans(fuel - 1, rank, n, PushResource(f, selfIndex), if tracked then State(st.errors, Some({})) else st);
    case RefSchema(target, selfIndex) =>
      if target.Some? {
        TargetMeans(fuel - 1, rank, n, target.value, PushResource(f, selfIndex), st);
      }
    case DynamicRefSchema(_, _) =>
  }

  /** A reference to a node of lower rank is never refused. */
  lemma {:induction false} TargetMeans(fuel: nat, rank: seq<nat>, n: nat, target: nat, f: Frame, st: State)
    requires Fine(rank, n, f) && target < |rank| && rank[target] < rank[n] && RunTarget(fuel, target, f, st).Some?
    ensures var out := RunTarget(fuel, target, f, st).value;
            && (out.IsValid() <==> st.IsValid() && Satisfies(true, f.schema, rank, target, f.instance))
            && (out.IsValid() ==> NodeTracks(f.schema, rank, target, f.instance, st, out))
    decreases fuel, 10
  {
    var next := PushResource(f, Some(target)).(active := f.active + [(target, f.at)]);
    assert (target, f.at) !in f.active;
    NodeMeans(fuel, rank, target, next, st);
  }

  /** The actions of a schema object, on the tracker it works with. */
  lemma {:induction false} PlanMeans(fuel: nat, rank: seq<nat>, n: nat, f: Frame, st: State)
    requires Fine(rank, n, f) && f.schema.nodes[n].ObjectSchema?
    requires f.schema.nodes[n].tracked ==> st.tracker == Some({})
    requires RunActions(fuel, f.schema.nodes[n].plan(f.instance), f, st).Some?
    ensures var out := RunActions(fuel, f.schema.nodes[n].plan(f.instance), f, st).value;
            && (out.IsValid() <==> st.IsValid() && Satisfies(true, f.schema, rank, n, f.instance))
            && (out.IsValid() ==> NodeTracks(f.schema, rank, n, f.instance, st, out))
    decreases fuel, 9
  {
    var s, x, node := f.schema, f.instance, f.schema.nodes[n];
    var acts := node.plan(x);
    var front, back := Front(acts, node.tracked), Back(acts, node.tracked);
    PlanIsReady(s, rank, n, x);
    if node.tracked {
      assert AcyclicNode(s, rank, n) && AcyclicPlan(rank, n, x, acts, node.tracked);
      assert acts == front + [Guarded(back)];
      RunActionsConcat(fuel, front, [Guarded(back)], f, st);
      var mid := RunActions(fuel, front, f, st).value;
      ActionsMean(fuel, rank, n, front, f, st);
      ActionsGrow(fuel, front, f, st);
      assert RunActions(fuel, [Guarded(back)], f, mid) == RunAction(fuel, Guarded(back), f, mid);
      if ShouldContinue(f, mid) {
        ActionsGrow(fuel, back, f, mid);
        assert back[0..] == back;
        BackMeans(fuel, rank, n, front, back, 0, f, mid);
      }
    } else {
      ActionsMean(fuel, rank, n, acts, f, st);
    }
  }

  lemma {:induction false} ActionsMean(fuel: nat, rank: seq<nat>, n: nat, acts: seq<Action>, f: Frame, st: State)
    requires Fine(rank, n, f) && ReadyActions(f.schema, rank, n, f.instance, acts)
    requires RunActions(fuel, acts, f, st).Some?
    ensures var out := RunActions(fuel, acts, f, st).value;
            && (out.IsValid() <==>
                st.IsValid() && forall i :: 0 <= i < |acts| ==>
                  SatisfiesAction(true, f.schema, rank, n, f.instance, acts[i]))
            && (out.IsValid() ==> ActionsTrack(f.schema, rank, n, f.instance, acts, st, out))
    decreases fuel, 7, acts
  {
    if acts != [] {
      var next := RunAction(fuel, acts[0], f, st).value;
      ActionGrows(fuel, acts[0], f, st);
      ActionMeans(fuel, rank, n, acts[0], f, st);
      ActionsMean(fuel, rank, n, acts[1..], f, next);
      ActionsGrow(fuel, acts[1..], f, next);
      assert acts == [acts[0]] + acts[1..];
    }
  }

  lemma {:induction false} ActionMeans(fuel: nat, rank: seq<nat>, n: nat, act: Action, f: Frame, st: State)
    requires Fine(rank, n, f) && ReadyAction(f.schema, rank, n, f.instance, act)
    requires RunAction(fuel, act, f, st).Some?
    ensures var out := RunAction(fuel, act, f, st).value;
            && (out.IsValid() <==> st.IsValid() && SatisfiesAction(true, f.schema, rank, n, f.instance, act))
            && (out.IsValid() ==> ActionTracks(f.schema, rank, n, f.instance, act, st, out))
    decreases fuel, 7, act
  {
    match act
    case Guarded(body) =>
      if ShouldContinue(f, st) {
        ActionsMean(fuel, rank, n, body, f, st);
      }
    case Fail(_) =>
    case Mark(_) =>
    case Visit(child, instance, step, suspended) =>
      var below := f.(instance := instance, at := f.at + step);
      if step == [] {
        assert below.at == f.at;
      }
      NodeMeans(fuel, rank, child, below, if suspended then State(st.errors, None) else st);
    case Unevaluated(_, _, _) =>
    case _ => ProbingMeans(fuel, rank, n, act, f, st);
  }

  /** The tracker holds what is seen when the turn of the `i`-th place comes. */
  ghost predicate TracksSeen(s: Schema, rank: seq<nat>, n: nat, x: Json, front: seq<Action>, back: seq<Action>, i: nat,
                             st: State)
    requires ReadyActions(s, rank, n, x, front) && ReadyBack(s, rank, n, x, back) && i <= |back|
  {
    st.tracker.Some? && forall p :: p in st.tracker.value <==> Seen(true, s, rank, n, x, front, back, i, p)
  }

  /**
   * unevaluatedProperties / unevaluatedItems: places in the tracker are passed
   * over. The others are visited with the tracker attached, which gains what
   * the visit evaluates, and then the place.
   */
  lemma {:induction false} BackMeans(fuel: nat, rank: seq<nat>, n: nat, front: seq<Action>, back: seq<Action>, i: nat,
                                    f: Frame, st: State)
    requires Fine(rank, n, f) && i <= |back|
    requires ReadyActions(f.schema, rank, n, f.instance, front) && ReadyBack(f.schema, rank, n, f.instance, back)
    requires st.tracker.Some?
    requires st.IsValid() ==> TracksSeen(f.schema, rank, n, f.instance, front, back, i, st)
    requires RunActions(fuel, back[i..], f, st).Some?
    ensures var out := RunActions(fuel, back[i..], f, st).value;
            && (out.IsValid() <==> st.IsValid() && SatisfiesBack(true, f.schema, rank, n, f.instance, front, back, i))
            && (out.IsValid() ==> TracksSeen(f.schema, rank, n, f.instance, front, back, |back|, out))
    decreases fuel, 8, |back| - i
  {
    if i < |back| {
      assert back[i..][0] == back[i] && back[i..][1..] == back[i + 1..];
      var next := RunAction(fuel, back[i], f, st).value;
      ActionGrows(fuel, back[i], f, st);
      OneBackMeans(fuel, rank, n, back[i], f, st);
      assert st.IsValid() ==>
          (next.IsValid() <==> SatisfiesOrSeen(true, f.schema, rank, n, f.instance, front, back, i));
      SatisfiesBackStep(true, f.schema, rank, n, f.instance, front, back, i);
      BackMeans(fuel, rank, n, front, back, i + 1, f, next);
      ActionsGrow(fuel, back[i + 1..], f, next);
    }
  }

  lemma {:induction false} OneBackMeans(fuel: nat, rank: seq<nat>, n: nat, act: Action, f: Frame, st: State)
    requires Fine(rank, n, f)
    requires act.Unevaluated? && act.child < |rank| && Height(act.instance) < Height(f.instance)
    requires st.tracker.Some? && RunAction(fuel, act, f, st).Some?
    ensures var out, seen := RunAction(fuel, act, f, st).value, act.place in st.tracker.value;
            && (out.IsValid() <==>
                st.IsValid() && (seen || Satisfies(true, f.schema, rank, act.child, act.instance)))
            && (out.IsValid() ==>
                  && out.tracker.Some?
                  && forall p :: p in out.tracker.value <==>
                                 || p in st.tracker.value || p == act.place
                                 || (!seen && EvaluatedAt(true, f.schema, rank, act.child, act.instance, p)))
    decreases fuel, 3
  {
    if ShouldContinue(f, st) && act.place !in st.tracker.value && !f.schema.nodes[act.child].BooleanSchema? {
      var below := f.(instance := act.instance, at := f.at + [act.place]);
      NodeMeans(fuel, rank, act.child, below, st);
    }
  }

  // ---------------------------------------------------------------------
  // Subschemas tried in contexts of their own
  // ---------------------------------------------------------------------

  ghost predicate ReadyProbe(s: Schema, rank: seq<nat>, n: nat, x: Json, p: Probe) {
    && Ready(s, rank, n) && p.child < |rank|
    && (Height(p.instance) < Height(x) || (p.instance == x && rank[p.child] < rank[n]))
  }

  ghost predicate ReadyProbes(s: Schema, rank: seq<nat>, n: nat, x: Json, probes: seq<Probe>) {
    Ready(s, rank, n) && forall k :: 0 <= k < |probes| ==> ReadyProbe(s, rank, n, x, probes[k])
  }

  lemma ProbesAreReady(s: Schema, rank: seq<nat>, n: nat, x: Json, act: Action, tracked: bool)
    requires act.Probes() && ReadyAction(s, rank, n, x, act)
    ensures ReadyProbes(s, rank, n, x, ProbesOf(act, x, tracked))
  {
  }

  ghost predicate Passes(s: Schema, rank: seq<nat>, p: Probe)
    requires Ready(s, rank, p.child)
  {
    Satisfies(true, s, rank, p.child, p.instance)
  }

  /** The positions, from the `i`-th on, of the probes that pass. */
  ghost function Passing(s: Schema, rank: seq<nat>, probes: seq<Probe>, i: nat): set<nat>
    requires Acyclic(s, rank) && forall k :: 0 <= k < |probes| ==> probes[k].child < |rank|
  {
    set k | i <= k < |probes| && Passes(s, rank, probes[k])
  }

  /** A recorded hit: a probe that passes, with the places it evaluates if it was tracked. */
  ghost predicate GoodHit(s: Schema, rank: seq<nat>, probes: seq<Probe>, h: Hit)
    requires Acyclic(s, rank) && forall k :: 0 <= k < |probes| ==> probes[k].child < |rank|
  {
    && h.index < |probes| && Passes(s, rank, probes[h.index])
    && var p := probes[h.index];
       forall place :: place in h.places <==> p.tracked && EvaluatedAt(true, s, rank, p.child, p.instance, place)
  }

  ghost predicate GoodHits(s: Schema, rank: seq<nat>, probes: seq<Probe>, hits: seq<Hit>)
    requires Acyclic(s, rank) && forall k :: 0 <= k < |probes| ==> probes[k].child < |rank|
  {
    forall k :: 0 <= k < |hits| ==> GoodHit(s, rank, probes, hits[k])
  }

  ghost function Indices(hits: seq<Hit>): set<nat> {
    set k | 0 <= k < |hits| :: hits[k].index
  }

  function AtMost(limit: Option<nat>, n: nat): nat {
    if limit.Some? && n > limit.value then limit.value else n
  }

  /** One probe more or less. */
  lemma PassingStep(s: Schema, rank: seq<nat>, probes: seq<Probe>, i: nat)
    requires Acyclic(s, rank) && forall k :: 0 <= k < |probes| ==> probes[k].child < |rank|
    requires i < |probes|
    ensures var rest := Passing(s, rank, probes, i + 1);
            && i !in rest
            && Passing(s, rank, probes, i) == if Passes(s, rank, probes[i]) then {i} + rest else rest
  {
  }

  lemma IndicesOfMore(hits: seq<Hit>, h: Hit)
    ensures Indices(hits + [h]) == Indices(hits) + {h.index}
  {
    var more := hits + [h];
    assert forall k :: 0 <= k < |hits| ==> more[k] == hits[k];
    assert more[|hits|] == h;
  }

  lemma OneProbeMeans(fuel: nat, rank: seq<nat>, n: nat, f: Frame, probes: seq<Probe>, i: nat)
    requires Ready(f.schema, rank, n)
    requires i < |probes| && ReadyProbes(f.schema, rank, n, f.instance, probes)
    requires RunNode(fuel, probes[i].child, ProbeFrame(f, probes[i]), ProbeState(probes[i])).Some?
    ensures var out := RunNode(fuel, probes[i].child, ProbeFrame(f, probes[i]), ProbeState(probes[i])).value;
            && (out.IsValid() <==> Passes(f.schema, rank, probes[i]))
            && (out.IsValid() ==> GoodHit(f.schema, rank, probes, Hit(i, out.tracker.GetOr({}))))
    decreases fuel, 1
  {
    var p := probes[i];
    assert ReadyProbe(f.schema, rank, n, f.instance, p);
    NodeMeans(fuel, rank, p.child, ProbeFrame(f, p), ProbeState(p));
  }

  /** What is known of the hits `all` after the probes from the `i`-th on, with `hits` before them. */
  ghost predicate Collects(s: Schema, rank: seq<nat>, probes: seq<Probe>, i: nat, limit: Option<nat>,
                           hits: seq<Hit>, all: seq<Hit>)
    requires Acyclic(s, rank) && forall k :: 0 <= k < |probes| ==> probes[k].child < |rank|
  {
    && GoodHits(s, rank, probes, all)
    && |all| == AtMost(limit, |hits| + |Passing(s, rank, probes, i)|)
    && (limit.None? ==> Indices(all) == Indices(hits) + Passing(s, rank, probes, i))
  }

  lemma AddIndex(indices: set<nat>, i: nat, rest: set<nat>)
    requires i !in rest
    ensures (indices + {i}) + rest == indices + ({i} + rest) && |{i} + rest| == 1 + |rest|
  {
  }

  lemma CollectsMore(s: Schema, rank: seq<nat>, probes: seq<Probe>, i: nat, limit: Option<nat>, hits: seq<Hit>,
                     hit: Hit, all: seq<Hit>)
    requires Acyclic(s, rank) && forall k :: 0 <= k < |probes| ==> probes[k].child < |rank|
    requires i < |probes| && hit.index == i && Passes(s, rank, probes[i])
    requires Collects(s, rank, probes, i + 1, limit, hits + [hit], all)
    ensures Collects(s, rank, probes, i, limit, hits, all)
  {
    var passing, rest := Passing(s, rank, probes, i), Passing(s, rank, probes, i + 1);
    assert passing == {i} + rest && i !in rest by {
      PassingStep(s, rank, probes, i);
    }
    assert Indices(hits + [hit]) == Indices(hits) + {i} by {
      IndicesOfMore(hits, hit);
    }
    AddIndex(Indices(hits), i, rest);
  }

  lemma CollectsSame(s: Schema, rank: seq<nat>, probes: seq<Probe>, i: nat, limit: Option<nat>, hits: seq<Hit>,
                     all: seq<Hit>)
    requires Acyclic(s, rank) && forall k :: 0 <= k < |probes| ==> probes[k].child < |rank|
    requires i < |probes| && !Passes(s, rank, probes[i])
    requires Collects(s, rank, probes, i + 1, limit, hits, all)
    ensures Collects(s, rank, probes, i, limit, hits, all)
  {
    PassingStep(s, rank, probes, i);
  }

  /** The hits are passing probes; all of them, unless a limit cut the search short. */
  lemma {:induction false} ProbesMean(fuel: nat, rank: seq<nat>, n: nat, f: Frame, probes: seq<Probe>, i: nat,
                                     limit: Option<nat>, hits: seq<Hit>)
    requires Ready(f.schema, rank, n)
    requires i <= |probes| && ReadyProbes(f.schema, rank, n, f.instance, probes)
    requires limit.Some? ==> |hits| <= limit.value
    requires GoodHits(f.schema, rank, probes, hits)
    requires RunProbes(fuel, f, probes, i, limit, hits).Some?
    ensures Collects(f.schema, rank, probes, i, limit, hits, RunProbes(fuel, f, probes, i, limit, hits).value)
    decreases fuel, 4, |probes| - i
  {
    if i == |probes| {
      assert Passing(f.schema, rank, probes, i) == {};
    } else if !(limit.Some? && |hits| >= limit.value) {
      var p := probes[i];
      var out := RunNode(fuel, p.child, ProbeFrame(f, p), ProbeState(p)).value;
      var hit := Hit(i, out.tracker.GetOr({}));
      OneProbeMeans(fuel, rank, n, f, probes, i);
      if out.IsValid() {
        ProbesMean(fuel, rank, n, f, probes, i + 1, limit, hits + [hit]);
        CollectsMore(f.schema, rank, probes, i, limit, hits, hit, RunProbes(fuel, f, probes, i, limit, hits).value);
      } else {
        ProbesMean(fuel, rank, n, f, probes, i + 1, limit, hits);
        CollectsSame(f.schema, rank, probes, i, limit, hits, RunProbes(fuel, f, probes, i, limit, hits).value);
      }
    }
  }

  lemma {:induction false} InAllPlaces(hits: seq<Hit>, p: Place)
    ensures p in AllPlaces(hits) <==> exists k :: 0 <= k < |hits| && p in hits[k].places
  {
    if hits != [] {
      InAllPlaces(hits[1..], p);
      assert hits == [hits[0]] + hits[1..];
    }
  }

  lemma SingletonSet<T>(s: set<T>, x: T)
    requires x in s
    ensures |s| == 1 <==> forall y :: y in s ==> y == x
  {
    assert s == {x} + (s - {x});
    if forall y :: y in s ==> y == x {
      assert s == {x};
    } else {
      var y :| y in s && y != x;
      assert y in s - {x};
    }
  }

  // What the passing probes say about each applicator

  /** The hits of a run of the probes of `act`. */
  ghost predicate Outcome(s: Schema, rank: seq<nat>, n: nat, x: Json, act: Action, tracked: bool, hits: seq<Hit>)
    requires act.Probes() && ReadyAction(s, rank, n, x, act)
  {
    ProbesAreReady(s, rank, n, x, act, tracked);
    Collects(s, rank, ProbesOf(act, x, tracked), 0, LimitOf(act, tracked), [], hits)
  }

  /** Concluding from the outcome decides the applicator, and marks what it evaluates. */
  ghost predicate Concludes(s: Schema, rank: seq<nat>, n: nat, x: Json, act: Action, at: Path, st: State,
                            hits: seq<Hit>)
    requires act.Probes() && ReadyAction(s, rank, n, x, act)
  {
    var out := Conclude(act, hits, at, st);
    && (out.IsValid() <==> st.IsValid() && SatisfiesAction(true, s, rank, n, x, act))
    && (out.IsValid() ==> ActionTracks(s, rank, n, x, act, st, out))
  }

  /** The positions of the subschemas that `x` satisfies. */
  ghost predicate AreSatisfied(s: Schema, rank: seq<nat>, x: Json, children: seq<nat>, passing: set<nat>)
    requires Acyclic(s, rank) && forall k :: 0 <= k < |children| ==> children[k] < |rank|
  {
    forall i: nat :: i in passing <==> i < |children| && Satisfies(true, s, rank, children[i], x)
  }

  lemma AnyOfMeaning(s: Schema, rank: seq<nat>, n: nat, x: Json, act: Action, passing: set<nat>)
    requires act.AnyOf? && ReadyAction(s, rank, n, x, act) && AreSatisfied(s, rank, x, act.children, passing)
    ensures SatisfiesAction(true, s, rank, n, x, act) <==> |passing| >= 1
  {
    if SatisfiesAction(true, s, rank, n, x, act) {
      var i :| 0 <= i < |act.children| && Satisfies(true, s, rank, act.children[i], x);
      assert i in passing;
    }
    if passing != {} {
      var i :| i in passing;
      assert Satisfies(true, s, rank, act.children[i], x);
    }
  }

  lemma IndexOfHit(hits: seq<Hit>, i: nat) returns (k: nat)
    requires i in Indices(hits)
    ensures k < |hits| && hits[k].index == i
  {
    k :| k < |hits| && hits[k].index == i;
  }

  /** Every hit holds what its subschema contributes. */
  ghost predicate Contributions(s: Schema, rank: seq<nat>, n: nat, x: Json, children: seq<nat>, hits: seq<Hit>)
    requires Ready(s, rank, n) && forall i :: 0 <= i < |children| ==>
               children[i] < |rank| && rank[children[i]] < rank[n]
  {
    forall k, p :: 0 <= k < |hits| ==>
      hits[k].index < |children| &&
      (p in hits[k].places <==> Contributes(true, s, rank, n, x, children[hits[k].index], p))
  }

  lemma HitsContribute(s: Schema, rank: seq<nat>, n: nat, x: Json, act: Action, hits: seq<Hit>)
    requires (act.AnyOf? || act.OneOf?) && ReadyAction(s, rank, n, x, act)
    requires ReadyProbes(s, rank, n, x, ProbesOf(act, x, true)) && GoodHits(s, rank, ProbesOf(act, x, true), hits)
    ensures Contributions(s, rank, n, x, act.children, hits)
  {
    forall k, p | 0 <= k < |hits|
      ensures hits[k].index < |act.children|
      ensures p in hits[k].places <==> Contributes(true, s, rank, n, x, act.children[hits[k].index], p)
    {
      assert GoodHit(s, rank, ProbesOf(act, x, true), hits[k]);
    }
  }

  lemma AllContributions(s: Schema, rank: seq<nat>, n: nat, x: Json, act: Action, hits: seq<Hit>, p: Place)
    requires act.AnyOf? && ReadyAction(s, rank, n, x, act) && Contributions(s, rank, n, x, act.children, hits)
    requires forall i: nat :: i < |act.children| && Satisfies(true, s, rank, act.children[i], x) ==> i in Indices(hits)
    ensures p in AllPlaces(hits) <==> MarkedBy(true, s, rank, n, x, act, p)
  {
    InAllPlaces(hits, p);
    if MarkedBy(true, s, rank, n, x, act, p) {
      var i: nat :| i < |act.children| && Contributes(true, s, rank, n, x, act.children[i], p);
      var k := IndexOfHit(hits, i);
    }
    if p in AllPlaces(hits) {
      var k :| 0 <= k < |hits| && p in hits[k].places;
      assert Contributes(true, s, rank, n, x, act.children[hits[k].index], p);
    }
  }

  lemma AnyOfMarks(s: Schema, rank: seq<nat>, n: nat, x: Json, act: Action, hits: seq<Hit>, p: Place)
    requires act.AnyOf? && ReadyAction(s, rank, n, x, act) && Outcome(s, rank, n, x, act, true, hits)
    ensures p in AllPlaces(hits) <==> MarkedBy(true, s, rank, n, x, act, p)
  {
    assert AreSatisfied(s, rank, x, act.children, Indices(hits));
    HitsContribute(s, rank, n, x, act, hits);
    AllContributions(s, rank, n, x, act, hits, p);
  }

  lemma AnyOfConcludes(s: Schema, rank: seq<nat>, n: nat, x: Json, act: Action, at: Path, st: State, hits: seq<Hit>)
    requires act.AnyOf? && ReadyAction(s, rank, n, x, act)
    requires Outcome(s, rank, n, x, act, st.tracker.Some?, hits)
    ensures Concludes(s, rank, n, x, act, at, st, hits)
  {
    var passing := Passing(s, rank, ProbesOf(act, x, st.tracker.Some?), 0);
    assert AreSatisfied(s, rank, x, act.children, passing);
    AnyOfMeaning(s, rank, n, x, act, passing);
    if st.tracker.Some? {
      forall p
        ensures p in AllPlaces(hits) <==> MarkedBy(true, s, rank, n, x, act, p)
      {
        AnyOfMarks(s, rank, n, x, act, hits, p);
      }
    }
  }

  lemma OneOfMeaning(s: Schema, rank: seq<nat>, n: nat, x: Json, act: Action, passing: set<nat>)
    requires act.OneOf? && ReadyAction(s, rank, n, x, act) && AreSatisfied(s, rank, x, act.children, passing)
    ensures SatisfiesAction(true, s, rank, n, x, act) <==> |passing| == 1
  {
    assert SatisfiesAction(true, s, rank, n, x, act) <==>
           exists i :: 0 <= i < |act.children| && OnlyChild(true, s, rank, n, x, act.children, i);
    if i: nat :| i < |act.children| && OnlyChild(true, s, rank, n, x, act.children, i) {
      assert i in passing && forall j :: j in passing ==> j == i;
      SingletonSet(passing, i);
    }
    if |passing| == 1 {
      var i :| i in passing;
      SingletonSet(passing, i);
      assert OnlyChild(true, s, rank, n, x, act.children, i);
    }
  }

  lemma OneOfMarks(s: Schema, rank: seq<nat>, n: nat, x: Json, act: Action, hits: seq<Hit>, p: Place)
    requires act.OneOf? && ReadyAction(s, rank, n, x, act) && Outcome(s, rank, n, x, act, true, hits)
    requires |hits| == 1
    ensures p in hits[0].places <==> MarkedBy(true, s, rank, n, x, act, p)
  {
    var probes, children, h := ProbesOf(act, x, true), act.children, hits[0];
    var passing := Passing(s, rank, probes, 0);
    assert GoodHit(s, rank, probes, h);
    assert h.index in passing;
    SingletonSet(passing, h.index);
    if i: nat :| i < |children| && Contributes(true, s, rank, n, x, children[i], p) {
      assert i in passing;
    }
    if p in h.places {
      assert Contributes(true, s, rank, n, x, children[h.index], p);
    }
  }

  lemma OneOfConcludes(s: Schema, rank: seq<nat>, n: nat, x: Json, act: Action, at: Path, st: State, hits: seq<Hit>)
    requires act.OneOf? && ReadyAction(s, rank, n, x, act)
    requires Outcome(s, rank, n, x, act, st.tracker.Some?, hits)
    ensures Concludes(s, rank, n, x, act, at, st, hits)
  {
    var passing := Passing(s, rank, ProbesOf(act, x, st.tracker.Some?), 0);
    assert AreSatisfied(s, rank, x, act.children, passing);
    OneOfMeaning(s, rank, n, x, act, passing);
    if st.tracker.Some? && |hits| == 1 {
      forall p
        ensures p in hits[0].places <==> MarkedBy(true, s, rank, n, x, act, p)
      {
        OneOfMarks(s, rank, n, x, act, hits, p);
      }
    }
  }

  lemma OnlyFirst(passing: set<nat>)
    requires forall i :: i in passing ==> i == 0
    ensures |passing| == if 0 in passing then 1 else 0
  {
    if 0 in passing {
      SingletonSet(passing, 0);
    } else {
      assert passing == {};
    }
  }

  lemma NotConcludes(s: Schema, rank: seq<nat>, n: nat, x: Json, act: Action, at: Path, st: State, hits: seq<Hit>)
    requires act.Not? && ReadyAction(s, rank, n, x, act)
    requires Outcome(s, rank, n, x, act, st.tracker.Some?, hits)
    ensures Concludes(s, rank, n, x, act, at, st, hits)
  {
    var passing := Passing(s, rank, ProbesOf(act, x, st.tracker.Some?), 0);
    assert 0 in passing <==> Satisfies(true, s, rank, act.child, x);
    OnlyFirst(passing);
  }

  /** The elements marked are those at the hits' positions. */
  lemma MarkedItems(hits: seq<Hit>, p: Place)
    ensures p in (set h | h in hits :: Item(h.index)) <==> p.Item? && p.index in Indices(hits)
  {
    if p.Item? && p.index in Indices(hits) {
      var k := IndexOfHit(hits, p.index);
      assert hits[k] in hits;
    }
  }

  lemma ContainsConcludes(s: Schema, rank: seq<nat>, n: nat, x: Json, act: Action, at: Path, st: State, hits: seq<Hit>)
    requires act.Contains? && ReadyAction(s, rank, n, x, act)
    requires Outcome(s, rank, n, x, act, st.tracker.Some?, hits)
    ensures Concludes(s, rank, n, x, act, at, st, hits)
  {
    var tracked := st.tracker.Some?;
    var matching := Matching(true, s, rank, n, x, act.child, act.items);
    if !(act.minContains == 0 && act.maxContains.None? && !tracked) {
      assert Passing(s, rank, ProbesOf(act, x, tracked), 0) == matching;
    }
    if tracked {
      assert Indices(hits) == matching;
      forall p
        ensures p in (set h | h in hits :: Item(h.index)) <==> MarkedBy(true, s, rank, n, x, act, p)
      {
        MarkedItems(hits, p);
      }
    }
  }

  lemma {:induction false} ProbingMeans(fuel: nat, rank: seq<nat>, n: nat, act: Action, f: Frame, st: State)
    requires Fine(rank, n, f) && act.Probes() && ReadyAction(f.schema, rank, n, f.instance, act)
    requires RunAction(fuel, act, f, st).Some?
    ensures var out := RunAction(fuel, act, f, st).value;
            && (out.IsValid() <==> st.IsValid() && SatisfiesAction(true, f.schema, rank, n, f.instance, act))
            && (out.IsValid() ==> ActionTracks(f.schema, rank, n, f.instance, act, st, out))
    decreases fuel, 6
  {
    var s, x, tracked := f.schema, f.instance, st.tracker.Some?;
    var probes, limit := ProbesOf(act, x, tracked), LimitOf(act, tracked);
    var hits := RunProbes(fuel, f, probes, 0, limit, []).value;
    ProbesAreReady(s, rank, n, x, act, tracked);
    ProbesMean(fuel, rank, n, f, probes, 0, limit, []);
    assert Outcome(s, rank, n, x, act, tracked, hits);
    match act {
      case AnyOf(_) => AnyOfConcludes(s, rank, n, x, act, f.at, st, hits);
      case OneOf(_) => OneOfConcludes(s, rank, n, x, act, f.at, st, hits);
      case Not(_) => NotConcludes(s, rank, n, x, act, f.at, st, hits);
      case Contains(_, _, _, _) => ContainsConcludes(s, rank, n, x, act, f.at, st, hits);
      case IfThenElse(_, _, _) => ConditionMeans(fuel, rank, n, act, f, st, hits);
    }
  }

  lemma {:induction false} ConditionMeans(fuel: nat, rank: seq<nat>, n: nat, act: Action, f: Frame, st: State,
                                          hits: seq<Hit>)
    requires Fine(rank, n, f) && act.IfThenElse? && ReadyAction(f.schema, rank, n, f.instance, act)
    requires Outcome(f.schema, rank, n, f.instance, act, st.tracker.Some?, hits)
    requires RunAction(fuel, act, f, st).Some?
    requires RunProbes(fuel, f, ProbesOf(act, f.instance, st.tracker.Some?), 0, None, []) == Some(hits)
    ensures var out := RunAction(fuel, act, f, st).value;
            && (out.IsValid() <==> st.IsValid() && SatisfiesAction(true, f.schema, rank, n, f.instance, act))
            && (out.IsValid() ==> ActionTracks(f.schema, rank, n, f.instance, act, st, out))
    decreases fuel, 5
  {
    var s, x, tracked := f.schema, f.instance, st.tracker.Some?;
    var passing := Passing(s, rank, ProbesOf(act, x, tracked), 0);
    assert 0 in passing <==> Satisfies(true, s, rank, act.condition, x);
    OnlyFirst(passing);
    if hits != [] {
      assert GoodHit(s, rank, ProbesOf(act, x, tracked), hits[0]);
    }
    var branch := Branch(act, hits);
    if branch.Some? {
      NodeMeans(fuel, rank, branch.value, f, Conclude(act, hits, f.at, st));
    }
  }

  // ---------------------------------------------------------------------
  // Whole validations
  // ---------------------------------------------------------------------

  /**
   * Both validators decide satisfaction, with the leak: no error is collected
   * exactly when the instance satisfies the root in that reading.
   */
  lemma ValidatorDecides(schema: Schema, rank: seq<nat>, instance: Json)
    requires Acyclic(schema, rank)
    ensures Collected(schema, instance, []) <==> Satisfies(true, schema, rank, schema.root, instance)
  {
    var fuel := ValidationReturns(schema, rank, instance, false);
    var out := RunRoot(fuel, schema, instance, false).value;
    NodeMeans(fuel, rank, schema.root, RootFrame(schema, instance, false), State([], None));
    assert RunRoot(fuel, schema, instance, false) == Some(State(out.errors, out.tracker));
    if Collected(schema, instance, []) {
      CollectedOnce(schema, instance, [], out.errors);
    }
  }

  /** The ranks only show that the reading is well founded: any two that do give the same reading. */
  lemma ReadingIsUnique(schema: Schema, rank: seq<nat>, other: seq<nat>, instance: Json)
    requires Acyclic(schema, rank) && Acyclic(schema, other)
    ensures Satisfies(true, schema, rank, schema.root, instance) <==>
            Satisfies(true, schema, other, schema.root, instance)
  {
    ValidatorDecides(schema, rank, instance);
    ValidatorDecides(schema, other, instance);
  }
}
