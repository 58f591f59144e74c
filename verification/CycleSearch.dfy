/** The depth-first three-colour walk of `findDependencyCycle`
  * (internal/plan/plan.go), over any kind of id. The graph maps an id to the
  * ids it depends on. */
module CycleSearch {
  import opened Text

  type Graph<T(==)> = map<T, seq<T>>

  ghost predicate Edge<T>(g: Graph<T>, a: T, b: T)
  {
    a in g && b in g[a]
  }

  ghost predicate WalkBetween<T>(g: Graph<T>, a: T, b: T, w: seq<T>)
  {
    && |w| >= 2 && w[0] == a && w[|w| - 1] == b
    && forall i, j :: 0 <= i && j == i + 1 && j < |w| ==> Edge(g, w[i], w[j])
  }

  /** b lies one or more dependency edges away from a. */
  ghost predicate Reaches<T(!new)>(g: Graph<T>, a: T, b: T)
  {
    exists w :: WalkBetween(g, a, b, w)
  }

  ghost predicate OnCycle<T(!new)>(g: Graph<T>, v: T)
  {
    Reaches(g, v, v)
  }

  ghost predicate Acyclic<T(!new)>(g: Graph<T>)
  {
    forall v :: !OnCycle(g, v)
  }

  ghost predicate Closed<T(!new)>(g: Graph<T>)
  {
    forall v, d :: Edge(g, v, d) ==> d in g
  }

  /** The id at position n is new and comes after all its dependencies. */
  ghost predicate OrderedAt<T(!new)>(g: Graph<T>, order: seq<T>, n: nat)
  {
    n < |order| ==>
      && order[n] in g && order[n] !in order[..n]
      && forall d :: d in g[order[n]] ==> d in order[..n]
  }

  ghost predicate DependenciesFirst<T(!new)>(g: Graph<T>, order: seq<T>)
  {
    forall n: nat :: OrderedAt(g, order, n)
  }

  lemma StepReaches<T(!new)>(g: Graph<T>, a: T, b: T)
    requires Edge(g, a, b)
    ensures Reaches(g, a, b)
  {
    assert WalkBetween(g, a, b, [a, b]);
  }

  lemma ReachFurther<T(!new)>(g: Graph<T>, a: T, b: T, c: T)
    requires Reaches(g, a, b) && Edge(g, b, c)
    ensures Reaches(g, a, c)
  {
    var w :| WalkBetween(g, a, b, w);
    assert WalkBetween(g, a, c, w + [c]);
  }

  /** Positions strictly fall along every edge, so a walk can never come back. */
  lemma {:induction false} OrderedWalkFalls<T(!new)>(g: Graph<T>, order: seq<T>, b: T, w: seq<T>, i: nat)
    requires DependenciesFirst(g, order)
    requires i < |order| && WalkBetween(g, order[i], b, w)
    ensures b in order[..i]
    decreases |w|
  {
    assert OrderedAt(g, order, i) && Edge(g, w[0], w[1]);
    assert w[1] in order[..i];
    if |w| > 2 {
      var j :| 0 <= j < i && order[j] == w[1];
      OrderedWalkFalls(g, order, b, w[1..], j);
    }
  }

  lemma OrderMeansAcyclic<T(!new)>(g: Graph<T>, order: seq<T>)
    requires DependenciesFirst(g, order)
    requires forall v :: v in g ==> v in order
    ensures Acyclic(g)
  {
    forall v ensures !OnCycle(g, v) {
      if OnCycle(g, v) {
        var w :| WalkBetween(g, v, v, w);
        assert Edge(g, w[0], w[1]);
        var i :| 0 <= i < |order| && order[i] == v;
        assert OrderedAt(g, order, i);
        OrderedWalkFalls(g, order, v, w, i);
      }
    }
  }

  datatype Color = White | Gray | Black

  /** Reading an absent key of the Go map gives the zero colour, white. */
  function Shade<T>(color: map<T, Color>, id: T): Color
  {
    if id in color then color[id] else White
  }

  /** The search invariant: the black ids, in finishing order, list every
    * dependency before its dependent. */
  ghost predicate Searching<T(!new)>(g: Graph<T>, color: map<T, Color>, finished: seq<T>)
  {
    && (forall v :: v in color ==> v in g && color[v] != White)
    && (forall v {:trigger v in finished} :: v in finished <==> Shade(color, v) == Black)
    && DependenciesFirst(g, finished)
  }

  /** The gray ids are the ancestors of the id being visited. */
  ghost predicate GrayAbove<T(!new)>(g: Graph<T>, color: map<T, Color>, id: T)
  {
    forall v {:trigger Reaches(g, v, id)} :: Shade(color, v) == Gray ==> Reaches(g, v, id)
  }

  /** Between two moments of the search: black stays black, the gray ids are
    * the same, and no id turns white again. */
  ghost predicate Advanced<T(!new)>(a: map<T, Color>, b: map<T, Color>)
  {
    && a.Keys <= b.Keys
    && forall v {:trigger Shade(b, v)} ::
         (Shade(b, v) == Gray <==> Shade(a, v) == Gray) && (Shade(a, v) == Black ==> Shade(b, v) == Black)
  }

  lemma FinishKeeps<T(!new)>(g: Graph<T>, before: map<T, Color>, color: map<T, Color>, finished: seq<T>, id: T)
    requires Searching(g, color, finished) && id in g
    requires Shade(before, id) == White && Advanced(before[id := Gray], color)
    requires forall d :: d in g[id] ==> Shade(color, d) == Black
    ensures Searching(g, color[id := Black], finished + [id])
    ensures Advanced(before, color[id := Black])
  {
    var order := finished + [id];
    assert Shade(color, id) == Gray;
    forall v ensures v in order <==> Shade(color[id := Black], v) == Black {
      assert v in finished <==> Shade(color, v) == Black;
    }
    forall d | d in g[id] ensures d in finished {}
    forall n: nat ensures OrderedAt(g, order, n) {
      assert OrderedAt(g, finished, n);
      if n < |finished| { assert order[..n] == finished[..n]; }
      if n == |finished| { assert order[..n] == finished; }
    }
    forall v
      ensures Shade(color[id := Black], v) == Gray <==> Shade(before, v) == Gray
      ensures Shade(before, v) == Black ==> Shade(color[id := Black], v) == Black
    {
      assert Shade(color, v) == Gray <==> Shade(before[id := Gray], v) == Gray;
    }
  }

  /** From the id being visited, its dependency is reached by all the gray ids. */
  lemma GrayAboveDependency<T(!new)>(g: Graph<T>, before: map<T, Color>, color: map<T, Color>, id: T, dep: T)
    requires GrayAbove(g, before, id) && Edge(g, id, dep)
    requires Advanced(before[id := Gray], color)
    ensures GrayAbove(g, color, dep)
  {
    forall v | Shade(color, v) == Gray ensures Reaches(g, v, dep) {
      assert Shade(before[id := Gray], v) == Gray;
      if v == id {
        StepReaches(g, id, dep);
      } else {
        assert Reaches(g, v, id);
        ReachFurther(g, v, id, dep);
      }
    }
  }

  /** The closure state of the search: the `color` map shared by all recursive
    * visits, and as a ghost the order in which ids turn black. */
  class Search<T(==,!new)> {
    const deps: Graph<T>
    var color: map<T, Color>
    ghost var finished: seq<T>

    constructor (deps: Graph<T>)
      ensures Valid() && this.deps == deps && color == map[] && finished == []
    {
      this.deps := deps;
      color, finished := map[], [];
    }

    ghost predicate Valid()
      reads this
    {
      Searching(deps, color, finished)
    }

    /** `visit`: None stands for the empty string of the Go closure. */
    method Visit(id: T) returns (cycle: Option<T>)
      requires Closed(deps)
      requires Valid() && id in deps && Shade(color, id) == White
      requires GrayAbove(deps, color, id)
      modifies this
      ensures cycle.Some? ==> OnCycle(deps, cycle.value)
      ensures cycle.None? ==> Valid() && Shade(color, id) == Black && Advanced(old(color), color)
      decreases deps.Keys - color.Keys
    {
      ghost var before := color;
      color := color[id := Gray];
      for i := 0 to |deps[id]|
        invariant Valid() && Advanced(before[id := Gray], color)
        invariant forall k :: 0 <= k < i ==> Shade(color, deps[id][k]) == Black
      {
        var dep := deps[id][i];
        assert Edge(deps, id, dep);
        GrayAboveDependency(deps, before, color, id, dep);
        match Shade(color, dep) {
          case Gray =>
            assert Reaches(deps, dep, dep);
            return Some(dep);
          case White =>
            assert id in deps.Keys - before.Keys && id !in deps.Keys - color.Keys;
            cycle := Visit(dep);
            if cycle.Some? { return; }
          case Black =>
        }
      }
      FinishKeeps(deps, before, color, finished, id);
      color := color[id := Black];
      finished := finished + [id];
      cycle := None;
    }
  }

  /** The outer loop: visit every id that is still white. */
  method FindCycle<T(==,!new)>(deps: Graph<T>, ids: seq<T>) returns (cycle: Option<T>, ghost order: seq<T>)
    requires Closed(deps)
    requires forall v :: v in deps <==> v in ids
    ensures cycle.None? <==> Acyclic(deps)
    ensures cycle.Some? ==> OnCycle(deps, cycle.value)
    ensures cycle.None? ==> DependenciesFirst(deps, order) && forall v :: v in deps ==> v in order
  {
    var search := new Search(deps);
    order := [];
    for i := 0 to |ids|
      invariant fresh(search) && search.Valid()
      invariant forall v :: Shade(search.color, v) != Gray
      invariant forall k :: 0 <= k < i ==> Shade(search.color, ids[k]) == Black
    {
      if Shade(search.color, ids[i]) == White {
        cycle := search.Visit(ids[i]);
        if cycle.Some? { return; }
      }
    }
    order := search.finished;
    OrderMeansAcyclic(deps, order);
    cycle := None;
  }
}
