/** The plan contract and its dependency graph (internal/plan/plan.go):
  * structural validation and the three-colour depth-first cycle search. */
module PlanGraph {
  import opened Text
  import opened CycleSearch

  datatype Step = Step(id: string, action: string, tool: string, targets: seq<string>, dependsOn: seq<string>)

  datatype Plan = Plan(
    sessionID: string, intent: string, skillID: string,
    repoName: string, techStack: seq<string>, steps: seq<Step>)

  datatype StructureError =
    | SessionRequired
    | IntentTooShort
    | RepoNameRequired
    | TechStackRequired
    | NoSteps
    | FieldsRequired(step: nat)
    | DuplicateID(step: nat, id: string)
    | UnknownDependency(step: nat, dep: string)
    | SelfDependency(step: nat)
    | DependencyCycle(id: string)

  // ---------------------------------------------------------------- graph

  /** `byID`: a later step with the same id replaces an earlier one. */
  function ByID(steps: seq<Step>): map<string, Step>
  {
    if steps == [] then map[]
    else ByID(steps[..|steps| - 1])[steps[|steps| - 1].id := steps[|steps| - 1]]
  }

  /** The depends-on graph of a plan. */
  ghost function DependsOn(steps: seq<Step>): Graph<string>
  {
    map v | v in ByID(steps) :: ByID(steps)[v].dependsOn
  }

  // ------------------------------------------------------- execution order

  ghost predicate UniqueIDs(steps: seq<Step>)
  {
    forall i, j :: 0 <= i < j < |steps| ==> steps[i].id != steps[j].id
  }

  ghost predicate HasStep(steps: seq<Step>, id: string)
  {
    exists i :: 0 <= i < |steps| && steps[i].id == id
  }

  ghost predicate DependenciesExist(steps: seq<Step>)
  {
    forall i, d :: 0 <= i < |steps| && d in steps[i].dependsOn ==> HasStep(steps, d)
  }

  ghost predicate FieldsPresent(steps: seq<Step>)
  {
    forall i :: 0 <= i < |steps| ==>
      steps[i].id != "" && steps[i].action != "" && steps[i].tool != "" && steps[i].targets != []
  }

  /** The steps rearranged so that every dependency runs before its dependent. */
  ghost predicate ExecutionOrder(steps: seq<Step>, order: seq<Step>)
  {
    && multiset(order) == multiset(steps)
    && forall i, d :: 0 <= i < |order| && d in order[i].dependsOn ==> HasStep(order[..i], d)
  }

  ghost predicate Executable(steps: seq<Step>)
  {
    exists order :: ExecutionOrder(steps, order)
  }

  lemma {:induction false} ByIDFacts(steps: seq<Step>)
    ensures forall v :: v in ByID(steps) <==> HasStep(steps, v)
    ensures forall v :: v in ByID(steps) ==> ByID(steps)[v].id == v && ByID(steps)[v] in steps
    ensures UniqueIDs(steps) ==>
              forall i :: 0 <= i < |steps| ==> steps[i].id in ByID(steps) && ByID(steps)[steps[i].id] == steps[i]
  {
    if steps != [] {
      var front, last := steps[..|steps| - 1], steps[|steps| - 1];
      ByIDFacts(front);
      forall v ensures HasStep(steps, v) <==> HasStep(front, v) || v == last.id {
        assert HasStep(front, v) ==> HasStep(steps, v) by {
          if HasStep(front, v) {
            var i :| 0 <= i < |front| && front[i].id == v;
            assert steps[i].id == v;
          }
        }
        assert steps[|steps| - 1] == last;
        if HasStep(steps, v) && v != last.id {
          var i :| 0 <= i < |steps| && steps[i].id == v;
          assert front[i].id == v;
        }
      }
      if UniqueIDs(steps) {
        forall i | 0 <= i < |steps| ensures steps[i].id in ByID(steps) && ByID(steps)[steps[i].id] == steps[i] {
          if i < |front| { assert front[i] == steps[i]; }
        }
      }
    }
  }

  lemma ClosedWhenDependenciesExist(steps: seq<Step>)
    requires DependenciesExist(steps)
    ensures Closed(DependsOn(steps))
  {
    var g := DependsOn(steps);
    ByIDFacts(steps);
    forall v, d | Edge(g, v, d) ensures d in g {
      var i :| 0 <= i < |steps| && steps[i] == ByID(steps)[v];
      assert HasStep(steps, d);
    }
  }

  lemma {:induction false} SameElementsSameMultiset<T>(a: seq<T>, b: seq<T>)
    requires Distinct(a) && Distinct(b)
    requires forall x :: x in a <==> x in b
    ensures multiset(a) == multiset(b)
  {
    forall x ensures multiset(a)[x] == multiset(b)[x] {
      NoTwiceInMultiset(a, x);
      NoTwiceInMultiset(b, x);
      assert x in multiset(a) <==> x in a;
      assert x in multiset(b) <==> x in b;
    }
  }

  /** Every id once, looked up, is the steps rearranged. */
  lemma ByIDsSameSteps(steps: seq<Step>, ids: seq<string>, order: seq<Step>)
    requires UniqueIDs(steps) && |order| == |ids|
    requires forall i :: 0 <= i < |ids| ==>
                           ids[i] in ByID(steps) && ids[i] !in ids[..i] && order[i] == ByID(steps)[ids[i]]
    requires forall v :: v in ByID(steps) ==> v in ids
    ensures multiset(order) == multiset(steps)
  {
    ByIDFacts(steps);
    forall i, j | 0 <= i < j < |order| ensures order[i] != order[j] {
      assert order[i].id == ids[i] && order[j].id == ids[j] && ids[i] in ids[..j];
    }
    forall x ensures x in order <==> x in steps {
      if x in steps {
        var i :| 0 <= i < |steps| && steps[i] == x;
        assert HasStep(steps, x.id);
        var k :| 0 <= k < |ids| && ids[k] == x.id;
        assert order[k] == x;
      }
    }
    forall i, j | 0 <= i < j < |steps| ensures steps[i] != steps[j] {
      assert steps[i].id != steps[j].id;
    }
    SameElementsSameMultiset(order, steps);
  }

  /** A dependencies-first list of ids yields an execution order of the steps. */
  lemma OrderGivesExecution(steps: seq<Step>, ids: seq<string>)
    requires UniqueIDs(steps)
    requires DependenciesFirst(DependsOn(steps), ids)
    requires forall v :: v in ByID(steps) ==> v in ids
    ensures Executable(steps)
  {
    var g := ByID(steps);
    ByIDFacts(steps);
    forall i: nat | i < |ids| ensures ids[i] in g && ids[i] !in ids[..i] { assert OrderedAt(DependsOn(steps), ids, i); }
    var order := seq(|ids|, i requires 0 <= i < |ids| => g[ids[i]]);
    ByIDsSameSteps(steps, ids, order);
    forall i, d | 0 <= i < |order| && d in order[i].dependsOn ensures HasStep(order[..i], d) {
      assert OrderedAt(DependsOn(steps), ids, i);
      assert d in ids[..i];
      var j :| 0 <= j < i && ids[j] == d;
      assert order[..i][j].id == d;
    }
    assert ExecutionOrder(steps, order);
  }

  /** Conversely a graph with a cycle admits no such rearrangement. */
  lemma ExecutionMeansAcyclic(steps: seq<Step>)
    requires UniqueIDs(steps) && Executable(steps)
    ensures Acyclic(DependsOn(steps))
  {
    var order: seq<Step> :| ExecutionOrder(steps, order);
    var g := ByID(steps);
    ByIDFacts(steps);
    MultisetMembers(order, steps);
    var ids := seq(|order|, i requires 0 <= i < |order| => order[i].id);
    forall i | 0 <= i < |ids| ensures ids[i] in g && g[ids[i]] == order[i] {
      StepInGraph(steps, order[i]);
    }
    forall n: nat ensures OrderedAt(DependsOn(steps), ids, n) {
      if n < |ids| {
        forall d | d in g[ids[n]].dependsOn ensures d in ids[..n] {
          assert HasStep(order[..n], d);
          var j :| 0 <= j < n && order[..n][j].id == d;
          assert ids[..n][j] == d;
        }
        forall j | 0 <= j < n ensures ids[j] != ids[n] {
          if ids[j] == ids[n] {
            SameIDSameStep(steps, order[j], order[n]);
            TwiceInMultiset(order, j, n);
            NoTwiceInMultiset(steps, order[n]);
          }
        }
      }
    }
    forall v | v in g ensures v in ids {
      assert g[v] in order;
      var k :| 0 <= k < |order| && order[k] == g[v];
      assert ids[k] == v;
    }
    OrderMeansAcyclic(DependsOn(steps), ids);
  }

  lemma StepInGraph(steps: seq<Step>, s: Step)
    requires UniqueIDs(steps) && s in steps
    ensures s.id in ByID(steps) && ByID(steps)[s.id] == s
  {
    ByIDFacts(steps);
    var i :| 0 <= i < |steps| && steps[i] == s;
    assert HasStep(steps, s.id);
  }

  lemma SameIDSameStep(steps: seq<Step>, a: Step, b: Step)
    requires UniqueIDs(steps) && a in steps && b in steps && a.id == b.id
    ensures a == b
  {
    StepInGraph(steps, a);
    StepInGraph(steps, b);
  }

  /** `findDependencyCycle`, on unique non-empty ids and existing dependencies; the
    * other fields of a step play no part. */
  method FindDependencyCycle(steps: seq<Step>) returns (cycle: string)
    requires UniqueIDs(steps) && !HasStep(steps, "") && DependenciesExist(steps)
    ensures cycle == "" <==> Acyclic(DependsOn(steps))
    ensures cycle == "" <==> Executable(steps)
    ensures cycle != "" ==> OnCycle(DependsOn(steps), cycle)
  {
    var byID: map<string, Step> := map[];
    var ids: seq<string> := [];
    for i := 0 to |steps|
      invariant byID == ByID(steps[..i])
      invariant |ids| == i && forall k :: 0 <= k < i ==> ids[k] == steps[k].id
    {
      assert steps[..i + 1][..i] == steps[..i];
      byID := byID[steps[i].id := steps[i]];
      ids := ids + [steps[i].id];
    }
    assert steps[..|steps|] == steps;
    ByIDFacts(steps);
    ClosedWhenDependenciesExist(steps);
    forall v ensures v in byID <==> v in ids {
      if v in byID { var i :| 0 <= i < |steps| && steps[i].id == v; assert ids[i] == v; }
    }
    var found, order := FindCycle(map v | v in byID :: byID[v].dependsOn, ids);
    match found {
      case None =>
        OrderGivesExecution(steps, order);
        cycle := "";
      case Some(id) =>
        assert !Executable(steps) by {
          if Executable(steps) { ExecutionMeansAcyclic(steps); }
        }
        CycleIDKnown(DependsOn(steps), id);
        cycle := id;
    }
  }

  lemma CycleIDKnown(g: Graph<string>, id: string)
    requires OnCycle(g, id)
    ensures id in g
  {
    var w :| WalkBetween(g, id, id, w);
    assert Edge(g, w[0], w[1]);
  }

  // --------------------------------------------------- structural validation

  /** Go's `len` counts UTF-8 bytes. */
  function ByteLength(s: string): nat
  {
    if s == "" then 0
    else
      (if s[0] < '\U{80}' then 1 else if s[0] < '\U{800}' then 2 else if s[0] < '\U{10000}' then 3 else 4)
      + ByteLength(s[1..])
  }

  /** The characters of s from a code point on. */
  function CountFrom(s: string, from: char): nat
  {
    if s == "" then 0 else (if s[0] >= from then 1 else 0) + CountFrom(s[1..], from)
  }

  /** One byte for each character, and one more at each of three code points, as
    * section 3 of RFC 3629 lays UTF-8 out. */
  lemma {:induction false} ByteLengthIs(s: string)
    ensures ByteLength(s) == |s| + CountFrom(s, '\U{80}') + CountFrom(s, '\U{800}') + CountFrom(s, '\U{10000}')
  {
    if s != "" { ByteLengthIs(s[1..]); }
  }

  ghost predicate HeaderPresent(p: Plan)
  {
    && p.sessionID != "" && ByteLength(p.intent) >= 5 && p.repoName != ""
    && p.techStack != [] && p.steps != []
  }

  /** What a plan must be for the server to consider locking it: the required
    * fields, unique ids, and an order in which its steps can run. */
  ghost predicate WellStructured(p: Plan)
  {
    && HeaderPresent(p) && FieldsPresent(p.steps) && UniqueIDs(p.steps)
    && DependenciesExist(p.steps) && Executable(p.steps)
  }

  /** The same, spelled out on the fields of the plan. */
  lemma WellStructuredIff(p: Plan)
    ensures WellStructured(p) <==>
              && p.sessionID != "" && p.repoName != "" && p.techStack != [] && p.steps != []
              && ByteLength(p.intent) >= 5
              && (forall i :: 0 <= i < |p.steps| ==> p.steps[i].id != "" && p.steps[i].action != "")
              && (forall i :: 0 <= i < |p.steps| ==> p.steps[i].tool != "" && p.steps[i].targets != [])
              && (forall i, j :: 0 <= i < j < |p.steps| ==> p.steps[i].id != p.steps[j].id)
              && Executable(p.steps)
              && forall i, d :: 0 <= i < |p.steps| && d in p.steps[i].dependsOn ==>
                                  exists j :: 0 <= j < |p.steps| && p.steps[j].id == d
  {
    DependenciesExistIff(p.steps);
    assert FieldsPresent(p.steps) <==>
        && (forall i :: 0 <= i < |p.steps| ==> p.steps[i].id != "" && p.steps[i].action != "")
        && (forall i :: 0 <= i < |p.steps| ==> p.steps[i].tool != "" && p.steps[i].targets != []);
  }

  lemma DependenciesExistIff(steps: seq<Step>)
    ensures DependenciesExist(steps) <==>
              forall i, d :: 0 <= i < |steps| && d in steps[i].dependsOn ==>
                               exists j :: 0 <= j < |steps| && steps[j].id == d
  {
    if DependenciesExist(steps) {
      forall i, d | 0 <= i < |steps| && d in steps[i].dependsOn
        ensures exists j :: 0 <= j < |steps| && steps[j].id == d
      {
        assert HasStep(steps, d);
      }
    }
  }

  /** The dependency d of step i names another step of the plan. */
  ghost predicate GoodDependency(steps: seq<Step>, i: nat, d: string)
    requires i < |steps|
  {
    HasStep(steps, d) && d != steps[i].id
  }

  /** Every dependency up to the j-th of step i is good. */
  ghost predicate GoodBefore(steps: seq<Step>, i: nat, j: nat)
    requires i < |steps| && j <= |steps[i].dependsOn|
  {
    && (forall k: nat, d :: k < i && d in steps[k].dependsOn ==> GoodDependency(steps, k, d))
    && forall l :: 0 <= l < j ==> GoodDependency(steps, i, steps[i].dependsOn[l])
  }

  /** Step i, dependency j is the first bad one, and it is d. */
  ghost predicate FirstBad(steps: seq<Step>, i: nat, j: nat, d: string)
  {
    && i < |steps| && j < |steps[i].dependsOn| && steps[i].dependsOn[j] == d
    && GoodBefore(steps, i, j) && !GoodDependency(steps, i, d)
  }

  ghost predicate StepsDefect(steps: seq<Step>, e: StructureError)
  {
    match e
    case FieldsRequired(i) =>
      && i < |steps| && FieldsPresent(steps[..i]) && UniqueIDs(steps[..i]) && !FieldsPresent([steps[i]])
    case DuplicateID(i, id) =>
      && i < |steps| && FieldsPresent(steps[..i + 1]) && UniqueIDs(steps[..i])
      && steps[i].id == id && HasStep(steps[..i], id)
    case _ => false
  }

  ghost predicate DependencyDefect(steps: seq<Step>, e: StructureError)
  {
    match e
    case UnknownDependency(i, dep) => (exists j :: FirstBad(steps, i, j, dep)) && !HasStep(steps, dep)
    case SelfDependency(i) => i < |steps| && exists j :: FirstBad(steps, i, j, steps[i].id)
    case DependencyCycle(id) => DependenciesExist(steps) && !Executable(steps) && OnCycle(DependsOn(steps), id)
    case _ => false
  }

  /** A refusal names the first defect in the order of the checks: whatever is
    * checked before it holds. */
  ghost predicate Explains(p: Plan, e: StructureError)
  {
    match e
    case SessionRequired => p.sessionID == ""
    case IntentTooShort => p.sessionID != "" && ByteLength(p.intent) < 5
    case RepoNameRequired => p.sessionID != "" && ByteLength(p.intent) >= 5 && p.repoName == ""
    case TechStackRequired =>
      p.sessionID != "" && ByteLength(p.intent) >= 5 && p.repoName != "" && p.techStack == []
    case NoSteps =>
      p.sessionID != "" && ByteLength(p.intent) >= 5 && p.repoName != "" && p.techStack != [] && p.steps == []
    case FieldsRequired(_) => HeaderPresent(p) && StepsDefect(p.steps, e)
    case DuplicateID(_, _) => HeaderPresent(p) && StepsDefect(p.steps, e)
    case _ => HeaderPresent(p) && FieldsPresent(p.steps) && UniqueIDs(p.steps) && DependencyDefect(p.steps, e)
  }

  /** `ValidateStructure`: accepts exactly the plans that have an execution
    * order, and every refusal names the first defect. */
  method ValidateStructure(p: Plan) returns (err: Option<StructureError>)
    ensures err.None? <==> WellStructured(p)
    ensures err.Some? ==> Explains(p, err.value)
  {
    if p.sessionID == "" { return Some(SessionRequired); }
    if ByteLength(p.intent) < 5 { return Some(IntentTooShort); }
    if p.repoName == "" { return Some(RepoNameRequired); }
    if |p.techStack| == 0 { return Some(TechStackRequired); }
    if |p.steps| == 0 { return Some(NoSteps); }
    var ids: set<string>;
    err, ids := CheckSteps(p.steps);
    if err.None? {
      err := CheckDependencies(p.steps, ids);
    }
  }

  /** The first loop of `ValidateStructure`, filling the id set. */
  method CheckSteps(steps: seq<Step>) returns (err: Option<StructureError>, ids: set<string>)
    ensures err.None? <==> FieldsPresent(steps) && UniqueIDs(steps)
    ensures err.None? ==> forall v :: v in ids <==> HasStep(steps, v)
    ensures err.Some? ==> StepsDefect(steps, err.value)
  {
    ids := {};
    for i := 0 to |steps|
      invariant FieldsPresent(steps[..i]) && UniqueIDs(steps[..i])
      invariant forall v :: v in ids <==> HasStep(steps[..i], v)
    {
      var s := steps[i];
      if s.id == "" || s.action == "" || s.tool == "" || |s.targets| == 0 {
        assert [s][0] == s;
        return Some(FieldsRequired(i)), ids;
      }
      assert steps[..i + 1] == steps[..i] + [s];
      if s.id in ids {
        var k :| 0 <= k < i && steps[..i][k].id == s.id;
        assert steps[k].id == steps[i].id;
        return Some(DuplicateID(i, s.id)), ids;
      }
      forall k | 0 <= k < i ensures steps[k].id != s.id {
        assert steps[..i][k].id == steps[k].id;
      }
      ids := ids + {s.id};
      ExtendHasStep(steps[..i], s);
    }
    assert steps[..|steps|] == steps;
    err := None;
  }

  /** The dependency loop and the cycle search of `ValidateStructure`. */
  method CheckDependencies(steps: seq<Step>, ids: set<string>) returns (err: Option<StructureError>)
    requires FieldsPresent(steps) && UniqueIDs(steps)
    requires forall v :: v in ids <==> HasStep(steps, v)
    ensures err.None? <==> DependenciesExist(steps) && Executable(steps)
    ensures err.Some? ==> DependencyDefect(steps, err.value)
  {
    for i := 0 to |steps|
      invariant forall k: nat, d :: k < i && d in steps[k].dependsOn ==> GoodDependency(steps, k, d)
    {
      var s := steps[i];
      for j := 0 to |s.dependsOn|
        invariant GoodBefore(steps, i, j)
      {
        var dep := s.dependsOn[j];
        if dep !in ids {
          assert FirstBad(steps, i, j, dep);
          return Some(UnknownDependency(i, dep));
        }
        if dep == s.id {
          assert FirstBad(steps, i, j, dep);
          SelfDependencyNotExecutable(steps, s);
          return Some(SelfDependency(i));
        }
      }
    }
    forall i: nat, d | i < |steps| && d in steps[i].dependsOn ensures HasStep(steps, d) {
      assert GoodDependency(steps, i, d);
    }
    var cycle := FindDependencyCycle(steps);
    if cycle != "" { return Some(DependencyCycle(cycle)); }
    return None;
  }

  lemma SelfDependencyNotExecutable(steps: seq<Step>, s: Step)
    requires UniqueIDs(steps) && s in steps && s.id in s.dependsOn
    ensures !Executable(steps)
  {
    StepInGraph(steps, s);
    assert Edge(DependsOn(steps), s.id, s.id);
    StepReaches(DependsOn(steps), s.id, s.id);
    assert OnCycle(DependsOn(steps), s.id);
    if Executable(steps) { ExecutionMeansAcyclic(steps); }
  }

  lemma ExtendHasStep(steps: seq<Step>, s: Step)
    ensures forall v :: HasStep(steps + [s], v) <==> HasStep(steps, v) || v == s.id
  {
    forall v ensures HasStep(steps + [s], v) <==> HasStep(steps, v) || v == s.id {
      var more := steps + [s];
      assert more[|steps|] == s;
      if HasStep(steps, v) {
        var i :| 0 <= i < |steps| && steps[i].id == v;
        assert more[i].id == v;
      }
      if HasStep(more, v) && v != s.id {
        var i :| 0 <= i < |more| && more[i].id == v;
        assert steps[i].id == v;
      }
    }
  }
}
