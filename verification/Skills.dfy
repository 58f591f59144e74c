/** The linter (internal/linter/linter.go): two-tier skill registry, content
  * verdicts and plan validation. A compiled policy is a deterministic function
  * of the input document that may fail; what it computes is left open. */
module Skills {
  import opened Text
  import opened PlanGraph
  import opened Scope

  datatype Nature = Amplifier | Compensatory

  datatype Violation = Violation(policyID: string, message: string, nature: Nature)

  datatype Artifact = Artifact(path: string, content: string, op: string)

  datatype Input =
    | PlanView(plan: Plan)
    | ArtifactView(artifact: Artifact)
    | ChangesetView(files: seq<Artifact>, planHash: string)

  datatype Outcome = Found(violations: seq<Violation>) | EvalFailed(error: string)

  datatype Evaluator = Evaluator(run: Input -> Outcome)

  /** A registered skill: None is a tier-0 skill, published without a policy. */
  type Companion = Option<Evaluator>

  datatype Compiled = Compiles(evaluator: Evaluator) | CompileError(error: string)

  /** The registry as a value: both tiers, the corpus and the cap switch. */
  datatype Registry = Registry(
    operator: map<string, Companion>,
    sessions: map<string, map<string, Companion>>,
    corpus: Evaluator,
    allowWideScope: bool)

  function Uploads(r: Registry, sid: string): map<string, Companion>
  {
    if sid in r.sessions then r.sessions[sid] else map[]
  }

  /** The skills that apply to a session: the operator tier over its uploads. */
  function Merged(r: Registry, sid: string): map<string, Companion>
  {
    Uploads(r, sid) + r.operator
  }

  const UNKNOWN_SKILL := "unknown_skill"
  const EVAL_ERROR := "linter_eval_error"
  const SCOPE_CAP := "scope_breadth_cap"

  // --------------------------------------------------- verdict specification

  function Evaluated(ev: Evaluator, input: Input, context: string): seq<Violation>
  {
    match ev.run(input)
    case Found(vs) => vs
    case EvalFailed(error) => [Violation(EVAL_ERROR, context + error, Compensatory)]
  }

  /** strconv.Quote is modelled with the retry that reads this message; here
    * the message is a function of the skill and session names. */
  function UnknownSkill(message: (string, string) -> string, sid: string, skillID: string): Violation
  {
    Violation(UNKNOWN_SKILL, message(sid, skillID), Amplifier)
  }

  /** The declared skill's pass: fail-closed on an unknown name. */
  function DeclaredPass(skills: map<string, Companion>, message: (string, string) -> string, sid: string,
                        skillID: string, input: Input): seq<Violation>
  {
    if skillID == "" then []
    else if skillID !in skills then [UnknownSkill(message, sid, skillID)]
    else if skills[skillID].None? then []
    else Evaluated(skills[skillID].value, input, "")
  }

  /** The walk over the named skills other than the declared one. */
  function Walk(skills: map<string, Companion>, names: seq<string>, declared: string, input: Input): seq<Violation>
  {
    if names == [] then []
    else
      var before := Walk(skills, names[..|names| - 1], declared, input);
      var name := names[|names| - 1];
      if name == declared || name !in skills || skills[name].None? then before
      else before + Evaluated(skills[name].value, input, "skill " + name + ": ")
  }

  /** The verdict on content, given the skills that apply to the session. */
  ghost function VerdictOn(skills: map<string, Companion>, corpus: Evaluator, message: (string, string) -> string,
                           sid: string, skillID: string, input: Input): seq<Violation>
  {
    DeclaredPass(skills, message, sid, skillID, input) + Walk(skills, SortedSet(skills.Keys), skillID, input)
    + Evaluated(corpus, input, "")
  }

  ghost function ContentVerdict(r: Registry, message: (string, string) -> string, sid: string, skillID: string,
                                input: Input): seq<Violation>
  {
    VerdictOn(Merged(r, sid), r.corpus, message, sid, skillID, input)
  }

  function WideMessage(step: string, target: string): string
  {
    "step " + step + ": target " + target + " is too broad"
  }

  function WideIn(step: string, targets: seq<string>): seq<Violation>
  {
    if targets == [] then []
    else
      var n := |targets| - 1;
      WideIn(step, targets[..n])
      + if IsWideTarget(targets[n]) then [Violation(SCOPE_CAP, WideMessage(step, targets[n]), Amplifier)] else []
  }

  function WideScope(steps: seq<Step>): seq<Violation>
  {
    if steps == [] then []
    else WideScope(steps[..|steps| - 1]) + WideIn(steps[|steps| - 1].id, steps[|steps| - 1].targets)
  }

  function PlanVerdict(r: Registry, message: (string, string) -> string, p: Plan): seq<Violation>
  {
    (if r.allowWideScope then [] else WideScope(p.steps))
    + DeclaredPass(Merged(r, p.sessionID), message, p.sessionID, p.skillID, PlanView(p))
    + Evaluated(r.corpus, PlanView(p), "")
  }

  // -------------------------------------------------- registry operations

  function Registered(r: Registry, sid: string, name: string, companion: Companion): Registry
  {
    r.(sessions := r.sessions[sid := Uploads(r, sid)[name := companion]])
  }

  function Unregistered(r: Registry, sid: string): Registry
  {
    r.(sessions := r.sessions - {sid})
  }

  /** The inner map of one session: a heap object, as in Go. */
  class SkillTable {
    var skills: map<string, Companion>

    constructor (skills: map<string, Companion>)
      ensures this.skills == skills
    {
      this.skills := skills;
    }
  }

  class Linter {
    const compile: (string, string) -> Compiled
    const message: (string, string) -> string
    const allowWideScope: bool
    const corpus: Evaluator
    var skillCompanions: map<string, Companion>
    var sessionSkills: map<string, SkillTable>

    ghost function Tables(): set<SkillTable>
      reads this
    {
      set sid | sid in sessionSkills :: sessionSkills[sid]
    }

    /** No two sessions share an inner map. */
    ghost predicate Valid()
      reads this
    {
      forall a, b :: a in sessionSkills && b in sessionSkills && a != b ==> sessionSkills[a] != sessionSkills[b]
    }

    ghost function Value(): Registry
      reads this, Tables()
    {
      Registry(skillCompanions, map sid | sid in sessionSkills :: sessionSkills[sid].skills, corpus, allowWideScope)
    }

    twostate lemma SameTablesSameValue()
      requires unchanged(this) && forall t :: t in Tables() ==> unchanged(t)
      ensures Value() == old(Value())
    {
      forall sid | sid in sessionSkills ensures sessionSkills[sid].skills == old(sessionSkills[sid].skills) {
        assert sessionSkills[sid] in Tables();
      }
      assert Value().sessions == old(Value()).sessions;
    }

    /** A freshly loaded linter: operator tier and corpus, no sessions. */
    constructor (compile: (string, string) -> Compiled, message: (string, string) -> string,
                 allowWideScope: bool, corpus: Evaluator, operator: map<string, Companion>)
      ensures Valid() && Tables() == {}
      ensures this.compile == compile && this.message == message
      ensures Value() == Registry(operator, map[], corpus, allowWideScope)
    {
      this.compile, this.message, this.allowWideScope, this.corpus := compile, message, allowWideScope, corpus;
      skillCompanions, sessionSkills := operator, map[];
    }

    /** `compileSkillFromModule`: an empty source is a tier-0 skill. */
    function CompileModule(name: string, rego: string): Option<Companion>
    {
      if rego == "" then Some(None)
      else match compile(name, rego)
        case Compiles(ev) => Some(Some(ev))
        case CompileError(_) => None
    }

    method RegisterSessionSkill(sid: string, name: string, rego: string) returns (ok: bool)
      requires Valid()
      modifies this, Tables()
      ensures Valid() && fresh(Tables() - old(Tables()))
      ensures ok <==> sid != "" && name != "" && (rego == "" || compile(name, rego).Compiles?)
      ensures ok ==>
                Value() == Registered(old(Value()), sid, name,
                                      if rego == "" then None else Some(compile(name, rego).evaluator))
      ensures !ok ==> Value() == old(Value())
    {
      if sid == "" || name == "" { return false; }
      var companion := CompileModule(name, rego);
      if companion.None? { return false; }
      if sid !in sessionSkills {
        var table := new SkillTable(map[]);
        sessionSkills := sessionSkills[sid := table];
      }
      var table := sessionSkills[sid];
      table.skills := table.skills[name := companion.value];
      ok := true;
      ghost var after := Registered(old(Value()), sid, name, companion.value).sessions;
      forall s | s in sessionSkills ensures s in after && sessionSkills[s].skills == after[s] {}
      assert Value().sessions == after;
    }

    /** `AdoptSessions`: every inner map is copied into a fresh one, in whatever
      * order the outer map is walked. */
    method AdoptSessions(source: Linter?)
      requires Valid() && (source != null ==> source.Valid() && source != this)
      modifies `sessionSkills
      ensures Valid() && fresh(Tables() - old(Tables()))
      ensures source == null ==> sessionSkills == old(sessionSkills)
      ensures source != null ==> Tables() * source.Tables() <= old(Tables())
      ensures source != null ==>
                Value() == old(Value()).(sessions := old(Value()).sessions + source.Value().sessions)
    {
      if source == null { return; }
      var todo := source.sessionSkills.Keys;
      ghost var done: set<string> := {};
      while todo != {}
        invariant done + todo == source.sessionSkills.Keys && done !! todo
        invariant Valid() && fresh(Tables() - old(Tables()))
        invariant sessionSkills.Keys == old(sessionSkills.Keys) + done
        invariant forall sid :: sid in done ==>
                                  fresh(sessionSkills[sid])
                                  && sessionSkills[sid].skills == source.sessionSkills[sid].skills
        invariant forall sid :: sid in old(sessionSkills) && sid !in done ==>
                                  sessionSkills[sid] == old(sessionSkills[sid])
        decreases todo
      {
        var sid :| sid in todo;
        todo := todo - {sid};
        var copied := new SkillTable(source.sessionSkills[sid].skills);
        sessionSkills := sessionSkills[sid := copied];
        done := done + {sid};
      }
      AdoptedValue(source);
    }

    twostate lemma AdoptedValue(source: Linter)
      requires unchanged(`skillCompanions) && unchanged(source) && (forall t :: t in source.Tables() ==> unchanged(t))
      requires forall t :: t in old(Tables()) ==> unchanged(t)
      requires sessionSkills.Keys == old(sessionSkills.Keys) + source.sessionSkills.Keys
      requires forall sid :: sid in source.sessionSkills ==>
                               sessionSkills[sid].skills == source.sessionSkills[sid].skills
      requires forall sid :: sid in old(sessionSkills) && sid !in source.sessionSkills ==>
                               sessionSkills[sid] == old(sessionSkills[sid])
      ensures Value() == old(Value()).(sessions := old(Value()).sessions + source.Value().sessions)
    {
      forall sid | sid in old(sessionSkills) && sid !in source.sessionSkills
        ensures sessionSkills[sid].skills == old(sessionSkills[sid].skills)
      {
        assert old(sessionSkills[sid]) in old(Tables());
      }
      assert Value().sessions == old(Value()).sessions + source.Value().sessions;
    }

    method UnregisterSession(sid: string)
      requires Valid()
      modifies `sessionSkills
      ensures Valid() && Tables() <= old(Tables())
      ensures Value() == Unregistered(old(Value()), sid)
    {
      sessionSkills := sessionSkills - {sid};
    }

    /** `lookupSkill`. */
    function LookupSkill(sid: string, skillID: string): (found: Option<Companion>)
      reads this, Tables()
      ensures found == if skillID in Merged(Value(), sid) then Some(Merged(Value(), sid)[skillID]) else None
    {
      if skillID in skillCompanions then Some(skillCompanions[skillID])
      else if sid in sessionSkills && skillID in sessionSkills[sid].skills then Some(sessionSkills[sid].skills[skillID])
      else None
    }

    /** `evaluateSkillCompanion`. */
    method EvaluateSkillCompanion(sid: string, skillID: string, input: Input) returns (violations: seq<Violation>)
      ensures violations == DeclaredPass(Merged(Value(), sid), message, sid, skillID, input)
    {
      if skillID == "" { return []; }
      var found := LookupSkill(sid, skillID);
      if found.None? { return [UnknownSkill(message, sid, skillID)]; }
      if found.value.None? { return []; }
      match found.value.value.run(input)
      case Found(vs) => return vs;
      case EvalFailed(error) => return [Violation(EVAL_ERROR, "" + error, Compensatory)];
    }

    /** `evaluateAllSkills`: copy both tiers into one map, sort its keys, walk. */
    method EvaluateAllSkills(sid: string, declared: string, input: Input) returns (violations: seq<Violation>)
      ensures violations == Walk(Merged(Value(), sid), SortedSet(Merged(Value(), sid).Keys), declared, input)
    {
      var evs: map<string, Companion> := map[];
      if sid in sessionSkills { evs := sessionSkills[sid].skills; }
      evs := evs + skillCompanions;
      assert evs == Merged(Value(), sid);
      var names := SortedKeys(evs);
      violations := WalkSkills(evs, names, declared, input);
    }

    method EvaluateContent(sid: string, skillID: string, input: Input) returns (violations: seq<Violation>)
      ensures violations == ContentVerdict(Value(), message, sid, skillID, input)
    {
      ghost var r := Value();
      violations := EvaluateSkillCompanion(sid, skillID, input);
      var others := EvaluateAllSkills(sid, skillID, input);
      assert Value() == r && r.corpus == corpus;
      violations := violations + others + Evaluated(corpus, input, "");
    }

    method EvaluateArtifact(sid: string, skillID: string, a: Artifact) returns (violations: seq<Violation>)
      ensures violations == ContentVerdict(Value(), message, sid, skillID, ArtifactView(a))
    {
      violations := EvaluateContent(sid, skillID, ArtifactView(a));
    }

    method EvaluateChangeset(sid: string, skillID: string, files: seq<Artifact>, planHash: string)
      returns (violations: seq<Violation>)
      ensures violations == ContentVerdict(Value(), message, sid, skillID, ChangesetView(files, planHash))
    {
      violations := EvaluateContent(sid, skillID, ChangesetView(files, planHash));
    }

    method Validate(p: Plan) returns (violations: seq<Violation>)
      ensures violations == PlanVerdict(Value(), message, p)
    {
      violations := [];
      if !allowWideScope { violations := WideScopeViolations(p); }
      var declared := EvaluateSkillCompanion(p.sessionID, p.skillID, PlanView(p));
      violations := violations + declared + Evaluated(corpus, PlanView(p), "");
    }
  }

  /** The evaluation loop of `evaluateAllSkills`. */
  method WalkSkills(evs: map<string, Companion>, names: seq<string>, declared: string, input: Input)
    returns (violations: seq<Violation>)
    requires forall i :: 0 <= i < |names| ==> names[i] in evs
    ensures violations == Walk(evs, names, declared, input)
  {
    violations := [];
    for i := 0 to |names|
      invariant violations == Walk(evs, names[..i], declared, input)
    {
      var name := names[i];
      assert names[..i + 1][..i] == names[..i];
      if name == declared || evs[name].None? { continue; }
      match evs[name].value.run(input) {
        case Found(vs) => violations := violations + vs;
        case EvalFailed(error) =>
          violations := violations + [Violation(EVAL_ERROR, "skill " + name + ": " + error, Compensatory)];
      }
    }
    assert names[..|names|] == names;
  }

  /** `slices.Sorted(maps.Keys(m))`, the map walked in any order. */
  method SortedKeys(m: map<string, Companion>) returns (names: seq<string>)
    ensures names == SortedSet(m.Keys)
  {
    var todo, walked: seq<string> := m.Keys, [];
    while todo != {}
      invariant Elements(walked) + todo == m.Keys && Elements(walked) !! todo
      invariant Distinct(walked)
      decreases todo
    {
      var name :| name in todo;
      todo := todo - {name};
      walked := walked + [name];
    }
    names := SortStrings(walked);
    SortedDistinct(names, walked);
    assert Elements(walked) == m.Keys;
  }

  /** `wideScopeViolations`. */
  method WideScopeViolations(p: Plan) returns (violations: seq<Violation>)
    ensures violations == WideScope(p.steps)
  {
    violations := [];
    for i := 0 to |p.steps|
      invariant violations == WideScope(p.steps[..i])
    {
      assert p.steps[..i + 1][..i] == p.steps[..i];
      violations := AddWide(violations, p.steps[i]);
    }
    assert p.steps[..|p.steps|] == p.steps;
  }

  /** The inner loop, over one step's targets. */
  method AddWide(before: seq<Violation>, s: Step) returns (violations: seq<Violation>)
    ensures violations == before + WideIn(s.id, s.targets)
  {
    violations := before;
    assert before + [] == before;
    for j := 0 to |s.targets|
      invariant violations == before + WideIn(s.id, s.targets[..j])
    {
      var t, earlier := s.targets[j], s.targets[..j];
      assert s.targets[..j + 1][..j] == earlier;
      if IsWideTarget(t) {
        ghost var more := [Violation(SCOPE_CAP, WideMessage(s.id, t), Amplifier)];
        assert before + (WideIn(s.id, earlier) + more) == (before + WideIn(s.id, earlier)) + more;
        violations := violations + [Violation(SCOPE_CAP, WideMessage(s.id, t), Amplifier)];
      } else {
        assert WideIn(s.id, earlier) + [] == WideIn(s.id, earlier);
      }
    }
    assert s.targets[..|s.targets|] == s.targets;
  }

  /** One turn of the reload loop: load a new linter, adopt the sessions, swap. */
  method HotReload(running: Linter, corpus: Evaluator, operator: map<string, Companion>) returns (next: Linter)
    requires running.Valid()
    ensures fresh(next) && next.Valid() && next.Tables() !! running.Tables()
    ensures next.compile == running.compile && next.message == running.message
    ensures next.Value() == Registry(operator, running.Value().sessions, corpus, running.allowWideScope)
  {
    next := new Linter(running.compile, running.message, running.allowWideScope, corpus, operator);
    next.AdoptSessions(running);
    assert next.Value().sessions == running.Value().sessions;
  }

  datatype LateRequest = LateUpload(sid: string, name: string, rego: string) | LateEviction(sid: string)

  /** Requests still in flight on the old linter keep mutating it after the swap,
    * in any number and order; the new linter does not see that. */
  method LateRequestsAfterReload(running: Linter, corpus: Evaluator, operator: map<string, Companion>,
                                 late: seq<LateRequest>) returns (next: Linter)
    requires running.Valid()
    modifies running, running.Tables()
    ensures next.Valid()
    ensures next.Value() == Registry(operator, old(running.Value()).sessions, corpus, running.allowWideScope)
  {
    next := HotReload(running, corpus, operator);
    ghost var value := next.Value();
    for i := 0 to |late|
      invariant running.Valid() && next.Valid() && next != running && next.Value() == value
      invariant next.Tables() !! running.Tables()
      invariant fresh(running.Tables() - old(running.Tables()))
    {
      label Before:
      match late[i] {
        case LateUpload(sid, name, rego) =>
          var _ := running.RegisterSessionSkill(sid, name, rego);
        case LateEviction(sid) =>
          running.UnregisterSession(sid);
      }
      next.SameTablesSameValue@Before();
    }
  }
}
