/** What the linter's verdicts depend on (internal/linter/linter.go): every
  * applicable skill counts exactly once, and sessions are isolated over whole
  * runs of uploads, evictions and reloads. */
module Verdicts {
  import opened Text
  import opened PlanGraph
  import opened Scope
  import opened Skills

  type Message = (string, string) -> string

  // ------------------------------------------- every skill exactly once

  function PolicyIDs(vs: seq<Violation>): multiset<string>
  {
    if vs == [] then multiset{} else PolicyIDs(vs[..|vs| - 1]) + multiset{vs[|vs| - 1].policyID}
  }

  lemma SumAssoc(a: multiset<string>, b: multiset<string>, c: multiset<string>)
    ensures (a + b) + c == a + (b + c)
  {
  }

  lemma {:induction false} PolicyIDsConcat(a: seq<Violation>, b: seq<Violation>)
    ensures PolicyIDs(a + b) == PolicyIDs(a) + PolicyIDs(b)
  {
    if b == [] {
      assert a + b == a;
    } else {
      var front, last := b[..|b| - 1], b[|b| - 1];
      PolicyIDsConcat(a, front);
      assert (a + b)[..|a + b| - 1] == a + front && (a + b)[|a + b| - 1] == last;
      SumAssoc(PolicyIDs(a), PolicyIDs(front), multiset{last.policyID});
    }
  }

  function OutcomeIDs(outcome: Outcome): multiset<string>
  {
    match outcome
    case Found(vs) => PolicyIDs(vs)
    case EvalFailed(_) => multiset{EVAL_ERROR}
  }

  lemma EvaluatedIDs(ev: Evaluator, input: Input, context: string)
    ensures PolicyIDs(Evaluated(ev, input, context)) == OutcomeIDs(ev.run(input))
  {
    if ev.run(input).EvalFailed? {
      assert Evaluated(ev, input, context)[..0] == [];
    }
  }

  /** The policy ids one registered skill contributes to a verdict. */
  function CompanionIDs(companion: Companion, input: Input): multiset<string>
  {
    if companion.None? then multiset{} else OutcomeIDs(companion.value.run(input))
  }

  /** The sum over a set of skills, in no particular order. */
  ghost function Total(skills: map<string, Companion>, names: set<string>, input: Input): multiset<string>
    requires names <= skills.Keys
  {
    if names == {} then multiset{}
    else
      var name :| name in names;
      CompanionIDs(skills[name], input) + Total(skills, names - {name}, input)
  }

  lemma {:induction false} TotalPick(skills: map<string, Companion>, names: set<string>, name: string, input: Input)
    requires names <= skills.Keys && name in names
    ensures Total(skills, names, input) == CompanionIDs(skills[name], input) + Total(skills, names - {name}, input)
    decreases names
  {
    var picked :| picked in names
                  && Total(skills, names, input)
                     == CompanionIDs(skills[picked], input) + Total(skills, names - {picked}, input);
    if picked != name {
      TotalPick(skills, names - {picked}, name, input);
      TotalPick(skills, names - {name}, picked, input);
      assert names - {picked} - {name} == names - {name} - {picked};
    }
  }

  /** The sorted walk contributes every skill but the declared one, once each. */
  lemma {:induction false} WalkIDs(skills: map<string, Companion>, names: seq<string>, declared: string, input: Input)
    requires Distinct(names) && Elements(names) <= skills.Keys
    ensures PolicyIDs(Walk(skills, names, declared, input)) == Total(skills, Elements(names) - {declared}, input)
  {
    if names != [] {
      WalkIDs(skills, names[..|names| - 1], declared, input);
      WalkStep(skills, names, declared, input);
    }
  }

  lemma WalkStep(skills: map<string, Companion>, names: seq<string>, declared: string, input: Input)
    requires names != [] && Distinct(names) && Elements(names) <= skills.Keys
    ensures Elements(names[..|names| - 1]) <= skills.Keys
    ensures var front, name := names[..|names| - 1], names[|names| - 1];
            && PolicyIDs(Walk(skills, names, declared, input))
               == PolicyIDs(Walk(skills, front, declared, input))
                  + (if name == declared then multiset{} else CompanionIDs(skills[name], input))
            && Total(skills, Elements(names) - {declared}, input)
               == Total(skills, Elements(front) - {declared}, input)
                  + (if name == declared then multiset{} else CompanionIDs(skills[name], input))
  {
    var front, name := names[..|names| - 1], names[|names| - 1];
    assert names == front + [name];
    assert Elements(names) == Elements(front) + {name} && name !in Elements(front);
    if name == declared {
      assert Elements(names) - {declared} == Elements(front) - {declared};
    } else {
      TotalPick(skills, Elements(names) - {declared}, name, input);
      assert Elements(names) - {declared} - {name} == Elements(front) - {declared};
      if skills[name].Some? {
        EvaluatedIDs(skills[name].value, input, "skill " + name + ": ");
        PolicyIDsConcat(Walk(skills, front, declared, input),
          Evaluated(skills[name].value, input, "skill " + name + ": "));
      }
    }
  }

  /** No skill is registered under the empty name: uploads are refused it and
    * operator skills take their directory's name at least. */
  ghost predicate Named(r: Registry)
  {
    "" !in r.operator && forall sid :: sid in r.sessions ==> "" !in r.sessions[sid]
  }

  /** The content verdict, as policy ids: every skill of the merged tiers once,
    * the corpus once, and one unknown_skill exactly when a non-empty declared id
    * is in neither tier. */
  lemma ContentVerdictIDs(r: Registry, message: Message, sid: string, declared: string, input: Input)
    requires Named(r)
    ensures PolicyIDs(ContentVerdict(r, message, sid, declared, input)) ==
              Total(Merged(r, sid), Merged(r, sid).Keys, input)
              + OutcomeIDs(r.corpus.run(input))
              + UnknownIDs(Merged(r, sid), declared)
  {
    assert "" !in Merged(r, sid);
    VerdictOnIDs(Merged(r, sid), r.corpus, message, sid, declared, input);
  }

  function UnknownIDs(skills: map<string, Companion>, declared: string): multiset<string>
  {
    if declared != "" && declared !in skills then multiset{UNKNOWN_SKILL} else multiset{}
  }

  lemma VerdictOnIDs(skills: map<string, Companion>, corpus: Evaluator, message: Message, sid: string,
                     declared: string, input: Input)
    requires "" !in skills
    ensures PolicyIDs(VerdictOn(skills, corpus, message, sid, declared, input)) ==
              Total(skills, skills.Keys, input) + OutcomeIDs(corpus.run(input)) + UnknownIDs(skills, declared)
  {
    var first := DeclaredPass(skills, message, sid, declared, input);
    var walk := Walk(skills, SortedSet(skills.Keys), declared, input);
    PolicyIDsConcat(first, walk);
    PolicyIDsConcat(first + walk, Evaluated(corpus, input, ""));
    EvaluatedIDs(corpus, input, "");
    BothPasses(skills, message, sid, declared, input);
  }

  lemma BothPasses(skills: map<string, Companion>, message: Message, sid: string, declared: string, input: Input)
    requires "" !in skills
    ensures PolicyIDs(DeclaredPass(skills, message, sid, declared, input))
            + PolicyIDs(Walk(skills, SortedSet(skills.Keys), declared, input))
            == Total(skills, skills.Keys, input) + UnknownIDs(skills, declared)
  {
    SortedNames(skills.Keys);
    WalkIDs(skills, SortedSet(skills.Keys), declared, input);
    DeclaredIDs(skills, message, sid, declared, input);
    if declared in skills {
      TotalPick(skills, skills.Keys, declared, input);
      NoneAdded(Total(skills, skills.Keys, input));
    } else {
      assert skills.Keys - {declared} == skills.Keys;
      Swapped(UnknownIDs(skills, declared), Total(skills, skills.Keys, input));
    }
  }

  lemma NoneAdded(a: multiset<string>)
    ensures a + multiset{} == a
  {
  }

  lemma Swapped(a: multiset<string>, b: multiset<string>)
    ensures a + b == b + a
  {
  }

  lemma SortedNames(keys: set<string>)
    ensures Distinct(SortedSet(keys)) && Elements(SortedSet(keys)) == keys
  {
    var names := SortedSet(keys);
    forall i, j | 0 <= i < j < |names| ensures names[i] != names[j] { LessIrreflexive(names[i]); }
    assert forall x :: x in Elements(names) <==> x in keys;
  }

  lemma DeclaredIDs(skills: map<string, Companion>, message: Message, sid: string, declared: string, input: Input)
    ensures PolicyIDs(DeclaredPass(skills, message, sid, declared, input)) ==
              if declared == "" then multiset{}
              else if declared in skills then CompanionIDs(skills[declared], input)
              else multiset{UNKNOWN_SKILL}
  {
    if declared != "" {
      if declared !in skills {
        assert DeclaredPass(skills, message, sid, declared, input)[..0] == [];
      } else if skills[declared].Some? {
        EvaluatedIDs(skills[declared].value, input, "");
      }
    }
  }

  /** Declaring one registered skill, another, or none makes no difference to
    * the policies a piece of content violates. */
  lemma DeclaredSkillIrrelevant(r: Registry, message: Message, sid: string, a: string, b: string, input: Input)
    requires Named(r)
    requires a == "" || a in Merged(r, sid)
    requires b == "" || b in Merged(r, sid)
    ensures PolicyIDs(ContentVerdict(r, message, sid, a, input)) == PolicyIDs(ContentVerdict(r, message, sid, b, input))
  {
    ContentVerdictIDs(r, message, sid, a, input);
    ContentVerdictIDs(r, message, sid, b, input);
  }

  // ------------------------------------------------- what an upload changes

  /** Registering sets one entry of one session and nothing else. */
  lemma RegisteredIs(r: Registry, sid: string, name: string, companion: Companion, sid': string)
    ensures var r' := Registered(r, sid, name, companion);
            && r' == r.(sessions := r'.sessions)
            && Uploads(r', sid') == (if sid' == sid then Uploads(r, sid)[name := companion] else Uploads(r, sid'))
            && (sid' in r'.sessions <==> sid' in r.sessions || sid' == sid)
  {
  }

  /** Dropping a session empties it and touches nothing else. */
  lemma UnregisteredIs(r: Registry, sid: string, sid': string)
    ensures var r' := Unregistered(r, sid);
            && r' == r.(sessions := r'.sessions)
            && Uploads(r', sid') == (if sid' == sid then map[] else Uploads(r, sid'))
            && (sid' in r'.sessions <==> sid' in r.sessions && sid' != sid)
  {
  }

  /** What a registered policy finds in the input is part of the session's content
    * verdict, declared or not, unless an operator skill shadows its name. */
  lemma UploadedPolicyJudges(r: Registry, message: Message, sid: string, name: string, ev: Evaluator,
                             declared: string, input: Input, v: Violation)
    requires name != "" && name !in r.operator
    requires ev.run(input).Found? && v in ev.run(input).violations
    ensures v in ContentVerdict(Registered(r, sid, name, Some(ev)), message, sid, declared, input)
  {
    var skills := Merged(Registered(r, sid, name, Some(ev)), sid);
    assert skills[name] == Some(ev);
    SortedNames(skills.Keys);
    if declared != name { WalkFinds(skills, SortedSet(skills.Keys), declared, input, name, v); }
  }

  lemma {:induction false} WalkFinds(skills: map<string, Companion>, names: seq<string>, declared: string,
                                     input: Input, name: string, v: Violation)
    requires name in names && name != declared && name in skills && skills[name].Some?
    requires v in Evaluated(skills[name].value, input, "skill " + name + ": ")
    ensures v in Walk(skills, names, declared, input)
  {
    if names[|names| - 1] != name { WalkFinds(skills, names[..|names| - 1], declared, input, name, v); }
  }

  /** A policy that fails to evaluate is reported, never passed over. */
  lemma FailedPolicyReported(r: Registry, message: Message, sid: string, name: string, ev: Evaluator,
                             declared: string, input: Input)
    requires name != "" && name !in r.operator && ev.run(input).EvalFailed?
    ensures exists v :: v in ContentVerdict(Registered(r, sid, name, Some(ev)), message, sid, declared, input)
                        && v.policyID == "linter_eval_error"
  {
    var skills := Merged(Registered(r, sid, name, Some(ev)), sid);
    assert skills[name] == Some(ev);
    SortedNames(skills.Keys);
    var context := if declared == name then "" else "skill " + name + ": ";
    var v := Evaluated(ev, input, context)[0];
    if declared != name { WalkFinds(skills, SortedSet(skills.Keys), declared, input, name, v); }
    assert v in ContentVerdict(Registered(r, sid, name, Some(ev)), message, sid, declared, input);
  }

  // ------------------------------------------------------- plan verdicts

  lemma WideInLast(step: string, targets: seq<string>)
    requires targets != []
    ensures var n := |targets| - 1;
            WideIn(step, targets) == [] <==> WideIn(step, targets[..n]) == [] && !IsWideTarget(targets[n])
  {
  }

  lemma NarrowLast(targets: seq<string>)
    requires targets != []
    ensures var n := |targets| - 1;
            (forall t :: t in targets ==> !IsWideTarget(t)) <==>
              (forall t :: t in targets[..n] ==> !IsWideTarget(t)) && !IsWideTarget(targets[n])
  {
    var n := |targets| - 1;
    forall t ensures t in targets <==> t in targets[..n] || t == targets[n] {}
  }

  lemma {:induction false} WideInEmptyIff(step: string, targets: seq<string>)
    ensures WideIn(step, targets) == [] <==> forall t :: t in targets ==> !IsWideTarget(t)
  {
    if targets != [] {
      WideInEmptyIff(step, targets[..|targets| - 1]);
      WideInLast(step, targets);
      NarrowLast(targets);
    }
  }

  /** The scope cap is silent exactly on plans within it. */
  lemma {:induction false} WideScopeEmptyIff(steps: seq<Step>)
    ensures WideScope(steps) == [] <==> forall t :: t in AllTargets(steps) ==> !IsWideTarget(t)
  {
    if steps != [] {
      var last := steps[|steps| - 1];
      WideScopeEmptyIff(steps[..|steps| - 1]);
      WideInEmptyIff(last.id, last.targets);
      assert forall t :: t in AllTargets(steps) <==> t in AllTargets(steps[..|steps| - 1]) || t in last.targets;
    }
  }

  /** A plan passes validation exactly when it is within the cap (unless the
    * operator lifted it), its declared skill, if any, is registered and has
    * nothing to say, and neither has the corpus. */
  lemma AcceptedIff(r: Registry, message: Message, p: Plan)
    ensures PlanVerdict(r, message, p) == [] <==>
              && (r.allowWideScope || WithinCap(p))
              && (p.skillID == ""
                 || (p.skillID in Merged(r, p.sessionID) && Passes(Merged(r, p.sessionID)[p.skillID], PlanView(p))))
              && r.corpus.run(PlanView(p)) == Found([])
  {
    WideScopeEmptyIff(p.steps);
  }

  /** The plan verdict in full, as policy ids: the cap once per wide target unless it
    * is lifted, the declared skill, and the corpus. */
  lemma PlanVerdictIDs(r: Registry, message: Message, p: Plan)
    ensures PolicyIDs(PlanVerdict(r, message, p)) ==
              (if r.allowWideScope then multiset{} else CapIDs(AllTargets(p.steps)))
              + (if p.skillID == "" then multiset{}
                 else if p.skillID in Merged(r, p.sessionID)
                 then CompanionIDs(Merged(r, p.sessionID)[p.skillID], PlanView(p))
                 else multiset{"unknown_skill"})
              + OutcomeIDs(r.corpus.run(PlanView(p)))
  {
    var wide := if r.allowWideScope then [] else WideScope(p.steps);
    var declared := DeclaredPass(Merged(r, p.sessionID), message, p.sessionID, p.skillID, PlanView(p));
    PolicyIDsConcat(wide, declared);
    PolicyIDsConcat(wide + declared, Evaluated(r.corpus, PlanView(p), ""));
    EvaluatedIDs(r.corpus, PlanView(p), "");
    DeclaredIDs(Merged(r, p.sessionID), message, p.sessionID, p.skillID, PlanView(p));
    WideScopeIDs(p.steps);
  }

  function CapID(target: string): multiset<string>
  {
    if IsWideTarget(target) then multiset{"scope_breadth_cap"} else multiset{}
  }

  /** One cap violation for each wide target. */
  function CapIDs(targets: seq<string>): multiset<string>
  {
    if targets == [] then multiset{} else CapIDs(targets[..|targets| - 1]) + CapID(targets[|targets| - 1])
  }

  lemma CapSnoc(targets: seq<string>, t: string)
    ensures CapIDs(targets + [t]) == CapIDs(targets) + CapID(t)
  {
    assert (targets + [t])[..|targets|] == targets;
  }

  lemma {:induction false} CapIDsConcat(a: seq<string>, b: seq<string>)
    ensures CapIDs(a + b) == CapIDs(a) + CapIDs(b)
  {
    if b == [] {
      assert a + b == a;
    } else {
      var front, t := b[..|b| - 1], b[|b| - 1];
      assert a + b == (a + front) + [t];
      CapIDsConcat(a, front);
      CapSnoc(a + front, t);
      SumAssoc(CapIDs(a), CapIDs(front), CapID(t));
    }
  }

  lemma {:induction false} WideInIDs(step: string, targets: seq<string>)
    ensures PolicyIDs(WideIn(step, targets)) == CapIDs(targets)
  {
    if targets != [] {
      var n := |targets| - 1;
      WideInIDs(step, targets[..n]);
      var v := Violation(SCOPE_CAP, WideMessage(step, targets[n]), Amplifier);
      OneID(WideIn(step, targets[..n]), v);
      assert WideIn(step, targets[..n]) + [] == WideIn(step, targets[..n]);
    }
  }

  lemma OneID(before: seq<Violation>, v: Violation)
    ensures PolicyIDs(before + [v]) == PolicyIDs(before) + multiset{v.policyID}
  {
    assert (before + [v])[..|before|] == before;
  }

  lemma {:induction false} WideScopeIDs(steps: seq<Step>)
    ensures PolicyIDs(WideScope(steps)) == CapIDs(AllTargets(steps))
  {
    if steps != [] {
      var front, last := steps[..|steps| - 1], steps[|steps| - 1];
      WideScopeIDs(front);
      WideInIDs(last.id, last.targets);
      PolicyIDsConcat(WideScope(front), WideIn(last.id, last.targets));
      CapIDsConcat(AllTargets(front), last.targets);
    }
  }

  ghost predicate Passes(companion: Companion, input: Input)
  {
    companion.Some? ==> companion.value.run(input) == Found([])
  }

  /** A plan that passes validation is within the cap (unless the operator lifted
    * it) and its declared skill, if any, is registered. */
  lemma AcceptedPlan(r: Registry, message: Message, p: Plan)
    requires PlanVerdict(r, message, p) == []
    ensures !r.allowWideScope ==> WithinCap(p)
    ensures p.skillID == "" || p.skillID in Merged(r, p.sessionID)
    ensures Evaluated(r.corpus, PlanView(p), "") == []
  {
    WideScopeEmptyIff(p.steps);
  }

  // --------------------------------------------------- isolation over runs

  datatype Event =
    | Register(sid: string, name: string, companion: Option<Companion>)  // None: the upload did not compile
    | Unregister(sid: string)
    | Reload(operator: map<string, Companion>, corpus: Evaluator)

  function Next(r: Registry, e: Event): Registry
  {
    match e
    case Register(sid, name, companion) =>
      if sid == "" || name == "" || companion.None? then r else Registered(r, sid, name, companion.value)
    case Unregister(sid) => Unregistered(r, sid)
    case Reload(operator, corpus) => Registry(operator, r.sessions, corpus, r.allowWideScope)
  }

  function Run(r: Registry, events: seq<Event>): Registry
  {
    if events == [] then r else Next(Run(r, events[..|events| - 1]), events[|events| - 1])
  }

  /** An accepted upload of the name into the session. */
  predicate Uploaded(e: Event, sid: string, name: string)
  {
    e.Register? && e.sid == sid && e.name == name && e.companion.Some? && sid != "" && name != ""
  }

  /** Event i uploaded the name into the session, and nothing since replaced it or
    * dropped the session. */
  ghost predicate LastUpload(events: seq<Event>, i: nat, sid: string, name: string)
  {
    && i < |events| && Uploaded(events[i], sid, name)
    && forall j :: i < j < |events| ==> !Uploaded(events[j], sid, name) && events[j] != Unregister(sid)
  }

  lemma LastUploadSnoc(events: seq<Event>, i: nat, sid: string, name: string)
    requires events != []
    ensures var n := |events| - 1;
            LastUpload(events, i, sid, name) <==>
              (LastUpload(events[..n], i, sid, name) && !Uploaded(events[n], sid, name) && events[n] != Unregister(sid))
              || (i == n && Uploaded(events[n], sid, name))
  {
    var n := |events| - 1;
    if i < n {
      assert events[..n][i] == events[i];
      assert forall j :: i < j < n ==> events[..n][j] == events[j];
    }
  }

  lemma NextUploads(r: Registry, e: Event, sid: string, name: string)
    ensures var was, now := Uploads(r, sid), Uploads(Next(r, e), sid);
            if Uploaded(e, sid, name) then name in now && now[name] == e.companion.value
            else if e == Unregister(sid) then name !in now
            else (name in now <==> name in was) && (name in was ==> now[name] == was[name])
  {
  }

  /** What a session's tier holds is history: over any run from an empty tier, a name
    * is there if and only if an accepted upload of it still stands, and it is bound
    * to that upload's policy. */
  lemma {:induction false} TierIsHistory(r: Registry, events: seq<Event>, sid: string, name: string)
    requires r.sessions == map[]
    ensures name in Uploads(Run(r, events), sid) <==> exists i: nat :: LastUpload(events, i, sid, name)
    ensures forall i: nat :: LastUpload(events, i, sid, name) ==>
              name in Uploads(Run(r, events), sid)
              && Uploads(Run(r, events), sid)[name] == events[i].companion.value
  {
    if events != [] {
      var n := |events| - 1;
      TierIsHistory(r, events[..n], sid, name);
      NextUploads(Run(r, events[..n]), events[n], sid, name);
      forall i: nat { LastUploadSnoc(events, i, sid, name); }
      if i: nat :| LastUpload(events[..n], i, sid, name) {
        if !Uploaded(events[n], sid, name) && events[n] != Unregister(sid) { assert LastUpload(events, i, sid, name); }
      }
      if Uploaded(events[n], sid, name) { assert LastUpload(events, n, sid, name); }
    }
  }

  /** The operator tier and the corpus are those of the last reload; nothing else
    * touches them. */
  lemma {:induction false} ReloadIsHistory(r: Registry, events: seq<Event>)
    ensures var r' := Run(r, events);
            (exists i :: 0 <= i < |events| && events[i].Reload? && r'.operator == events[i].operator
                         && r'.corpus == events[i].corpus && forall j :: i < j < |events| ==> !events[j].Reload?)
            || (r'.operator == r.operator && r'.corpus == r.corpus
                && forall j :: 0 <= j < |events| ==> !events[j].Reload?)
  {
    if events != [] {
      var n := |events| - 1;
      ReloadIsHistory(r, events[..n]);
      assert forall j :: 0 <= j < n ==> events[..n][j] == events[j];
    }
  }

  /** What a session can see of a run: reloads and its own uploads. */
  function Seen(events: seq<Event>, sid: string): seq<Event>
  {
    if events == [] then []
    else
      var e := events[|events| - 1];
      Seen(events[..|events| - 1], sid) + if e.Reload? || e.sid == sid then [e] else []
  }

  lemma SeenSnoc(h: seq<Event>, sid: string, last: Event)
    ensures Seen(h + [last], sid) == if !last.Reload? && last.sid != sid then Seen(h, sid) else Seen(h, sid) + [last]
  {
    assert (h + [last])[..|h|] == h;
  }

  /** Nothing but uploads and evictions of other sessions is left out. */
  lemma {:induction false} SeenIs(h: seq<Event>, sid: string, e: Event)
    ensures Times(Seen(h, sid), e) == if !e.Reload? && e.sid != sid then 0 else Times(h, e)
  {
    if h != [] {
      var front, last := h[..|h| - 1], h[|h| - 1];
      assert h == front + [last];
      SeenIs(front, sid, e);
      SeenSnoc(front, sid, last);
      TimesSnoc(front, last, e);
      TimesSnoc(Seen(front, sid), last, e);
    }
  }

  ghost predicate SameFor(a: Registry, b: Registry, sid: string)
  {
    a.operator == b.operator && a.corpus == b.corpus && a.allowWideScope == b.allowWideScope
      && Uploads(a, sid) == Uploads(b, sid)
  }

  lemma {:induction false} IsolatedRun(r: Registry, events: seq<Event>, sid: string)
    ensures SameFor(Run(r, events), Run(r, Seen(events, sid)), sid)
  {
    if events != [] {
      var front, e := events[..|events| - 1], events[|events| - 1];
      IsolatedRun(r, front, sid);
      var seen := Seen(front, sid);
      assert seen + [] == seen && (seen + [e])[..|seen|] == seen;
      NextSameFor(Run(r, front), Run(r, seen), e, sid);
    }
  }

  lemma NextSameFor(a: Registry, b: Registry, e: Event, sid: string)
    requires SameFor(a, b, sid)
    ensures SameFor(Next(a, e), Next(b, e), sid)
    ensures !e.Reload? && e.sid != sid ==> SameFor(Next(a, e), b, sid)
  {
  }

  /** Tier isolation: whatever other sessions upload or drop, a session's content
    * and plan verdicts depend only on the reloads and its own uploads. */
  lemma TierIsolation(r: Registry, events: seq<Event>, message: Message, sid: string, declared: string, input: Input,
                      p: Plan)
    requires p.sessionID == sid
    ensures ContentVerdict(Run(r, events), message, sid, declared, input)
            == ContentVerdict(Run(r, Seen(events, sid)), message, sid, declared, input)
    ensures PlanVerdict(Run(r, events), message, p) == PlanVerdict(Run(r, Seen(events, sid)), message, p)
  {
    IsolatedRun(r, events, sid);
  }

  /** An upload under a name the operator holds changes no verdict, in any
    * session; an upload that does not compile changes nothing at all. */
  lemma ShadowedUpload(r: Registry, message: Message, e: Event, sid: string, declared: string, input: Input, p: Plan)
    requires e.Register? && (e.name in r.operator || e.companion.None?)
    ensures Next(r, e) == r || e.companion.Some?
    ensures ContentVerdict(Next(r, e), message, sid, declared, input)
            == ContentVerdict(r, message, sid, declared, input)
    ensures PlanVerdict(Next(r, e), message, p) == PlanVerdict(r, message, p)
  {
    ShadowedMerge(r, e, sid);
    ShadowedMerge(r, e, p.sessionID);
  }

  lemma ShadowedMerge(r: Registry, e: Event, sid: string)
    requires e.Register? && (e.name in r.operator || e.companion.None?)
    ensures Merged(Next(r, e), sid) == Merged(r, sid)
  {
    if e.companion.Some? && e.sid == sid && e.sid != "" && e.name != "" {
      assert Uploads(Next(r, e), sid) == Uploads(r, sid)[e.name := e.companion.value];
    }
  }

  lemma {:induction false} RunNamed(r: Registry, events: seq<Event>)
    requires Named(r) && forall e :: e in events && e.Reload? ==> "" !in e.operator
    ensures Named(Run(r, events))
  {
    if events != [] {
      assert events[|events| - 1] in events;
      RunNamed(r, events[..|events| - 1]);
    }
  }
}
