/** What the authority protocol guarantees: every allowed edit traces back, step
  * by step, to a plan the server validated; and a hook left to itself allows
  * exactly what the plan permits. */
module Safety {
  import opened Text
  import opened Paths
  import opened PlanGraph
  import opened Scope
  import opened Skills
  import Verdicts
  import opened Guard
  import opened Authority
  import S = Store

  // ------------------------------------------------------- what happened

  /** At step v the server validated the plan against a registry it served. */
  ghost predicate Validated(c: Setup, s0: Sys, steps: seq<Move>, v: nat, plan: Plan, registry: Registry)
  {
    && v < |steps| && steps[v].event.Validate?
    && var s := Run(c, s0, steps[..v]); var g := steps[v].event.generation;
    g < |s.registries| && s.registries[g] == registry && Accepted(c, plan, registry)
  }

  /** The content check is answered, by a registry then served. */
  ghost predicate Answers(s: Sys, step: Move, e: Evidence)
  {
    && step.event.CheckContent? && step.event.reachable && step.event.generation < |s.registries|
    && s.registries[step.event.generation] == e.registry && s.now == e.checked
  }

  lemma ValidatedEarlier(c: Setup, s0: Sys, steps: seq<Move>, n: nat, v: nat, plan: Plan, registry: Registry)
    requires n <= |steps| && Validated(c, s0, steps[..n], v, plan, registry)
    ensures Validated(c, s0, steps, v, plan, registry)
  {
    assert steps[..n][..v] == steps[..v];
  }

  lemma PassedFromClient(c: Setup, s: Sys, p: nat, e: Authority.Event, pid: nat)
    requires p in s.pcs
    requires var s' := NextClient(c, s, p, s.pcs[p], e);
             pid in s'.pcs && s'.pcs[pid].Passed? && !(pid in s.pcs && s.pcs[pid] == s'.pcs[pid])
    ensures var pc := NextClient(c, s, p, s.pcs[p], e).pcs[pid];
            e.Validate? && e.generation < |s.registries|
            && s.registries[e.generation] == pc.registry && Accepted(c, pc.plan, pc.registry)
  {
  }

  lemma NoneFromGuard(c: Setup, s: Sys, p: nat, e: Authority.Event, pid: nat)
    requires p in s.pcs
    requires var s' := NextGuard(c, s, p, s.pcs[p], e); pid in s'.pcs && s'.pcs[pid].Passed?
    ensures pid in s.pcs && s.pcs[pid] == NextGuard(c, s, p, s.pcs[p], e).pcs[pid]
  {
  }

  lemma NoneFromWorld(c: Setup, s: Sys, p: nat, e: Authority.Event, pid: nat)
    requires var s' := NextWorld(c, s, p, e); pid in s'.pcs && s'.pcs[pid].Passed?
    ensures pid in s.pcs && s.pcs[pid] == NextWorld(c, s, p, e).pcs[pid]
  {
  }

  lemma PassedFrom(c: Setup, s: Sys, step: Move, pid: nat)
    requires var s' := Next(c, s, step); pid in s'.pcs && s'.pcs[pid].Passed?
    ensures var pc := Next(c, s, step).pcs[pid];
            || (pid in s.pcs && s.pcs[pid] == pc)
            || (step.event.Validate? && step.event.generation < |s.registries|
                && s.registries[step.event.generation] == pc.registry && Accepted(c, pc.plan, pc.registry))
  {
    var s' := Next(c, s, step);
    if step.pid in s.pcs && s' == NextClient(c, s, step.pid, s.pcs[step.pid], step.event) {
      if !(pid in s.pcs && s.pcs[pid] == s'.pcs[pid]) { PassedFromClient(c, s, step.pid, step.event, pid); }
    } else if step.pid in s.pcs && s' == NextGuard(c, s, step.pid, s.pcs[step.pid], step.event) {
      NoneFromGuard(c, s, step.pid, step.event, pid);
    } else {
      NoneFromWorld(c, s, step.pid, step.event, pid);
    }
  }

  lemma LocksFrom(c: Setup, s: Sys, step: Move)
    ensures var s' := Next(c, s, step);
            || s'.locks == s.locks
            || (step.pid in s.pcs && s.pcs[step.pid].Passed? && |s'.locks| == |s.locks| + 1
               && s'.locks[..|s.locks|] == s.locks
                && s'.locks[|s.locks|].plan == s.pcs[step.pid].plan
                   && s'.locks[|s.locks|].registry == s.pcs[step.pid].registry)
  {
  }

  lemma DecisionsFrom(c: Setup, s: Sys, step: Move, d: Decision)
    requires d in Next(c, s, step).decisions && d !in s.decisions && d.verdict == Allowed && d.Judged?
    ensures Answers(s, step, d.evidence)
    ensures var s' := Next(c, s, step); s'.locks == s.locks && s'.tampered == s.tampered && s'.announced == s.announced
    ensures step.pid in s.pcs && s.pcs[step.pid].Checking?
    ensures var pc, e := s.pcs[step.pid], d.evidence;
            pc == Checking(d.request, e.session, pc.text, e.target, e.decided) && c.parse(pc.text) == e.ticket
  {
  }

  /** Every plan past validation was validated at some earlier step. */
  lemma {:induction false} PassedWasValidated(c: Setup, s0: Sys, steps: seq<Move>, pid: nat)
    requires s0.pcs == map[]
    requires var s := Run(c, s0, steps); pid in s.pcs && s.pcs[pid].Passed?
    ensures var pc := Run(c, s0, steps).pcs[pid]; exists v :: Validated(c, s0, steps, v, pc.plan, pc.registry)
  {
    if steps != [] {
      var n := |steps| - 1;
      var front := Run(c, s0, steps[..n]);
      PassedFrom(c, front, steps[n], pid);
      var pc := Run(c, s0, steps).pcs[pid];
      if pid in front.pcs && front.pcs[pid] == pc {
        PassedWasValidated(c, s0, steps[..n], pid);
        var v :| Validated(c, s0, steps[..n], v, pc.plan, pc.registry);
        ValidatedEarlier(c, s0, steps, n, v, pc.plan, pc.registry);
      } else {
        assert Validated(c, s0, steps, n, pc.plan, pc.registry);
      }
    }
  }

  /** So was every plan the server locked. */
  lemma {:induction false} LockWasValidated(c: Setup, s0: Sys, steps: seq<Move>, i: nat)
    requires s0.pcs == map[] && s0.locks == [] && i < |Run(c, s0, steps).locks|
    ensures var l := Run(c, s0, steps).locks[i]; exists v :: Validated(c, s0, steps, v, l.plan, l.registry)
  {
    if steps != [] {
      var n := |steps| - 1;
      var front := Run(c, s0, steps[..n]);
      LocksFrom(c, front, steps[n]);
      var l := Run(c, s0, steps).locks[i];
      if i < |front.locks| {
        LockWasValidated(c, s0, steps[..n], i);
        assert front.locks[i] == l;
        var v :| Validated(c, s0, steps[..n], v, l.plan, l.registry);
        ValidatedEarlier(c, s0, steps, n, v, l.plan, l.registry);
      } else {
        var pc := front.pcs[steps[n].pid];
        assert l.plan == pc.plan && l.registry == pc.registry;
        PassedWasValidated(c, s0, steps[..n], steps[n].pid);
        var v :| Validated(c, s0, steps[..n], v, pc.plan, pc.registry);
        ValidatedEarlier(c, s0, steps, n, v, pc.plan, pc.registry);
      }
    }
  }

  /** The step at which a decision was taken. */
  lemma {:induction false} DecisionTaken(c: Setup, s0: Sys, steps: seq<Move>, d: Decision) returns (k: nat)
    requires s0.decisions == [] && d in Run(c, s0, steps).decisions
    ensures k < |steps| && d in Next(c, Run(c, s0, steps[..k]), steps[k]).decisions
            && d !in Run(c, s0, steps[..k]).decisions
  {
    k := |steps| - 1;
    if d in Run(c, s0, steps[..k]).decisions {
      var n := k;
      k := DecisionTaken(c, s0, steps[..n], d);
      assert steps[..n][..k] == steps[..k];
    }
  }

  // ------------------------------------------------- the steps of a hook

  predicate HookPc(pc: Pc)
  {
    pc.Fetching? || pc.Deciding? || pc.Checking?
  }

  lemma ClientMakesNoHook(c: Setup, s: Sys, p: nat, e: Authority.Event, pid: nat)
    requires p in s.pcs
    requires var s' := NextClient(c, s, p, s.pcs[p], e); pid in s'.pcs && HookPc(s'.pcs[pid])
    ensures pid in s.pcs && s.pcs[pid] == NextClient(c, s, p, s.pcs[p], e).pcs[pid]
  {
  }

  lemma WorldMakesNoHook(c: Setup, s: Sys, p: nat, e: Authority.Event, pid: nat)
    requires var s' := NextWorld(c, s, p, e); pid in s'.pcs && HookPc(s'.pcs[pid])
    ensures pid in s.pcs && s.pcs[pid] == NextWorld(c, s, p, e).pcs[pid]
  {
  }

  /** The step that brings a hook to where it stands. */
  ghost predicate Brings(c: Setup, s: Sys, step: Move, pid: nat, pc: Pc)
  {
    step.pid == pid && pid in s.pcs &&
    match pc
    case Fetching(q, session) =>
      step.event == ReadSession && s.pcs[pid] == Reading(q) && session == SessionOf(s, q)
    case Deciding(q, session, text) =>
      step.event == ReadTicket && s.pcs[pid] == Fetching(q, session)
      && (text != "" ==> session in s.store.tickets && s.store.tickets[session] == text)
    case Checking(q, session, text, target, decided) =>
      step.event == Decide && s.pcs[pid] == Deciding(q, session, text) && s.now == decided
    case _ => false
  }

  lemma GuardBrings(c: Setup, s: Sys, p: nat, e: Authority.Event, pid: nat)
    requires p in s.pcs
    requires var s' := NextGuard(c, s, p, s.pcs[p], e); pid in s'.pcs && HookPc(s'.pcs[pid])
    ensures var pc := NextGuard(c, s, p, s.pcs[p], e).pcs[pid];
            (pid in s.pcs && s.pcs[pid] == pc) || Brings(c, s, Move(p, e), pid, pc)
  {
  }

  lemma HookBrought(c: Setup, s: Sys, step: Move, pid: nat)
    requires var s' := Next(c, s, step); pid in s'.pcs && HookPc(s'.pcs[pid])
    ensures var pc := Next(c, s, step).pcs[pid];
            (pid in s.pcs && s.pcs[pid] == pc) || Brings(c, s, step, pid, pc)
  {
    var s' := Next(c, s, step);
    if step.pid in s.pcs && s' == NextGuard(c, s, step.pid, s.pcs[step.pid], step.event) {
      GuardBrings(c, s, step.pid, step.event, pid);
    } else if step.pid in s.pcs && s' == NextClient(c, s, step.pid, s.pcs[step.pid], step.event) {
      ClientMakesNoHook(c, s, step.pid, step.event, pid);
    } else {
      WorldMakesNoHook(c, s, step.pid, step.event, pid);
    }
  }

  /** At step k the hook came to stand at pc. */
  ghost predicate BroughtAt(c: Setup, s0: Sys, steps: seq<Move>, k: nat, pid: nat, pc: Pc)
  {
    k < |steps| && Brings(c, Run(c, s0, steps[..k]), steps[k], pid, pc)
  }

  lemma {:induction false} WasBrought(c: Setup, s0: Sys, steps: seq<Move>, pid: nat) returns (k: nat)
    requires s0.pcs == map[]
    requires var s := Run(c, s0, steps); pid in s.pcs && HookPc(s.pcs[pid])
    ensures BroughtAt(c, s0, steps, k, pid, Run(c, s0, steps).pcs[pid])
  {
    k := |steps| - 1;
    var front := Run(c, s0, steps[..k]);
    HookBrought(c, front, steps[k], pid);
    var pc := Run(c, s0, steps).pcs[pid];
    if pid in front.pcs && front.pcs[pid] == pc {
      var n := k;
      k := WasBrought(c, s0, steps[..n], pid);
      assert steps[..n][..k] == steps[..k];
    }
  }

  /** The steps behind an allowed edit: the server validates the plan; the hook
    * reads the session, then the ticket text, decides, and has the content checked. */
  datatype Trail = Trail(validated: nat, sessionRead: nat, ticketRead: nat, decided: nat, checked: nat, text: string)

  /** The hook of the decision read, under the session it worked with, the text of
    * the ticket, and decided on it, at these steps and in this order. */
  ghost predicate HookTook(c: Setup, s0: Sys, steps: seq<Move>, t: Trail, pid: nat, q: Request, e: Evidence)
  {
    && t.sessionRead < t.ticketRead < t.decided < t.checked
    && c.parse(t.text) == e.ticket && t.text != ""
    && BroughtAt(c, s0, steps, t.sessionRead, pid, Fetching(q, e.session))
    && BroughtAt(c, s0, steps, t.ticketRead, pid, Deciding(q, e.session, t.text))
    && BroughtAt(c, s0, steps, t.decided, pid, Checking(q, e.session, t.text, e.target, e.decided))
  }

  /** A hook about to have the content checked has taken its steps. */
  lemma HookTrail(c: Setup, s0: Sys, steps: seq<Move>, pid: nat) returns (r: nat, t: nat, d: nat)
    requires s0.pcs == map[]
    requires var s := Run(c, s0, steps); pid in s.pcs && s.pcs[pid].Checking?
    ensures var pc := Run(c, s0, steps).pcs[pid];
            && r < t < d < |steps| && BroughtAt(c, s0, steps, d, pid, pc)
            && BroughtAt(c, s0, steps, t, pid, Deciding(pc.request, pc.session, pc.text))
            && BroughtAt(c, s0, steps, r, pid, Fetching(pc.request, pc.session))
  {
    d := WasBrought(c, s0, steps, pid);
    var pc := Run(c, s0, steps).pcs[pid];
    t := BroughtBefore(c, s0, steps, d, pid, Deciding(pc.request, pc.session, pc.text));
    r := BroughtBefore(c, s0, steps, t, pid, Fetching(pc.request, pc.session));
  }

  lemma BroughtBefore(c: Setup, s0: Sys, steps: seq<Move>, n: nat, pid: nat, pc: Pc) returns (k: nat)
    requires s0.pcs == map[] && n <= |steps| && HookPc(pc)
    requires var s := Run(c, s0, steps[..n]); pid in s.pcs && s.pcs[pid] == pc
    ensures k < n && BroughtAt(c, s0, steps, k, pid, pc)
  {
    k := WasBrought(c, s0, steps[..n], pid);
    assert steps[..n][..k] == steps[..k];
  }

  /** The plan of the lock, validated on the trail, authorises the edit its last
    * step allowed. */
  ghost predicate AuthorisedBy(c: Setup, s0: Sys, steps: seq<Move>, t: Trail, l: Lock, d: Decision)
  {
    && d.Judged? && t.validated < t.checked < |steps|
    && Validated(c, s0, steps, t.validated, l.plan, l.registry)
    && HookTook(c, s0, steps, t, steps[t.checked].pid, d.request, d.evidence)
    && Answers(Run(c, s0, steps[..t.checked]), steps[t.checked], d.evidence)
    && Authorises(c, Run(c, s0, steps[..t.checked]), l, d.request, d.evidence)
  }

  /** Whole-system safety. In every interleaving of session starts, locks, saves,
    * edits, uploads, reloads, restarts and clock changes, an edit a guard allowed
    * was preceded by a lock: the server had validated that plan, one of its
    * targets covers the path, its ticket had not expired at the step where the
    * hook decided nor at the one where the content was checked, it was locked for
    * the payload's session, and the content verdict for that session and skill was
    * empty. As long as nothing else writes to the store, it was locked for the
    * session the hook read even when the payload named none. */
  lemma EveryAllowedEditIsAuthorised(c: Setup, r: Registry, now: int, steps: seq<Move>, d: Decision)
    requires Ideal(c) && d in Run(c, Start(r, now), steps).decisions && d.verdict == Allowed
    ensures exists t, l :: AuthorisedBy(c, Start(r, now), steps, t, l, d)
  {
    var s0 := Start(r, now);
    var k := DecisionTaken(c, s0, steps, d);
    RunInv(c, r, now, steps[..k]);
    var i := StepAuthorised(c, Run(c, s0, steps[..k]), steps[k], d);
    LockWasValidated(c, s0, steps[..k], i);
    var l := Run(c, s0, steps[..k]).locks[i];
    var v :| Validated(c, s0, steps[..k], v, l.plan, l.registry);
    ValidatedEarlier(c, s0, steps, k, v, l.plan, l.registry);
    var t := TrailTo(c, s0, steps, k, v, d);
    assert AuthorisedBy(c, s0, steps, t, l, d);
  }

  /** The hook asking for the content check that settles the decision. */
  ghost predicate Asks(c: Setup, s: Sys, step: Move, d: Decision)
  {
    && d.Judged? && step.pid in s.pcs && s.pcs[step.pid].Checking? && s.pcs[step.pid].text != ""
    && var pc, e := s.pcs[step.pid], d.evidence;
    pc == Checking(d.request, e.session, pc.text, e.target, e.decided) && c.parse(pc.text) == e.ticket
  }

  /** A step that allows an edit has a lock behind it. */
  lemma StepAuthorised(c: Setup, s: Sys, step: Move, d: Decision) returns (i: nat)
    requires Ideal(c) && Inv(c, s) && d in Next(c, s, step).decisions && d !in s.decisions && d.verdict == Allowed
    ensures Asks(c, s, step, d) && Answers(s, step, d.evidence)
    ensures i < |s.locks| && Authorises(c, s, s.locks[i], d.request, d.evidence)
  {
    NextInv(c, s, step);
    var s' := Next(c, s, step);
    var j :| 0 <= j < |s'.decisions| && s'.decisions[j] == d;
    assert Authorised(c, s', d);
    DecisionsFrom(c, s, step, d);
    i := LockBehind(c, s, s', d);
    TextNotEmpty(c, s, step.pid);
  }

  lemma LockBehind(c: Setup, s: Sys, s': Sys, d: Decision) returns (i: nat)
    requires Authorised(c, s', d) && d.verdict == Allowed
    requires s'.locks == s.locks && s'.tampered == s.tampered && s'.announced == s.announced
    ensures d.Judged? && i < |s.locks| && Authorises(c, s, s.locks[i], d.request, d.evidence)
  {
    i :| 0 <= i < |s'.locks| && Authorises(c, s', s'.locks[i], d.request, d.evidence);
  }

  lemma TextNotEmpty(c: Setup, s: Sys, pid: nat)
    requires Inv(c, s) && pid in s.pcs && s.pcs[pid].Checking?
    ensures s.pcs[pid].text != ""
  {
    assert PcFine(c, s, s.pcs[pid]);
  }

  /** The hook's own steps before the content check at step k. */
  lemma TrailTo(c: Setup, s0: Sys, steps: seq<Move>, k: nat, v: nat, d: Decision) returns (t: Trail)
    requires s0.pcs == map[] && k < |steps| && Asks(c, Run(c, s0, steps[..k]), steps[k], d)
    ensures t.validated == v && t.checked == k && HookTook(c, s0, steps, t, steps[k].pid, d.request, d.evidence)
  {
    var pid := steps[k].pid;
    var sr, tr, dr := HookTrail(c, s0, steps[..k], pid);
    assert steps[..k][..sr] == steps[..sr] && steps[..k][..tr] == steps[..tr] && steps[..k][..dr] == steps[..dr];
    t := Trail(v, sr, tr, dr, k, Run(c, s0, steps[..k]).pcs[pid].text);
  }

  // -------------------------------------------- what a governed edit touches

  /** With the scope cap on, an allowed edit from an absolute working directory
    * touches a file at or under a target of the locked plan, and stays in that
    * directory when no target is absolute or escapes the cap. */
  lemma AllowedEditIsUnderATarget(c: Setup, s: Sys, l: Lock, q: Request, e: Evidence)
    requires Authorises(c, s, l, q, e) && !l.registry.allowWideScope && IsAbs(q.input.cwd)
    ensures UnderATarget(l.plan, q.input.cwd, TargetPath(q.adapter, q.input))
    ensures (forall t :: t in AllTargets(l.plan.steps) ==>
                           (!IsAbs(t) && !Escapes(t)) || InProject(q.input.cwd, TrimSuffixStar(t))) ==>
              InProject(q.input.cwd, TargetPath(q.adapter, q.input))
  {
    Verdicts.AcceptedPlan(l.registry, c.message, l.plan);
    forall t | t in AllTargets(l.plan.steps) && !IsAbs(t) && !Escapes(t)
      ensures InProject(q.input.cwd, TrimSuffixStar(t))
    {
      InwardEntry(t, q.input.cwd);
    }
    StaysInsideIff(l.plan, q.input.cwd);
    CoveredEditIsUnder(l.plan, q.input.cwd, TargetPath(q.adapter, q.input));
  }

  // ------------------------------------------------------- the other half

  /** A hook left to itself, up to its reading of the ticket. */
  ghost function HookReads(c: Setup, s: Sys, pid: nat, q: Request): Sys
  {
    var s1 := Next(c, s, Move(pid, OpenHook(q)));
    var s2 := Next(c, s1, Move(pid, Claim));
    var s3 := Next(c, s2, Move(pid, PutClaim));
    var s4 := Next(c, s3, Move(pid, ReadSession));
    Next(c, s4, Move(pid, ReadTicket))
  }

  /** And on to its decision; the server may be out of reach. */
  ghost function HookAlone(c: Setup, s: Sys, pid: nat, q: Request, g: nat, reachable: bool): Sys
  {
    Next(c, Next(c, HookReads(c, s, pid, q), Move(pid, Decide)), Move(pid, CheckContent(g, reachable)))
  }

  /** The ticket text under a session id; a missing one, or a refused id, is empty. */
  function TextUnder(s: Sys, sid: string): string
  {
    if S.ValidID(sid) && sid in s.store.tickets then s.store.tickets[sid] else ""
  }

  /** What the guard itself asks of an edit, on the ticket of a plan. */
  ghost predicate InScope(c: Setup, q: Request, p: Plan, issued: int, now: int)
  {
    var path := TargetPath(q.adapter, q.input);
    && IsWriteTool(q.input.toolName) && path != "" && !IsHarnessMetadata(q.home, path)
    && now < Issue(p, c.ttl, issued, c.key).claims.expiresAt
    && CoveredBy(EditTarget(q), AllTargets(p.steps))
    && (q.input.sessionID == "" || q.input.sessionID == p.sessionID)
  }

  /** And what the server asks of its content. */
  ghost predicate ContentClean(c: Setup, r: Registry, q: Request, p: Plan)
  {
    && TrimSpace(EditTarget(q)) != ""
    && ContentVerdict(r, c.message, p.sessionID, p.skillID,
                      ArtifactView(Artifact(EditTarget(q), EditedContent(q.adapter, q.input), ""))) == []
  }

  /** The guard's verdict when the server answers it at the same time. */
  ghost function FinalVerdict(c: Setup, r: Registry, q: Request, ticket: Ticket, now: int): Verdict
  {
    match LocalOf(c, q, Some(ticket), now)
    case Final(verdict) => verdict
    case NeedsContent(target, _) => DecideContent(Some(CheckOf(c, r, q, ticket, now, target, true)))
  }

  lemma PermittedIff(c: Setup, r: Registry, q: Request, p: Plan, issued: int, now: int)
    ensures FinalVerdict(c, r, q, Issue(p, c.ttl, issued, c.key), now) == Allowed
            <==> InScope(c, q, p, issued, now) && ContentClean(c, r, q, p)
  {
    var ticket := Issue(p, c.ttl, issued, c.key);
    ScopeIff(c, q, p, issued, now);
    FinalIsNotAllowed(c, q, ticket, now);
    if InScope(c, q, p, issued, now) { VerifyAgrees(c, r, q, p, issued, now); }
  }

  lemma ScopeIff(c: Setup, q: Request, p: Plan, issued: int, now: int)
    ensures var local := LocalOf(c, q, Some(Issue(p, c.ttl, issued, c.key)), now);
            (local.NeedsContent? <==> InScope(c, q, p, issued, now))
              && (local.NeedsContent? ==> local.target == EditTarget(q))
  {
    var ticket := Issue(p, c.ttl, issued, c.key);
    ContentReachedIff(q.adapter, q.input, q.home, p, c.ttl, issued, c.key, now);
    if LocalOf(c, q, Some(ticket), now).NeedsContent? { ContentTarget(q.adapter, q.input, q.home, ticket, c.key, now); }
  }

  lemma FinalIsNotAllowed(c: Setup, q: Request, ticket: Ticket, now: int)
    ensures LocalOf(c, q, Some(ticket), now) != Final(Allowed)
  {
  }

  /** The server's scope check repeats the guard's, and adds the content verdict. */
  lemma VerifyAgrees(c: Setup, r: Registry, q: Request, p: Plan, issued: int, now: int)
    requires now < Issue(p, c.ttl, issued, c.key).claims.expiresAt && CoveredBy(EditTarget(q), AllTargets(p.steps))
    ensures CheckOf(c, r, q, Issue(p, c.ttl, issued, c.key), now, EditTarget(q), true) == Checked([])
            <==> ContentClean(c, r, q, p)
  {
    GuardOneTarget(p, c.ttl, issued, c.key, now, EditTarget(q));
  }

  lemma ClaimTaken(c: Setup, s: Sys, pid: nat, q: Request)
    requires pid in s.pcs && s.pcs[pid] == Opened(q)
    ensures var s' := Next(c, Next(c, s, Move(pid, Claim)), Move(pid, PutClaim));
            && pid in s'.pcs && s'.pcs[pid] == Reading(q) && s'.store.tickets == s.store.tickets
               && SessionOf(s', q) == SessionOf(s, q)
            && s'.registries == s.registries && s'.now == s.now && s'.decisions == s.decisions
  {
    GuardMoves(c, s, pid, Claim);
    GuardMoves(c, Next(c, s, Move(pid, Claim)), pid, PutClaim);
  }

  lemma HookOpens(c: Setup, s: Sys, pid: nat, q: Request)
    requires pid !in s.pcs
    ensures var s' := Next(c, Next(c, Next(c, s, Move(pid, OpenHook(q))), Move(pid, Claim)), Move(pid, PutClaim));
            && pid in s'.pcs && s'.pcs[pid] == Reading(q) && s'.store.tickets == s.store.tickets
               && SessionOf(s', q) == SessionOf(s, q)
            && s'.registries == s.registries && s'.now == s.now && s'.decisions == s.decisions
  {
    assert Next(c, s, Move(pid, OpenHook(q))) == Go(s, pid, Opened(q));
    ClaimTaken(c, Go(s, pid, Opened(q)), pid, q);
  }

  lemma SessionRead(c: Setup, s: Sys, pid: nat, q: Request)
    requires pid in s.pcs && s.pcs[pid] == Reading(q)
    ensures Next(c, s, Move(pid, ReadSession)) == Go(s, pid, Fetching(q, SessionOf(s, q)))
  {
  }

  lemma TicketRead(c: Setup, s: Sys, pid: nat, q: Request, sid: string)
    requires pid in s.pcs && s.pcs[pid] == Fetching(q, sid)
    ensures Next(c, s, Move(pid, ReadTicket)) == Go(s, pid, Deciding(q, sid, TextUnder(s, sid)))
  {
  }

  lemma HookReadsTicket(c: Setup, s: Sys, pid: nat, q: Request)
    requires pid !in s.pcs
    ensures var s' := HookReads(c, s, pid, q); var sid := SessionOf(s, q);
            && pid in s'.pcs && s'.pcs[pid] == Deciding(q, sid, TextUnder(s, sid))
            && s'.registries == s.registries && s'.now == s.now && s'.decisions == s.decisions
  {
    HookOpens(c, s, pid, q);
    var s3 := Next(c, Next(c, Next(c, s, Move(pid, OpenHook(q))), Move(pid, Claim)), Move(pid, PutClaim));
    SessionRead(c, s3, pid, q);
    TicketRead(c, Go(s3, pid, Fetching(q, SessionOf(s3, q))), pid, q, SessionOf(s3, q));
  }

  lemma LocalTaken(c: Setup, s: Sys, pid: nat, q: Request, sid: string, text: string)
    requires pid in s.pcs && s.pcs[pid] == Deciding(q, sid, text)
    ensures Next(c, s, Move(pid, Decide)) == AfterLocal(s, pid, q, sid, text, LocalOf(c, q, TicketOf(c, text), s.now))
  {
    GuardMoves(c, s, pid, Decide);
  }

  lemma GuardMoves(c: Setup, s: Sys, pid: nat, e: Event)
    requires pid in s.pcs && (e.Claim? || e.PutClaim? || e.Decide?)
    ensures Next(c, s, Move(pid, e)) == NextGuard(c, s, pid, s.pcs[pid], e)
  {
  }

  lemma CheckTaken(c: Setup, s: Sys, pid: nat, q: Request, sid: string, text: string, local: Local, g: nat,
                   reachable: bool)
    requires pid in s.pcs && g < |s.registries|
    ensures var s' := Next(c, AfterLocal(s, pid, q, sid, text, local), Move(pid, CheckContent(g, reachable)));
            |s'.decisions| == |s.decisions| + 1 && s'.decisions[..|s.decisions|] == s.decisions
            && s'.decisions[|s.decisions|].request == q
            && s'.decisions[|s.decisions|].verdict ==
                 if local.Final? then local.verdict
                 else DecideContent(Some(CheckOf(c, s.registries[g], q, c.parse(text), s.now, local.target, reachable)))
  {
  }

  /** A hook left to itself takes one decision, on the text stored under its
    * session. */
  lemma HookDecides(c: Setup, s: Sys, pid: nat, q: Request, g: nat, reachable: bool)
    requires pid !in s.pcs && g < |s.registries|
    ensures var s' := HookAlone(c, s, pid, q, g, reachable); var text := TextUnder(s, SessionOf(s, q));
            var local := LocalOf(c, q, TicketOf(c, text), s.now);
            |s'.decisions| == |s.decisions| + 1 && s'.decisions[..|s.decisions|] == s.decisions
            && s'.decisions[|s.decisions|].request == q
            && s'.decisions[|s.decisions|].verdict ==
                 if local.Final? then local.verdict
                 else DecideContent(Some(CheckOf(c, s.registries[g], q, c.parse(text), s.now, local.target, reachable)))
  {
    var sid := SessionOf(s, q);
    var text := TextUnder(s, sid);
    HookReadsTicket(c, s, pid, q);
    var s5 := HookReads(c, s, pid, q);
    LocalTaken(c, s5, pid, q, sid, text);
    CheckTaken(c, s5, pid, q, sid, text, LocalOf(c, q, TicketOf(c, text), s.now), g, reachable);
  }

  /** The other half of the safety theorem: a hook that finds the ticket of a
    * locked plan under its session, and is left to itself, takes one decision, and
    * allows the edit exactly when the plan permits it. */
  lemma HookAllowsIff(c: Setup, s: Sys, pid: nat, q: Request, g: nat, p: Plan, issued: int)
    requires Ideal(c) && pid !in s.pcs && g < |s.registries|
    requires var sid := SessionOf(s, q);
             S.ValidID(sid) && sid in s.store.tickets
               && s.store.tickets[sid] == c.format(Issue(p, c.ttl, issued, c.key))
    ensures var s' := HookAlone(c, s, pid, q, g, true);
            |s'.decisions| == |s.decisions| + 1 && s'.decisions[..|s.decisions|] == s.decisions
            && s'.decisions[|s.decisions|].request == q
            && (s'.decisions[|s.decisions|].verdict == Allowed
                <==> InScope(c, q, p, issued, s.now) && ContentClean(c, s.registries[g], q, p))
  {
    assert ReadsBack(c, Issue(p, c.ttl, issued, c.key));
    HookDecides(c, s, pid, q, g, true);
    PermittedIff(c, s.registries[g], q, p, issued, s.now);
  }
}
