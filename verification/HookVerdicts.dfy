/** What every verdict of a hook means (adapters/claudecode/guard,
  * adapters/copilot/guard), in terms of the payload, the stored ticket and the
  * server's registry. */
module HookVerdicts {
  import opened Text
  import opened Paths
  import opened Scope
  import opened Skills
  import opened Guard
  import opened Authority
  import opened Safety

  // ------------------------------------------------------------ the payload

  ghost predicate StandsAt(s: string, i: nat, sub: string)
  {
    i + |sub| <= |s| && s[i..i + |sub|] == sub
  }

  ghost predicate HasText(s: string, sub: string)
  {
    exists i: nat :: StandsAt(s, i, sub)
  }

  lemma {:induction false} ContainsIff(s: string, sub: string)
    ensures Contains(s, sub) <==> HasText(s, sub)
  {
    assert sub <= s <==> StandsAt(s, 0, sub);
    if s != "" {
      ContainsIff(s[1..], sub);
      forall i: nat ensures StandsAt(s, i + 1, sub) <==> StandsAt(s[1..], i, sub) { OneOn(s, i, sub); }
      if i: nat :| StandsAt(s, i, sub) && i > 0 { assert StandsAt(s[1..], i - 1, sub); }
    }
  }

  lemma OneOn(s: string, i: nat, sub: string)
    requires s != ""
    ensures StandsAt(s, i + 1, sub) <==> StandsAt(s[1..], i, sub)
  {
    if i + 1 + |sub| <= |s| { assert s[i + 1..i + 1 + |sub|] == s[1..][i..i + |sub|]; }
  }

  /** The tools a hook guards. */
  ghost predicate Writes(tool: string)
  {
    || tool in {"Edit", "Write", "MultiEdit", "NotebookEdit", "Update"}
    || tool in {"create_file", "edit_file", "editFiles", "str_replace_editor", "apply_patch"}
    || HasText(tool, "Edit") || HasText(tool, "Write")
  }

  lemma WriteToolIff(tool: string)
    ensures IsWriteTool(tool) <==> Writes(tool)
  {
    ContainsIff(tool, "Edit");
    ContainsIff(tool, "Write");
  }

  /** x is the first of the three that is not empty, or empty. */
  ghost predicate FirstOf(a: string, b: string, c: string, x: string)
  {
    && (a != "" ==> x == a)
    && (a == "" && b != "" ==> x == b)
    && (a == "" && b == "" ==> x == c)
  }

  ghost predicate PathOf(q: Request, path: string)
  {
    var h := q.input;
    && (q.adapter == ClaudeCode ==> FirstOf(h.filePath, h.path, h.notebookPath, path))
    && (q.adapter == Copilot ==> FirstOf(h.path, h.filePath, h.notebookPath, path))
  }

  ghost predicate ContentOf(q: Request, content: string)
  {
    var h := q.input;
    && (q.adapter == ClaudeCode ==> FirstOf(h.newString, h.newStr, h.content, content))
    && (q.adapter == Copilot ==> FirstOf(h.newStr, h.newString, h.content, content))
  }

  ghost predicate InPlans(home: string, path: string)
  {
    home != "" && IsAbs(path) == IsAbs(home) && PlansDirectory(home).segs <= Norm(path).segs
  }

  /** A write of anything but the harness's plans. */
  ghost predicate Guarded(q: Request, path: string)
  {
    Writes(q.input.toolName) && !InPlans(q.home, path)
  }

  // ------------------------------------------------------------- the table

  /** The ticket text opens: signed with the key, and not expired. */
  ghost predicate Opens(c: Setup, text: string, now: int)
  {
    var t := c.parse(text);
    text != "" && t.Signed? && t.key == c.key && now < t.claims.expiresAt
  }

  ghost predicate InItsScope(c: Setup, text: string, q: Request, path: string)
    requires c.parse(text).Signed?
  {
    CoveredBy(RelativeTarget(path, q.input.cwd), c.parse(text).claims.scope.allowModify)
  }

  ghost predicate OtherSession(c: Setup, text: string, q: Request)
    requires c.parse(text).Signed?
  {
    q.input.sessionID != "" && q.input.sessionID != c.parse(text).claims.sessionID
  }

  /** The ticket lets the edit through. */
  ghost predicate TicketLets(c: Setup, text: string, now: int, q: Request, path: string)
  {
    path != "" && Opens(c, text, now) && InItsScope(c, text, q, path) && !OtherSession(c, text, q)
  }

  /** The policies find nothing against the content, for the ticket's session and
    * skill. */
  ghost predicate Clean(c: Setup, r: Registry, text: string, q: Request, path: string, content: string)
    requires c.parse(text).Signed?
  {
    var claims := c.parse(text).claims;
    ContentVerdict(r, c.message, claims.sessionID, claims.skillID,
                   ArtifactView(Artifact(RelativeTarget(path, q.input.cwd), content, ""))) == []
  }

  /** What each verdict means, for a hook that read this ticket text and asked this
    * registry, if it was in reach. */
  ghost predicate Means(v: Verdict, c: Setup, r: Registry, reachable: bool, text: string, now: int, q: Request,
                        path: string, content: string)
  {
    var blank := TrimSpace(RelativeTarget(path, q.input.cwd)) == "";
    match v
    case Ungated => !Guarded(q, path)
    case GuardError =>
      Guarded(q, path) && (path == "" || (TicketLets(c, text, now, q, path) && (!reachable || blank)))
    case NoTicket => Guarded(q, path) && path != "" && text == ""
    case TicketRejected => Guarded(q, path) && path != "" && text != "" && !Opens(c, text, now)
    case OutOfPlanScope => Guarded(q, path) && path != "" && Opens(c, text, now) && !InItsScope(c, text, q, path)
    case SessionMismatch =>
      && Guarded(q, path) && path != "" && Opens(c, text, now)
      && InItsScope(c, text, q, path) && OtherSession(c, text, q)
    case InvariantViolation =>
      && Guarded(q, path) && TicketLets(c, text, now, q, path) && reachable && !blank
      && !Clean(c, r, text, q, path, content)
    case Allowed =>
      && Guarded(q, path) && TicketLets(c, text, now, q, path) && reachable && !blank
      && Clean(c, r, text, q, path, content)
  }

  lemma PathRead(q: Request, path: string)
    requires PathOf(q, path)
    ensures TargetPath(q.adapter, q.input) == path
    ensures Guarded(q, path) <==> IsWriteTool(q.input.toolName) && !IsHarnessMetadata(q.home, path)
  {
    WriteToolIff(q.input.toolName);
    HarnessMetadataIff(q.home, path);
  }

  lemma ContentRead(q: Request, content: string)
    requires ContentOf(q, content)
    ensures EditedContent(q.adapter, q.input) == content
  {
  }

  lemma OneTarget(c: Setup, t: Ticket, now: int, target: string)
    ensures GuardTargets(t, c.key, now, [target]) ==
              if !t.Signed? || t.key != c.key || now >= t.claims.expiresAt then Refused(InvalidTicket)
              else if CoveredBy(target, t.claims.scope.allowModify) then Granted(t.claims)
              else Refused(OutOfScope(target))
  {
    GuardTargetsIs(t, c.key, now, [target]);
    assert target in [target];
  }

  /** The part decided before the content check, cause by cause. */
  lemma LocalIs(c: Setup, q: Request, text: string, now: int, path: string)
    requires PathOf(q, path)
    ensures LocalOf(c, q, TicketOf(c, text), now) ==
              if !Guarded(q, path) then Final(Ungated)
              else if path == "" then Final(GuardError)
              else if text == "" then Final(NoTicket)
              else if !Opens(c, text, now) then Final(TicketRejected)
              else if !InItsScope(c, text, q, path) then Final(OutOfPlanScope)
              else if OtherSession(c, text, q) then Final(SessionMismatch)
              else NeedsContent(RelativeTarget(path, q.input.cwd), c.parse(text).claims)
  {
    PathRead(q, path);
    OneTarget(c, c.parse(text), now, RelativeTarget(path, q.input.cwd));
  }

  lemma ContentIs(c: Setup, r: Registry, reachable: bool, q: Request, text: string, now: int, path: string,
                  content: string)
    requires ContentOf(q, content) && TicketLets(c, text, now, q, path)
    ensures var rel := RelativeTarget(path, q.input.cwd);
            DecideContent(Some(CheckOf(c, r, q, c.parse(text), now, rel, reachable))) ==
              if !reachable || TrimSpace(rel) == "" then GuardError
              else if Clean(c, r, text, q, path, content) then Allowed
              else InvariantViolation
  {
    ContentRead(q, content);
    OneTarget(c, c.parse(text), now, RelativeTarget(path, q.input.cwd));
  }

  /** The verdict table: a hook left to itself takes one decision, and its verdict
    * is v if and only if v's cause is there. */
  lemma VerdictTable(c: Setup, s: Sys, pid: nat, q: Request, g: nat, reachable: bool, path: string, content: string,
                     v: Verdict)
    requires pid !in s.pcs && g < |s.registries| && PathOf(q, path) && ContentOf(q, content)
    ensures var s' := HookAlone(c, s, pid, q, g, reachable); var n := |s.decisions|;
            && |s'.decisions| == n + 1 && s'.decisions[..n] == s.decisions && s'.decisions[n].request == q
            && (s'.decisions[n].verdict == v <==>
                Means(v, c, s.registries[g], reachable, TextUnder(s, SessionOf(s, q)), s.now, q, path, content))
  {
    HookDecides(c, s, pid, q, g, reachable);
    VerdictMeans(c, s.registries[g], reachable, TextUnder(s, SessionOf(s, q)), s.now, q, path, content, v);
  }

  lemma VerdictMeans(c: Setup, r: Registry, reachable: bool, text: string, now: int, q: Request, path: string,
                     content: string, v: Verdict)
    requires PathOf(q, path) && ContentOf(q, content)
    ensures var local := LocalOf(c, q, TicketOf(c, text), now);
            var verdict := if local.Final? then local.verdict
                           else DecideContent(Some(CheckOf(c, r, q, c.parse(text), now, local.target, reachable)));
            verdict == v <==> Means(v, c, r, reachable, text, now, q, path, content)
  {
    LocalIs(c, q, text, now, path);
    if TicketLets(c, text, now, q, path) { ContentIs(c, r, reachable, q, text, now, path, content); }
  }

  /** The server's answer to a content check in full: it cannot be run on a blank path
    * or a ticket that does not open, a path out of the ticket's scope is a violation,
    * and otherwise there is a message for each violation. */
  lemma ServerAnswer(c: Setup, r: Registry, t: Ticket, now: int, path: string, content: string)
    ensures var check := VerifyArtifact(c, r, t, now, path, content);
            if TrimSpace(path) == "" || !t.Signed? || t.key != c.key || now >= t.claims.expiresAt
            then check == CheckFailed
            else if !CoveredBy(path, t.claims.scope.allowModify) then check.Checked? && check.violations != []
            else
              var vs := ContentVerdict(r, c.message, t.claims.sessionID, t.claims.skillID,
                                       ArtifactView(Artifact(path, content, "")));
              check.Checked? && |check.violations| == |vs|
              && forall i :: 0 <= i < |vs| ==> check.violations[i] == vs[i].message
  {
    OneTarget(c, t, now, path);
    if t.Signed? {
      MessagesAre(ContentVerdict(r, c.message, t.claims.sessionID, t.claims.skillID,
        ArtifactView(Artifact(path, content, ""))));
    }
  }

  lemma {:induction false} MessagesAre(vs: seq<Violation>)
    ensures forall i :: 0 <= i < |vs| ==> Messages(vs)[i] == vs[i].message
  {
    if vs != [] { MessagesAre(vs[1..]); }
  }

  // -------------------------------------------------------- over every run

  /** A hook that has gone on to the content check is a guarded one. */
  ghost predicate CheckingGuarded(s: Sys)
  {
    forall pid, path :: pid in s.pcs && s.pcs[pid].Checking? && PathOf(s.pcs[pid].request, path) ==>
      Guarded(s.pcs[pid].request, path)
  }

  lemma {:induction false} HooksGuarded(c: Setup, s0: Sys, steps: seq<Move>)
    requires s0.pcs == map[]
    ensures CheckingGuarded(Run(c, s0, steps))
  {
    if steps != [] {
      var n := |steps| - 1;
      var s, s' := Run(c, s0, steps[..n]), Run(c, s0, steps);
      HooksGuarded(c, s0, steps[..n]);
      forall pid, path | pid in s'.pcs && s'.pcs[pid].Checking? && PathOf(s'.pcs[pid].request, path)
        ensures Guarded(s'.pcs[pid].request, path)
      {
        StepGuarded(c, s, steps[n], pid, path);
      }
    }
  }

  lemma StepGuarded(c: Setup, s: Sys, step: Move, pid: nat, path: string)
    requires CheckingGuarded(s)
    requires var s' := Next(c, s, step); pid in s'.pcs && s'.pcs[pid].Checking? && PathOf(s'.pcs[pid].request, path)
    ensures Guarded(Next(c, s, step).pcs[pid].request, path)
  {
    HookBrought(c, s, step, pid);
    var pc := Next(c, s, step).pcs[pid];
    if !(pid in s.pcs && s.pcs[pid] == pc) {
      var was := s.pcs[pid];
      LocalTaken(c, s, pid, was.request, was.session, was.text);
      LocalIs(c, was.request, was.text, s.now, path);
      assert Next(c, s, step) == Next(c, s, Move(pid, Decide));
    }
  }

  /** Where a new decision comes from. */
  lemma NewDecision(c: Setup, s: Sys, step: Move, d: Decision)
    requires d in Next(c, s, step).decisions && d !in s.decisions
    ensures step.pid in s.pcs
    ensures var pc := s.pcs[step.pid];
            || (pc.Deciding? && pc.request == d.request
               && LocalOf(c, d.request, TicketOf(c, pc.text), s.now) == Final(d.verdict))
            || (pc.Checking? && pc.request == d.request && d.verdict != Ungated)
  {
  }

  /** Over every run: whatever else happens, a hook answers that there is nothing to
    * guard if and only if the tool is no write tool, or the path lies in the plans
    * directory. */
  lemma UngatedIff(c: Setup, s0: Sys, steps: seq<Move>, d: Decision, path: string)
    requires s0.decisions == [] && s0.pcs == map[] && d in Run(c, s0, steps).decisions && PathOf(d.request, path)
    ensures d.verdict == Ungated <==> !Guarded(d.request, path)
  {
    var k := DecisionTaken(c, s0, steps, d);
    var s := Run(c, s0, steps[..k]);
    HooksGuarded(c, s0, steps[..k]);
    NewDecision(c, s, steps[k], d);
    var pc := s.pcs[steps[k].pid];
    if pc.Deciding? { LocalIs(c, d.request, pc.text, s.now, path); }
  }
}
