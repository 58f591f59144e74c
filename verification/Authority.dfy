/** The authority protocol, end to end: sessions start, agents lock plans, the
  * client saves tickets, guards read them and decide, the server checks content,
  * corpora reload; every step of every process interleaved with the others.
  * Store calls are single steps: the file store linearises to the map store. */
module Authority {
  import opened Text
  import opened Paths
  import opened PlanGraph
  import opened Scope
  import opened Skills
  import opened Verdicts
  import opened Guard
  import S = Store

  type Ticket = Token<string>

  /** What does not change during a run: the machine's signing key, the server's
    * ticket lifetime and the ticket encoding. */
  datatype Setup = Setup(
    key: string, ttl: int,
    format: Ticket -> string, parse: string -> Ticket,
    message: (string, string) -> string)

  /** Signing is ideal: a ticket the server issues is read back as it was written.
    * Nothing is said of what other text reads as. */
  ghost predicate Ideal(c: Setup)
  {
    forall p: Plan, issued: int :: ReadsBack(c, Issue(p, c.ttl, issued, c.key))
  }

  ghost predicate ReadsBack(c: Setup, t: Ticket)
  {
    c.format(t) != "" && c.parse(c.format(t)) == t
  }

  datatype Request = Request(adapter: Adapter, input: HookInput, home: string)

  /** What a decision rests on. The guard decides the scope at one time and the
    * server checks the content, with the registry it then serves, at another. */
  datatype Evidence = Evidence(
    session: string, target: string, ticket: Ticket,
    decided: int, checked: int, registry: Registry)

  datatype Decision =
    | Settled(request: Request, verdict: Verdict)
    | Judged(request: Request, verdict: Verdict, evidence: Evidence)

  /** Where a process stands. */
  datatype Pc =
    // a SessionStart hook
    | Starting(adapter: Adapter, sid: string)
    | Purged(sid: string)
    // a lock_in_plan call, through the client (which saves the ticket) or direct
    | Sent(plan: Plan, saves: bool)
    | Passed(plan: Plan, registry: Registry, saves: bool)
    | Locked(plan: Plan, ticket: Ticket, saves: bool)
    // a tool hook; an empty text is no ticket
    | Opened(request: Request)
    | Claiming(request: Request)
    | Reading(request: Request)
    | Fetching(request: Request, session: string)
    | Deciding(request: Request, session: string, text: string)
    | Checking(request: Request, session: string, text: string, target: string, decided: int)

  /** A plan the server locked: it passed validation against the registry. */
  datatype Lock = Lock(plan: Plan, registry: Registry, ticket: Ticket)

  /** The servers' registries, oldest first: requests in flight keep using the
    * one they were routed to. Locks, announced sessions and decisions are
    * history; tampered tells whether anything else ever wrote to the store. */
  datatype Sys = Sys(
    pcs: map<nat, Pc>, store: S.Mem, registries: seq<Registry>, now: int,
    locks: seq<Lock>, announced: set<string>, decisions: seq<Decision>, tampered: bool)

  function Start(r: Registry, now: int): Sys
  {
    Sys(map[], S.EMPTY, [r], now, [], {}, [], false)
  }

  datatype Event =
    | StartSession(adapter: Adapter, sid: string) | Purge | Activate
    | Submit(plan: Plan, viaClient: bool) | Validate(generation: nat) | IssueTicket | Save
    | OpenHook(request: Request) | Claim | PutClaim | ReadSession | ReadTicket | Decide
    | CheckContent(generation: nat, reachable: bool)
    | Serve(generation: nat, change: Verdicts.Event)
    | Reload(operator: map<string, Companion>, corpus: Evaluator)
    | Restart(registry: Registry)
    | Clock(now: int)
    | Tamper(op: S.Op)

  datatype Move = Move(pid: nat, event: Event)

  // ------------------------------------------------------- server answers

  function Messages(vs: seq<Violation>): (r: seq<string>)
    ensures |r| == |vs|
  {
    if vs == [] then [] else [vs[0].message] + Messages(vs[1..])
  }

  const OUT_OF_SCOPE_GUIDANCE := "re-plan"

  /** `handleVerifyArtifact`, as the guards read its answer. */
  ghost function VerifyArtifact(c: Setup, r: Registry, ticket: Ticket, now: int, path: string, content: string): Check
  {
    if TrimSpace(path) == "" then CheckFailed
    else
      match GuardTargets(ticket, c.key, now, [path])
      case Refused(OutOfScope(_)) => Checked([OUT_OF_SCOPE_GUIDANCE])
      case Refused(_) => CheckFailed
      case Granted(claims) =>
        Checked(Messages(ContentVerdict(r, c.message, claims.sessionID, claims.skillID,
          ArtifactView(Artifact(path, content, "")))))
  }

  // ---------------------------------------------------------------- steps

  function Go(s: Sys, pid: nat, pc: Pc): Sys
  {
    s.(pcs := s.pcs[pid := pc])
  }

  function Done(s: Sys, pid: nat): Sys
  {
    s.(pcs := s.pcs - {pid})
  }

  /** A store call that changes the store. */
  function Call(s: Sys, op: S.Op): Sys
  {
    s.(store := S.Apply(s.store, op).0)
  }

  function Announce(s: Sys, sid: string): Sys
  {
    Call(s, S.PutActive(sid)).(announced := s.announced + {sid})
  }

  function Logged(s: Sys, pid: nat, d: Decision): Sys
  {
    Done(s.(decisions := s.decisions + [d]), pid)
  }

  function AfterLocal(s: Sys, pid: nat, q: Request, sid: string, text: string, local: Local): Sys
  {
    match local
    case Final(verdict) => Logged(s, pid, Settled(q, verdict))
    case NeedsContent(target, _) => Go(s, pid, Checking(q, sid, text, target, s.now))
  }

  function AfterCheck(s: Sys, pid: nat, q: Request, sid: string, ticket: Ticket, target: string, decided: int,
                      r: Registry, check: Check): Sys
  {
    Logged(s, pid, Judged(q, DecideContent(Some(check)), Evidence(sid, target, ticket, decided, s.now, r)))
  }

  /** The server's answer, or none. */
  ghost function CheckOf(c: Setup, r: Registry, q: Request, ticket: Ticket, now: int, target: string,
                         reachable: bool): Check
  {
    if reachable then VerifyArtifact(c, r, ticket, now, target, EditedContent(q.adapter, q.input)) else CheckFailed
  }

  /** The ticket a guard works with; an empty text is none. */
  function TicketOf(c: Setup, text: string): Option<Ticket>
  {
    if text == "" then None else Some(c.parse(text))
  }

  /** The text of a store answer; a missing or refused one is empty. */
  function TextOf(found: S.Result): string
  {
    if found.Found? then found.value else ""
  }

  function LocalOf(c: Setup, q: Request, ticket: Option<Ticket>, now: int): Local
  {
    DecideLocal(q.adapter, Some(q.input), q.home, ticket, c.key, now)
  }

  /** `GetActive`, with its errors read as no session. */
  function Active(s: Sys): string
  {
    s.store.active
  }

  /** The project-relative path an edit is judged by. */
  function EditTarget(q: Request): string
  {
    RelativeTarget(TargetPath(q.adapter, q.input), q.input.cwd)
  }

  /** The session a hook works with: the payload's, else the active one. */
  function SessionOf(s: Sys, q: Request): string
  {
    if q.input.sessionID == "" then Active(s) else q.input.sessionID
  }

  /** `stampSessionID`. */
  function Stamped(s: Sys, p: Plan): Plan
  {
    if Active(s) == "" then p else p.(sessionID := Active(s))
  }

  /** Signatures are unforgeable: what other programs put in the store is no
    * ticket of the key unless the server issued it. */
  ghost predicate Possible(c: Setup, s: Sys, op: S.Op)
  {
    op.Put? ==> FromServer(c, s.locks, c.parse(op.ticket))
  }

  ghost predicate FromServer(c: Setup, locks: seq<Lock>, t: Ticket)
  {
    t.Signed? && t.key == c.key ==> exists i :: 0 <= i < |locks| && locks[i].ticket == t
  }

  /** A SessionStart or lock_in_plan process takes a step. */
  ghost function NextClient(c: Setup, s: Sys, pid: nat, pc: Pc, e: Event): Sys
  {
    match (e, pc)
    case (Purge, Starting(adapter, sid)) =>
      if sid == "" then Done(s, pid)
      else if adapter.ClaudeCode? then Go(Call(s, S.Reset), pid, Purged(sid))
      else if !S.ValidID(sid) then Done(s, pid)
      else Go(Call(s, S.Delete(sid)), pid, Purged(sid))
    case (Activate, Purged(sid)) => Done(Announce(s, sid), pid)
    case (Validate(g), Sent(plan, saves)) =>
      if g < |s.registries| && WellStructured(plan) && PlanVerdict(s.registries[g], c.message, plan) == []
      then Go(s, pid, Passed(plan, s.registries[g], saves)) else s
    case (IssueTicket, Passed(plan, registry, saves)) =>
      var ticket := Issue(plan, c.ttl, s.now, c.key);
      Go(s, pid, Locked(plan, ticket, saves)).(locks := s.locks + [Lock(plan, registry, ticket)])
    case (Save, Locked(plan, ticket, saves)) =>
      if saves && plan.sessionID != "" then Done(Call(s, S.Put(plan.sessionID, c.format(ticket))), pid)
        else Done(s, pid)
    case _ => s
  }

  /** A tool hook takes a step. */
  ghost function NextGuard(c: Setup, s: Sys, pid: nat, pc: Pc, e: Event): Sys
  {
    match (e, pc)
    case (Claim, Opened(q)) =>
      if q.adapter.ClaudeCode? || q.input.sessionID == "" || Active(s) == q.input.sessionID
      then Go(s, pid, Reading(q)) else Go(s, pid, Claiming(q))
    case (PutClaim, Claiming(q)) => Go(Announce(s, q.input.sessionID), pid, Reading(q))
    case (ReadSession, Reading(q)) =>
      Go(s, pid, Fetching(q, SessionOf(s, q)))
    case (ReadTicket, Fetching(q, sid)) =>
      Go(s, pid, Deciding(q, sid, TextOf(S.Apply(s.store, S.Get(sid)).1)))
    case (Decide, Deciding(q, sid, text)) =>
      AfterLocal(s, pid, q, sid, text, LocalOf(c, q, TicketOf(c, text), s.now))
    case (CheckContent(g, reachable), Checking(q, sid, text, target, decided)) =>
      if g >= |s.registries| then s
      else
        AfterCheck(s, pid, q, sid, c.parse(text), target, decided, s.registries[g],
                   CheckOf(c, s.registries[g], q, c.parse(text), s.now, target, reachable))
    case _ => s
  }

  /** Everything else: processes begin, registries change, time passes. */
  ghost function NextWorld(c: Setup, s: Sys, pid: nat, e: Event): Sys
  {
    match e
    case StartSession(adapter, sid) => if pid in s.pcs then s else Go(s, pid, Starting(adapter, sid))
    case Submit(plan, viaClient) =>
      if pid in s.pcs then s else Go(s, pid, Sent(if viaClient then Stamped(s, plan) else plan, viaClient))
    case OpenHook(q) => if pid in s.pcs then s else Go(s, pid, Opened(q))
    case Serve(g, change) =>
      if g < |s.registries| && !change.Reload?
        then s.(registries := s.registries[g := Verdicts.Next(s.registries[g], change)]) else s
    case Reload(operator, corpus) =>
      if s.registries == [] then s
      else s.(registries := s.registries
        + [Verdicts.Next(s.registries[|s.registries| - 1], Verdicts.Reload(operator, corpus))])
    case Restart(r) => s.(registries := s.registries + [r])
    case Clock(now) => s.(now := now)
    case Tamper(op) => if Possible(c, s, op) then Call(s.(tampered := true), op) else s
    case _ => s
  }

  /** One step; a step that is not enabled does nothing. */
  ghost function Next(c: Setup, s: Sys, step: Move): Sys
  {
    if step.pid in s.pcs && (step.event.Purge? || step.event.Activate? || step.event.Validate?
                             || step.event.IssueTicket? || step.event.Save?)
    then NextClient(c, s, step.pid, s.pcs[step.pid], step.event)
    else if step.pid in s.pcs && (step.event.Claim? || step.event.PutClaim? || step.event.ReadSession?
                                  || step.event.ReadTicket? || step.event.Decide? || step.event.CheckContent?)
    then NextGuard(c, s, step.pid, s.pcs[step.pid], step.event)
    else NextWorld(c, s, step.pid, step.event)
  }

  /** What goes on around the sessions: time takes any value, a server starts with any
    * registry, uploads and evictions change the one they reach. */
  lemma AroundTheSessions(c: Setup, s: Sys, pid: nat, now: int, r: Registry, g: nat, change: Verdicts.Event)
    ensures Next(c, s, Move(pid, Clock(now))) == s.(now := now)
    ensures Next(c, s, Move(pid, Restart(r))) == s.(registries := s.registries + [r])
    ensures g < |s.registries| && !change.Reload? ==>
              Next(c, s, Move(pid, Serve(g, change)))
              == s.(registries := s.registries[g := Verdicts.Next(s.registries[g], change)])
  {
  }

  /** A process at work is not started over. */
  lemma BusyStaysBusy(c: Setup, s: Sys, pid: nat, e: Event)
    requires pid in s.pcs && (e.StartSession? || e.Submit? || e.OpenHook?)
    ensures Next(c, s, Move(pid, e)) == s
  {
  }

  /** Another program does to the store whatever needs no forged ticket. */
  lemma OtherProgram(c: Setup, s: Sys, pid: nat, op: S.Op)
    ensures Next(c, s, Move(pid, Tamper(op))) ==
              if Possible(c, s, op) then s.(tampered := true, store := S.Apply(s.store, op).0) else s
  {
  }

  /** A reload serves the new operator tier and corpus with the sessions' uploads. */
  lemma ReloadKeepsUploads(c: Setup, s: Sys, pid: nat, operator: map<string, Companion>, corpus: Evaluator)
    requires s.registries != []
    ensures var last := s.registries[|s.registries| - 1];
            Next(c, s, Move(pid, Event.Reload(operator, corpus)))
            == s.(registries := s.registries + [Registry(operator, last.sessions, corpus, last.allowWideScope)])
  {
  }

  ghost function Run(c: Setup, s: Sys, steps: seq<Move>): Sys
  {
    if steps == [] then s else Next(c, Run(c, s, steps[..|steps| - 1]), steps[|steps| - 1])
  }

  // ----------------------------------------------------------- invariants

  /** The plan passed validation: structure, scope cap, declared skill, corpus. */
  ghost predicate Accepted(c: Setup, plan: Plan, registry: Registry)
  {
    WellStructured(plan) && PlanVerdict(registry, c.message, plan) == []
  }

  ghost predicate SoundLock(c: Setup, l: Lock)
  {
    Accepted(c, l.plan, l.registry) && exists at :: l.ticket == Issue(l.plan, c.ttl, at, c.key)
  }

  ghost predicate IssuedFor(locks: seq<Lock>, t: Ticket, session: string)
  {
    exists i :: 0 <= i < |locks| && locks[i].ticket == t && locks[i].plan.sessionID == session
  }

  /** A ticket text found under a session's key: nobody forged it, and unless the
    * store was tampered with it was issued for that session. */
  ghost predicate Trusted(c: Setup, s: Sys, text: string, session: string)
  {
    && FromServer(c, s.locks, c.parse(text))
    && (!s.tampered ==> IssuedFor(s.locks, c.parse(text), session))
  }

  /** The session a hook works with: the payload's, or one some hook announced. */
  ghost predicate RightSession(s: Sys, q: Request, session: string)
  {
    if q.input.sessionID != "" then session == q.input.sessionID
    else s.tampered || session == "" || session in s.announced
  }

  ghost predicate LocalPassed(c: Setup, q: Request, text: string, target: string, decided: int)
  {
    text != "" && var local := LocalOf(c, q, TicketOf(c, text), decided);
    local.NeedsContent? && local.target == target
  }

  ghost predicate PcFine(c: Setup, s: Sys, pc: Pc)
  {
    match pc
    case Passed(plan, registry, _) => Accepted(c, plan, registry)
    case Locked(plan, ticket, _) =>
      exists i :: 0 <= i < |s.locks| && s.locks[i].plan == plan && s.locks[i].ticket == ticket
    case Fetching(q, sid) => RightSession(s, q, sid)
    case Deciding(q, sid, text) => RightSession(s, q, sid) && (text != "" ==> Trusted(c, s, text, sid))
    case Checking(q, sid, text, target, decided) =>
      RightSession(s, q, sid) && Trusted(c, s, text, sid) && LocalPassed(c, q, text, target, decided)
    case _ => true
  }

  /** An allowed edit traces to a lock: see `EveryAllowedEditIsAuthorised`. */
  ghost predicate Authorises(c: Setup, s: Sys, l: Lock, q: Request, e: Evidence)
  {
    && SoundLock(c, l) && l.ticket == e.ticket
    && e.target == EditTarget(q)
    && CoveredBy(e.target, AllTargets(l.plan.steps))
    && e.decided < l.ticket.claims.expiresAt && e.checked < l.ticket.claims.expiresAt
    && (q.input.sessionID != "" ==> e.session == q.input.sessionID == l.plan.sessionID)
    && (!s.tampered ==> e.session == l.plan.sessionID && RightSession(s, q, e.session))
    && ContentVerdict(e.registry, c.message, l.plan.sessionID, l.plan.skillID,
                      ArtifactView(Artifact(e.target, EditedContent(q.adapter, q.input), ""))) == []
  }

  ghost predicate Authorised(c: Setup, s: Sys, d: Decision)
  {
    d.verdict == Allowed ==>
      d.Judged? && exists i :: 0 <= i < |s.locks| && Authorises(c, s, s.locks[i], d.request, d.evidence)
  }

  ghost predicate Inv(c: Setup, s: Sys)
  {
    && (forall i :: 0 <= i < |s.locks| ==> SoundLock(c, s.locks[i]))
    && (forall sid :: sid in s.store.tickets ==> Trusted(c, s, s.store.tickets[sid], sid))
    && (s.tampered || s.store.active == "" || s.store.active in s.announced)
    && (forall pid :: pid in s.pcs ==> PcFine(c, s, s.pcs[pid]))
    && (forall i :: 0 <= i < |s.decisions| ==> Authorised(c, s, s.decisions[i]))
  }

  // --------------------------------------------------- what growth preserves

  /** History only grows. */
  ghost predicate Grows(s: Sys, s': Sys)
  {
    && s.locks <= s'.locks && s.announced <= s'.announced && s.decisions <= s'.decisions
    && (s.tampered ==> s'.tampered)
  }

  lemma FromServerKept(c: Setup, a: seq<Lock>, b: seq<Lock>, t: Ticket)
    requires a <= b && FromServer(c, a, t)
    ensures FromServer(c, b, t)
  {
    if t.Signed? && t.key == c.key {
      var i :| 0 <= i < |a| && a[i].ticket == t;
      assert b[i].ticket == t;
    }
  }

  lemma TrustedKept(c: Setup, s: Sys, s': Sys, text: string, session: string)
    requires Grows(s, s') && Trusted(c, s, text, session)
    ensures Trusted(c, s', text, session)
  {
    var t := c.parse(text);
    FromServerKept(c, s.locks, s'.locks, t);
    if !s'.tampered {
      var i :| 0 <= i < |s.locks| && s.locks[i].ticket == t && s.locks[i].plan.sessionID == session;
      assert s'.locks[i].ticket == t;
    }
  }

  lemma PcFineKept(c: Setup, s: Sys, s': Sys, pc: Pc)
    requires Grows(s, s') && PcFine(c, s, pc)
    ensures PcFine(c, s', pc)
  {
    match pc
    case Locked(plan, ticket, _) =>
      var i :| 0 <= i < |s.locks| && s.locks[i].plan == plan && s.locks[i].ticket == ticket;
      assert s'.locks[i].plan == plan;
    case Deciding(q, sid, text) => if text != "" { TrustedKept(c, s, s', text, sid); }
    case Checking(q, sid, text, target, decided) => TrustedKept(c, s, s', text, sid);
    case _ =>
  }

  lemma AuthorisedKept(c: Setup, s: Sys, s': Sys, d: Decision)
    requires Grows(s, s') && Authorised(c, s, d)
    ensures Authorised(c, s', d)
  {
    if d.verdict == Allowed {
      var i :| 0 <= i < |s.locks| && Authorises(c, s, s.locks[i], d.request, d.evidence);
      assert Authorises(c, s', s'.locks[i], d.request, d.evidence);
    }
  }

  /** Nothing the invariant speaks of changed, but history may have grown. */
  lemma GrownInv(c: Setup, s: Sys, s': Sys)
    requires Inv(c, s) && Grows(s, s')
    requires s'.locks == s.locks && s'.decisions == s.decisions && s'.pcs == s.pcs && s'.store == s.store
    ensures Inv(c, s')
  {
    forall sid | sid in s'.store.tickets ensures Trusted(c, s', s'.store.tickets[sid], sid) {
      TrustedKept(c, s, s', s.store.tickets[sid], sid);
    }
    forall q | q in s'.pcs ensures PcFine(c, s', s'.pcs[q]) { PcFineKept(c, s, s', s.pcs[q]); }
    forall i | 0 <= i < |s'.decisions| ensures Authorised(c, s', s'.decisions[i]) {
      AuthorisedKept(c, s, s', s.decisions[i]);
    }
  }

  lemma GoInv(c: Setup, s: Sys, pid: nat, pc: Pc)
    requires Inv(c, s) && PcFine(c, s, pc)
    ensures Inv(c, Go(s, pid, pc))
  {
    var s' := Go(s, pid, pc);
    forall sid | sid in s'.store.tickets ensures Trusted(c, s', s'.store.tickets[sid], sid) {
      TrustedKept(c, s, s', s.store.tickets[sid], sid);
    }
    PcFineKept(c, s, s', pc);
    forall q | q in s'.pcs ensures PcFine(c, s', s'.pcs[q]) {
      if q != pid { PcFineKept(c, s, s', s.pcs[q]); }
    }
    forall i | 0 <= i < |s'.decisions| ensures Authorised(c, s', s'.decisions[i]) {
      AuthorisedKept(c, s, s', s.decisions[i]);
    }
  }

  lemma DoneInv(c: Setup, s: Sys, pid: nat)
    requires Inv(c, s)
    ensures Inv(c, Done(s, pid))
  {
    var s' := Done(s, pid);
    forall sid | sid in s'.store.tickets ensures Trusted(c, s', s'.store.tickets[sid], sid) {
      TrustedKept(c, s, s', s.store.tickets[sid], sid);
    }
    forall q | q in s'.pcs ensures PcFine(c, s', s'.pcs[q]) { PcFineKept(c, s, s', s.pcs[q]); }
    forall i | 0 <= i < |s'.decisions| ensures Authorised(c, s', s'.decisions[i]) {
      AuthorisedKept(c, s, s', s.decisions[i]);
    }
  }

  /** A store call keeps the invariant: what it puts must be trusted there. */
  lemma CallInv(c: Setup, s: Sys, op: S.Op)
    requires Inv(c, s)
    requires op.Put? ==> Trusted(c, s, op.ticket, op.sid)
    requires op.PutActive? ==> s.tampered || op.sid in s.announced
    ensures Inv(c, Call(s, op))
  {
    var s' := Call(s, op);
    forall sid | sid in s'.store.tickets ensures Trusted(c, s', s'.store.tickets[sid], sid) {
      StoredText(s.store, op, sid);
      TrustedKept(c, s, s', s'.store.tickets[sid], sid);
    }
    forall q | q in s'.pcs ensures PcFine(c, s', s'.pcs[q]) { PcFineKept(c, s, s', s.pcs[q]); }
    forall i | 0 <= i < |s'.decisions| ensures Authorised(c, s', s'.decisions[i]) {
      AuthorisedKept(c, s, s', s.decisions[i]);
    }
  }

  lemma StoredText(m: S.Mem, op: S.Op, sid: string)
    requires sid in S.Apply(m, op).0.tickets
    ensures var text := S.Apply(m, op).0.tickets[sid];
            (sid in m.tickets && m.tickets[sid] == text) || (op == S.Put(sid, text))
  {
  }

  lemma LockInv(c: Setup, s: Sys, l: Lock)
    requires Inv(c, s) && SoundLock(c, l)
    ensures Inv(c, s.(locks := s.locks + [l]))
  {
    var s' := s.(locks := s.locks + [l]);
    forall sid | sid in s'.store.tickets ensures Trusted(c, s', s'.store.tickets[sid], sid) {
      TrustedKept(c, s, s', s.store.tickets[sid], sid);
    }
    forall q | q in s'.pcs ensures PcFine(c, s', s'.pcs[q]) { PcFineKept(c, s, s', s.pcs[q]); }
    forall i | 0 <= i < |s'.decisions| ensures Authorised(c, s', s'.decisions[i]) {
      AuthorisedKept(c, s, s', s.decisions[i]);
    }
  }

  lemma LogInv(c: Setup, s: Sys, pid: nat, d: Decision)
    requires Inv(c, s) && Authorised(c, s, d)
    ensures Inv(c, Logged(s, pid, d))
  {
    var s' := s.(decisions := s.decisions + [d]);
    forall sid | sid in s'.store.tickets ensures Trusted(c, s', s'.store.tickets[sid], sid) {
      TrustedKept(c, s, s', s.store.tickets[sid], sid);
    }
    forall q | q in s'.pcs ensures PcFine(c, s', s'.pcs[q]) { PcFineKept(c, s, s', s.pcs[q]); }
    AuthorisedKept(c, s, s', d);
    forall i | 0 <= i < |s'.decisions| ensures Authorised(c, s', s'.decisions[i]) {
      if i < |s.decisions| { AuthorisedKept(c, s, s', s.decisions[i]); }
    }
    DoneInv(c, s', pid);
  }

  lemma AnnounceInv(c: Setup, s: Sys, sid: string)
    requires Inv(c, s)
    ensures Inv(c, Announce(s, sid))
  {
    var s1 := s.(announced := s.announced + {sid});
    GrownInv(c, s, s1);
    CallInv(c, s1, S.PutActive(sid));
  }

  // ------------------------------------------------------------ the steps

  /** The server issues: the plan passed when it was validated. */
  lemma IssueInv(c: Setup, s: Sys, pid: nat, plan: Plan, registry: Registry, saves: bool)
    requires Inv(c, s) && Accepted(c, plan, registry)
    ensures var t := Issue(plan, c.ttl, s.now, c.key);
            Inv(c, Go(s, pid, Locked(plan, t, saves)).(locks := s.locks + [Lock(plan, registry, t)]))
  {
    var l := Lock(plan, registry, Issue(plan, c.ttl, s.now, c.key));
    LockInv(c, s, l);
    var s1 := s.(locks := s.locks + [l]);
    assert s1.locks[|s.locks|] == l;
    GoInv(c, s1, pid, Locked(plan, l.ticket, saves));
  }

  /** The client saves: under the session the ticket was issued for. */
  lemma SaveInv(c: Setup, s: Sys, plan: Plan, ticket: Ticket, saves: bool)
    requires Ideal(c) && Inv(c, s) && PcFine(c, s, Locked(plan, ticket, saves))
    ensures Inv(c, Call(s, S.Put(plan.sessionID, c.format(ticket))))
  {
    var i :| 0 <= i < |s.locks| && s.locks[i].plan == plan && s.locks[i].ticket == ticket;
    assert SoundLock(c, s.locks[i]);
    assert ReadsBack(c, ticket);
    CallInv(c, s, S.Put(plan.sessionID, c.format(ticket)));
  }

  /** What one step of a client process can have done. */
  lemma ClientStep(c: Setup, s: Sys, pid: nat, pc: Pc, e: Event)
    ensures var s' := NextClient(c, s, pid, pc, e);
            s' == s || s' == Done(s, pid) ||
            match pc
            case Starting(adapter, sid) =>
              s' == Go(Call(s, if adapter.ClaudeCode? then S.Reset else S.Delete(sid)), pid, Purged(sid))
            case Purged(sid) => s' == Done(Announce(s, sid), pid)
            case Sent(plan, saves) =>
              && e.Validate? && e.generation < |s.registries| && Accepted(c, plan, s.registries[e.generation])
              && s' == Go(s, pid, Passed(plan, s.registries[e.generation], saves))
            case Passed(plan, registry, saves) =>
              var t := Issue(plan, c.ttl, s.now, c.key);
              s' == Go(s, pid, Locked(plan, t, saves)).(locks := s.locks + [Lock(plan, registry, t)])
            case Locked(plan, ticket, saves) => s' == Done(Call(s, S.Put(plan.sessionID, c.format(ticket))), pid)
            case _ => false
  {
  }

  lemma ClientInv(c: Setup, s: Sys, pid: nat, e: Event)
    requires Ideal(c) && Inv(c, s) && pid in s.pcs
    ensures Inv(c, NextClient(c, s, pid, s.pcs[pid], e))
  {
    assert PcFine(c, s, s.pcs[pid]);
    ClientStep(c, s, pid, s.pcs[pid], e);
    DoneInv(c, s, pid);
    match s.pcs[pid]
    case Starting(adapter, sid) =>
      var op := if adapter.ClaudeCode? then S.Reset else S.Delete(sid);
      CallInv(c, s, op);
      GoInv(c, Call(s, op), pid, Purged(sid));
    case Purged(sid) =>
      AnnounceInv(c, s, sid);
      DoneInv(c, Announce(s, sid), pid);
    case Sent(plan, saves) =>
      if e.Validate? && e.generation < |s.registries| && Accepted(c, plan, s.registries[e.generation]) {
        GoInv(c, s, pid, Passed(plan, s.registries[e.generation], saves));
      }
    case Passed(plan, registry, saves) => IssueInv(c, s, pid, plan, registry, saves);
    case Locked(plan, ticket, saves) =>
      SaveInv(c, s, plan, ticket, saves);
      DoneInv(c, Call(s, S.Put(plan.sessionID, c.format(ticket))), pid);
    case _ =>
  }

  /** The guard decides locally: never an allowed edit before the content check. */
  lemma DecideInv(c: Setup, s: Sys, pid: nat, q: Request, sid: string, text: string, local: Local)
    requires Inv(c, s) && PcFine(c, s, Deciding(q, sid, text))
    requires local.Final? ==> local.verdict != Allowed
    requires local.NeedsContent? ==> LocalPassed(c, q, text, local.target, s.now)
    ensures Inv(c, AfterLocal(s, pid, q, sid, text, local))
  {
    match local
    case Final(verdict) => LogInv(c, s, pid, Settled(q, verdict));
    case NeedsContent(target, _) => GoInv(c, s, pid, Checking(q, sid, text, target, s.now));
  }

  lemma LocalVerdict(c: Setup, q: Request, text: string, now: int)
    ensures var local := LocalOf(c, q, TicketOf(c, text), now);
            (local.Final? ==> local.verdict != Allowed)
            && (local.NeedsContent? ==> LocalPassed(c, q, text, local.target, now))
  {
  }

  /** What an artifact passing the server says about its ticket. */
  lemma VerifyTells(c: Setup, r: Registry, t: Ticket, now: int, path: string, content: string)
    requires VerifyArtifact(c, r, t, now, path, content) == Checked([])
    ensures t.Signed? && t.key == c.key && now < t.claims.expiresAt
    ensures ContentVerdict(r, c.message, t.claims.sessionID, t.claims.skillID,
            ArtifactView(Artifact(path, content, ""))) == []
  {
  }

  /** A lock whose ticket the guard and the server both accept. */
  lemma CheckedAuthorises(c: Setup, s: Sys, q: Request, sid: string, text: string, target: string, decided: int,
                          r: Registry)
    requires Inv(c, s) && PcFine(c, s, Checking(q, sid, text, target, decided))
    requires VerifyArtifact(c, r, c.parse(text), s.now, target, EditedContent(q.adapter, q.input)) == Checked([])
    ensures exists i ::
              && 0 <= i < |s.locks|
              && Authorises(c, s, s.locks[i], q, Evidence(sid, target, c.parse(text), decided, s.now, r))
  {
    var t := c.parse(text);
    VerifyTells(c, r, t, s.now, target, EditedContent(q.adapter, q.input));
    var i :| 0 <= i < |s.locks| && s.locks[i].ticket == t && (!s.tampered ==> s.locks[i].plan.sessionID == sid);
    var l := s.locks[i];
    assert SoundLock(c, l);
    TicketTells(c, l, q, target, decided);
    assert Authorises(c, s, l, q, Evidence(sid, target, t, decided, s.now, r));
  }

  /** What a ticket that passed the guard says about its plan. */
  lemma TicketTells(c: Setup, l: Lock, q: Request, target: string, decided: int)
    requires SoundLock(c, l)
    requires var local := LocalOf(c, q, Some(l.ticket), decided);
             local.NeedsContent? && local.target == target
    ensures target == EditTarget(q)
    ensures CoveredBy(target, AllTargets(l.plan.steps)) && decided < l.ticket.claims.expiresAt
    ensures q.input.sessionID == "" || q.input.sessionID == l.plan.sessionID
    ensures l.ticket.claims.sessionID == l.plan.sessionID && l.ticket.claims.skillID == l.plan.skillID
  {
    var at :| l.ticket == Issue(l.plan, c.ttl, at, c.key);
    ContentReachedIff(q.adapter, q.input, q.home, l.plan, c.ttl, at, c.key, decided);
    ContentTarget(q.adapter, q.input, q.home, l.ticket, c.key, decided);
  }

  lemma ContentTarget(adapter: Adapter, h: HookInput, home: string, ticket: Ticket, key: string, now: int)
    requires DecideLocal(adapter, Some(h), home, Some(ticket), key, now).NeedsContent?
    ensures DecideLocal(adapter, Some(h), home, Some(ticket), key, now).target
            == RelativeTarget(TargetPath(adapter, h), h.cwd)
  {
  }

  lemma CheckInv(c: Setup, s: Sys, pid: nat, q: Request, sid: string, text: string, target: string, decided: int,
                 r: Registry, reachable: bool)
    requires Inv(c, s) && PcFine(c, s, Checking(q, sid, text, target, decided))
    ensures Inv(c,
            AfterCheck(s, pid, q, sid, c.parse(text), target, decided, r,
            CheckOf(c, r, q, c.parse(text), s.now, target, reachable)))
  {
    var check := CheckOf(c, r, q, c.parse(text), s.now, target, reachable);
    if check == Checked([]) { CheckedAuthorises(c, s, q, sid, text, target, decided, r); }
    LogInv(c, s, pid, Judged(q, DecideContent(Some(check)), Evidence(sid, target, c.parse(text), decided, s.now, r)));
  }

  lemma DecideStepInv(c: Setup, s: Sys, pid: nat, q: Request, sid: string, text: string)
    requires Inv(c, s) && PcFine(c, s, Deciding(q, sid, text))
    ensures Inv(c, NextGuard(c, s, pid, Deciding(q, sid, text), Decide))
  {
    DecideStep(c, s, pid, q, sid, text);
    LocalVerdict(c, q, text, s.now);
    DecideInv(c, s, pid, q, sid, text, LocalOf(c, q, TicketOf(c, text), s.now));
  }

  lemma DecideStep(c: Setup, s: Sys, pid: nat, q: Request, sid: string, text: string)
    ensures NextGuard(c, s, pid, Deciding(q, sid, text), Decide)
            == AfterLocal(s, pid, q, sid, text, LocalOf(c, q, TicketOf(c, text), s.now))
  {
  }

  /** What one step of a hook that has not decided can have done. */
  lemma ReadingStep(c: Setup, s: Sys, pid: nat, pc: Pc, e: Event)
    requires !(pc.Deciding? && e.Decide?) && !(pc.Checking? && e.CheckContent?)
    ensures var s' := NextGuard(c, s, pid, pc, e);
            s' == s ||
            match pc
            case Opened(q) => s' == Go(s, pid, Reading(q)) || s' == Go(s, pid, Claiming(q))
            case Claiming(q) => s' == Go(Announce(s, q.input.sessionID), pid, Reading(q))
            case Reading(q) => s' == Go(s, pid, Fetching(q, SessionOf(s, q)))
            case Fetching(q, sid) =>
              s' == Go(s, pid, Deciding(q, sid, TextOf(S.Apply(s.store, S.Get(sid)).1)))
            case _ => false
  {
  }

  lemma CheckStepInv(c: Setup, s: Sys, pid: nat, q: Request, sid: string, text: string, target: string, decided: int,
                     g: nat, reachable: bool)
    requires Inv(c, s) && PcFine(c, s, Checking(q, sid, text, target, decided))
    ensures Inv(c, NextGuard(c, s, pid, Checking(q, sid, text, target, decided), CheckContent(g, reachable)))
  {
    ContentStep(c, s, pid, q, sid, text, target, decided, g, reachable);
    if g < |s.registries| { CheckInv(c, s, pid, q, sid, text, target, decided, s.registries[g], reachable); }
  }

  lemma ContentStep(c: Setup, s: Sys, pid: nat, q: Request, sid: string, text: string, target: string, decided: int,
                    g: nat, reachable: bool)
    ensures NextGuard(c, s, pid, Checking(q, sid, text, target, decided), CheckContent(g, reachable))
            == if g < |s.registries| then
                 AfterCheck(s, pid, q, sid, c.parse(text), target, decided, s.registries[g],
                            CheckOf(c, s.registries[g], q, c.parse(text), s.now, target, reachable))
               else s
  {
  }

  lemma GuardInv(c: Setup, s: Sys, pid: nat, e: Event)
    requires Inv(c, s) && pid in s.pcs
    ensures Inv(c, NextGuard(c, s, pid, s.pcs[pid], e))
  {
    assert PcFine(c, s, s.pcs[pid]);
    match s.pcs[pid]
    case Deciding(q, sid, text) =>
      if e.Decide? { DecideStepInv(c, s, pid, q, sid, text); } else { ReadingStep(c, s, pid, s.pcs[pid], e); }
    case Checking(q, sid, text, target, decided) =>
      if e.CheckContent? {
        CheckStepInv(c, s, pid, q, sid, text, target, decided, e.generation, e.reachable);
      } else {
        ReadingStep(c, s, pid, s.pcs[pid], e);
      }
    case _ => ReadingInv(c, s, pid, e);
  }

  /** Everything a hook does before it decides. */
  lemma ReadingInv(c: Setup, s: Sys, pid: nat, e: Event)
    requires Inv(c, s) && pid in s.pcs && !s.pcs[pid].Deciding? && !s.pcs[pid].Checking?
    ensures Inv(c, NextGuard(c, s, pid, s.pcs[pid], e))
  {
    assert PcFine(c, s, s.pcs[pid]);
    ReadingStep(c, s, pid, s.pcs[pid], e);
    match s.pcs[pid]
    case Opened(q) =>
      GoInv(c, s, pid, Reading(q));
      GoInv(c, s, pid, Claiming(q));
    case Claiming(q) =>
      AnnounceInv(c, s, q.input.sessionID);
      GoInv(c, Announce(s, q.input.sessionID), pid, Reading(q));
    case Reading(q) => GoInv(c, s, pid, Fetching(q, SessionOf(s, q)));
    case Fetching(q, sid) => FetchedInv(c, s, pid, q, sid);
    case _ =>
  }

  lemma FetchedInv(c: Setup, s: Sys, pid: nat, q: Request, sid: string)
    requires Inv(c, s) && PcFine(c, s, Fetching(q, sid))
    ensures Inv(c, Go(s, pid, Deciding(q, sid, TextOf(S.Apply(s.store, S.Get(sid)).1))))
  {
    GoInv(c, s, pid, Deciding(q, sid, TextOf(S.Apply(s.store, S.Get(sid)).1)));
  }

  lemma RegistriesInv(c: Setup, s: Sys, registries: seq<Registry>)
    requires Inv(c, s)
    ensures Inv(c, s.(registries := registries))
  {
    GrownInv(c, s, s.(registries := registries));
  }

  lemma TamperInv(c: Setup, s: Sys, op: S.Op)
    requires Inv(c, s) && Possible(c, s, op)
    ensures Inv(c, Call(s.(tampered := true), op))
  {
    GrownInv(c, s, s.(tampered := true));
    CallInv(c, s.(tampered := true), op);
  }

  /** What a step of the rest of the world can have done. */
  lemma WorldStep(c: Setup, s: Sys, pid: nat, e: Event)
    ensures var s' := NextWorld(c, s, pid, e);
            s' == s ||
            match e
            case StartSession(adapter, sid) => s' == Go(s, pid, Starting(adapter, sid))
            case Submit(plan, viaClient) =>
              s' == Go(s, pid, Sent(if viaClient then Stamped(s, plan) else plan, viaClient))
            case OpenHook(q) => s' == Go(s, pid, Opened(q))
            case Clock(now) => s' == s.(now := now)
            case Tamper(op) => Possible(c, s, op) && s' == Call(s.(tampered := true), op)
            case _ => s' == s.(registries := s'.registries)
  {
  }

  lemma WorldInv(c: Setup, s: Sys, pid: nat, e: Event)
    requires Inv(c, s)
    ensures Inv(c, NextWorld(c, s, pid, e))
  {
    WorldStep(c, s, pid, e);
    match e
    case StartSession(adapter, sid) => GoInv(c, s, pid, Starting(adapter, sid));
    case Submit(plan, viaClient) => GoInv(c, s, pid, Sent(if viaClient then Stamped(s, plan) else plan, viaClient));
    case OpenHook(q) => GoInv(c, s, pid, Opened(q));
    case Clock(now) => GrownInv(c, s, s.(now := now));
    case Tamper(op) => if Possible(c, s, op) { TamperInv(c, s, op); }
    case _ => RegistriesInv(c, s, NextWorld(c, s, pid, e).registries);
  }

  lemma NextInv(c: Setup, s: Sys, step: Move)
    requires Ideal(c) && Inv(c, s)
    ensures Inv(c, Next(c, s, step))
  {
    if step.pid in s.pcs {
      ClientInv(c, s, step.pid, step.event);
      GuardInv(c, s, step.pid, step.event);
    }
    WorldInv(c, s, step.pid, step.event);
  }

  lemma {:induction false} RunInv(c: Setup, r: Registry, now: int, steps: seq<Move>)
    requires Ideal(c)
    ensures Inv(c, Run(c, Start(r, now), steps))
  {
    if steps != [] {
      RunInv(c, r, now, steps[..|steps| - 1]);
      NextInv(c, Run(c, Start(r, now), steps[..|steps| - 1]), steps[|steps| - 1]);
    }
  }
}
