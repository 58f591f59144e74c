/** When a ticket dies with its session: exactly which states of the authority
  * protocol no run can bring a session's ticket back from, once nobody speaks for
  * the session any more. */
module SessionEnd {
  import opened Text
  import opened PlanGraph
  import opened Skills
  import opened Guard
  import opened Authority
  import S = Store

  /** Nothing under way that could still save a ticket of the session, or make it
    * the active one. */
  ghost predicate Quiet(pc: Pc, sid: string)
  {
    match pc
    case Starting(_, id) => id != sid
    case Purged(id) => id != sid
    case Sent(plan, saves) => saves && WellStructured(plan) ==> plan.sessionID != sid
    case Passed(plan, _, saves) => saves ==> plan.sessionID != sid
    case Locked(plan, _, saves) => saves ==> plan.sessionID != sid
    case Opened(q) => q.adapter.ClaudeCode? || q.input.sessionID != sid
    case Claiming(q) => q.input.sessionID != sid
    case _ => true
  }

  /** The session is over: no ticket, not active, nothing in flight. */
  ghost predicate Over(s: Sys, sid: string)
  {
    sid !in s.store.tickets && s.store.active != sid && forall pid :: pid in s.pcs ==> Quiet(s.pcs[pid], sid)
  }

  /** A step in which no one speaks for the session: it is not started, no plan is
    * submitted in its name through the client, no hook that would claim it runs,
    * and no other program puts a ticket of it or makes it active. */
  predicate Silent(e: Event, sid: string)
  {
    match e
    case StartSession(_, id) => id != sid
    case Submit(plan, viaClient) => viaClient ==> plan.sessionID != sid
    case OpenHook(q) => q.adapter.ClaudeCode? || q.input.sessionID != sid
    case Tamper(op) => (op.Put? || op.PutActive?) ==> op.sid != sid
    case _ => true
  }

  ghost predicate AllSilent(steps: seq<Move>, sid: string)
  {
    forall i :: 0 <= i < |steps| ==> Silent(steps[i].event, sid)
  }

  // ------------------------------------------------- over stays over

  lemma OverStart(c: Setup, s: Sys, pid: nat, pc: Pc, e: Event, sid: string)
    requires sid != "" && Over(s, sid) && (pc.Starting? || pc.Purged?) && Quiet(pc, sid)
    ensures Over(NextClient(c, s, pid, pc, e), sid)
  {
  }

  lemma OverClient(c: Setup, s: Sys, pid: nat, e: Event, sid: string)
    requires sid != "" && Over(s, sid) && pid in s.pcs
    ensures Over(NextClient(c, s, pid, s.pcs[pid], e), sid)
  {
    assert Quiet(s.pcs[pid], sid);
    if s.pcs[pid].Starting? || s.pcs[pid].Purged? { OverStart(c, s, pid, s.pcs[pid], e, sid); }
  }

  lemma OverDecision(c: Setup, s: Sys, pid: nat, pc: Pc, e: Event, sid: string)
    requires sid != "" && Over(s, sid) && (pc.Deciding? || pc.Checking?)
    ensures Over(NextGuard(c, s, pid, pc, e), sid)
  {
    if pc.Deciding? {
      var local := LocalOf(c, pc.request, TicketOf(c, pc.text), s.now);
      OverAfter(s, pid, pc.request, pc.session, pc.text, local, sid);
    }
  }

  lemma OverAfter(s: Sys, pid: nat, q: Request, session: string, text: string, local: Local, sid: string)
    requires Over(s, sid)
    ensures Over(AfterLocal(s, pid, q, session, text, local), sid)
  {
  }

  lemma OverGuard(c: Setup, s: Sys, pid: nat, e: Event, sid: string)
    requires sid != "" && Over(s, sid) && pid in s.pcs
    ensures Over(NextGuard(c, s, pid, s.pcs[pid], e), sid)
  {
    assert Quiet(s.pcs[pid], sid);
    if s.pcs[pid].Deciding? || s.pcs[pid].Checking? { OverDecision(c, s, pid, s.pcs[pid], e, sid); }
  }

  lemma OverWorld(c: Setup, s: Sys, pid: nat, e: Event, sid: string)
    requires sid != "" && Over(s, sid) && Silent(e, sid)
    ensures Over(NextWorld(c, s, pid, e), sid)
  {
  }

  lemma OverKept(c: Setup, s: Sys, step: Move, sid: string)
    requires sid != "" && Over(s, sid) && Silent(step.event, sid)
    ensures Over(Next(c, s, step), sid)
  {
    OverWorld(c, s, step.pid, step.event, sid);
    if step.pid in s.pcs {
      OverClient(c, s, step.pid, step.event, sid);
      OverGuard(c, s, step.pid, step.event, sid);
    }
  }

  /** Once a session is over, no run in which nobody speaks for it brings a ticket
    * of it back to the store. */
  lemma {:induction false} OverStaysOver(c: Setup, s: Sys, steps: seq<Move>, sid: string)
    requires sid != "" && Over(s, sid) && AllSilent(steps, sid)
    ensures Over(Run(c, s, steps), sid)
  {
    if steps != [] {
      OverStaysOver(c, s, steps[..|steps| - 1], sid);
      OverKept(c, Run(c, s, steps[..|steps| - 1]), steps[|steps| - 1], sid);
    }
  }

  // ------------------------------------ whatever is not over can come back

  /** Some run in which nobody speaks for the session has its ticket in the store. */
  ghost predicate CanReturn(c: Setup, s: Sys, sid: string)
  {
    exists steps :: AllSilent(steps, sid) && sid in Run(c, s, steps).store.tickets
  }

  lemma {:induction false} RunAfter(c: Setup, s: Sys, step: Move, steps: seq<Move>)
    ensures Run(c, s, [step] + steps) == Run(c, Next(c, s, step), steps)
  {
    var all := [step] + steps;
    if steps == [] {
      assert all == [step] && [step][..0] == [];
    } else {
      RunAfter(c, s, step, steps[..|steps| - 1]);
      assert all[..|all| - 1] == [step] + steps[..|steps| - 1] && all[|all| - 1] == steps[|steps| - 1];
    }
  }

  lemma ReturnsBefore(c: Setup, s: Sys, step: Move, sid: string)
    requires Silent(step.event, sid) && CanReturn(c, Next(c, s, step), sid)
    ensures CanReturn(c, s, sid)
  {
    var steps :| AllSilent(steps, sid) && sid in Run(c, Next(c, s, step), steps).store.tickets;
    RunAfter(c, s, step, steps);
    assert AllSilent([step] + steps, sid);
  }

  lemma StoredReturns(c: Setup, s: Sys, sid: string)
    requires sid in s.store.tickets
    ensures CanReturn(c, s, sid)
  {
    assert AllSilent([], sid) && Run(c, s, []) == s;
  }

  lemma LockedReturns(c: Setup, s: Sys, pid: nat, sid: string)
    requires S.ValidID(sid) && pid in s.pcs && s.pcs[pid].Locked? && s.pcs[pid].saves
             && s.pcs[pid].plan.sessionID == sid
    ensures CanReturn(c, s, sid)
  {
    var step := Move(pid, Save);
    StoredReturns(c, Next(c, s, step), sid);
    ReturnsBefore(c, s, step, sid);
  }

  lemma PassedReturns(c: Setup, s: Sys, pid: nat, sid: string)
    requires S.ValidID(sid) && pid in s.pcs && s.pcs[pid].Passed? && s.pcs[pid].saves
             && s.pcs[pid].plan.sessionID == sid
    ensures CanReturn(c, s, sid)
  {
    var step := Move(pid, IssueTicket);
    LockedReturns(c, Next(c, s, step), pid, sid);
    ReturnsBefore(c, s, step, sid);
  }

  /** A server without policies that publishes the plan's skill accepts the plan. */
  function Lenient(skillID: string): Registry
  {
    Registry(map[skillID := None], map[], Evaluator(input => Found([])), true)
  }

  lemma LenientAccepts(message: (string, string) -> string, plan: Plan)
    ensures PlanVerdict(Lenient(plan.skillID), message, plan) == []
  {
  }

  lemma SentReturns(c: Setup, s: Sys, pid: nat, sid: string)
    requires S.ValidID(sid) && pid in s.pcs && s.pcs[pid].Sent? && s.pcs[pid].saves && WellStructured(s.pcs[pid].plan)
    requires s.pcs[pid].plan.sessionID == sid
    ensures CanReturn(c, s, sid)
  {
    var plan := s.pcs[pid].plan;
    var restart := Move(pid, Restart(Lenient(plan.skillID)));
    var restarted := s.(registries := s.registries + [Lenient(plan.skillID)]);
    assert Next(c, s, restart) == restarted;
    var validate := Move(pid, Validate(|s.registries|));
    LenientAccepts(c.message, plan);
    AcceptedIsPassed(c, restarted, pid, |s.registries|);
    PassedReturns(c, Next(c, restarted, validate), pid, sid);
    ReturnsBefore(c, restarted, validate, sid);
    ReturnsBefore(c, s, restart, sid);
  }

  lemma AcceptedIsPassed(c: Setup, s: Sys, pid: nat, g: nat)
    requires pid in s.pcs && s.pcs[pid].Sent? && g < |s.registries| && Accepted(c, s.pcs[pid].plan, s.registries[g])
    ensures Next(c, s, Move(pid, Validate(g)))
            == Go(s, pid, Passed(s.pcs[pid].plan, s.registries[g], s.pcs[pid].saves))
  {
  }

  lemma {:induction false} AboveAll(pids: set<nat>) returns (pid: nat)
    ensures forall p :: p in pids ==> p < pid
    decreases pids
  {
    pid := 0;
    if pids != {} {
      var p :| p in pids;
      var q := AboveAll(pids - {p});
      assert forall x :: x in pids ==> x == p || x in pids - {p};
      pid := if p < q then q else p + 1;
    }
  }

  /** A one-step plan of some session. */
  function SmallPlan(sid: string): Plan
  {
    Plan(sid, seq(5, i => 'x'), "", "r", ["t"], [PlanGraph.Step("a", "b", "c", ["d"], [])])
  }

  lemma SmallPlanFine(sid: string)
    requires sid != ""
    ensures WellStructured(SmallPlan(sid))
  {
    var steps := SmallPlan(sid).steps;
    LongEnough(5);
    assert ExecutionOrder(steps, steps);
  }

  lemma {:induction false} LongEnough(n: nat)
    ensures ByteLength(seq(n, i => 'x')) == n
  {
    if n > 0 {
      LongEnough(n - 1);
      assert seq(n, i => 'x')[1..] == seq(n - 1, i => 'x');
    }
  }

  /** With the session active, any plan submitted through the client is stamped
    * with it. */
  lemma ActiveReturns(c: Setup, s: Sys, sid: string)
    requires S.ValidID(sid) && s.store.active == sid
    ensures CanReturn(c, s, sid)
  {
    var pid := AboveAll(s.pcs.Keys);
    var plan := SmallPlan(sid + "x");
    assert |plan.sessionID| == |sid| + 1;
    var step := Move(pid, Submit(plan, true));
    SmallPlanFine(sid);
    assert plan.(sessionID := sid) == SmallPlan(sid);
    assert Next(c, s, step) == Go(s, pid, Sent(SmallPlan(sid), true));
    SentReturns(c, Next(c, s, step), pid, sid);
    ReturnsBefore(c, s, step, sid);
  }

  lemma PurgedReturns(c: Setup, s: Sys, pid: nat, sid: string)
    requires S.ValidID(sid) && pid in s.pcs && s.pcs[pid] == Purged(sid)
    ensures CanReturn(c, s, sid)
  {
    var step := Move(pid, Activate);
    ActiveReturns(c, Next(c, s, step), sid);
    ReturnsBefore(c, s, step, sid);
  }

  lemma StartingReturns(c: Setup, s: Sys, pid: nat, sid: string)
    requires S.ValidID(sid) && pid in s.pcs && s.pcs[pid].Starting? && s.pcs[pid].sid == sid
    ensures CanReturn(c, s, sid)
  {
    var step := Move(pid, Purge);
    PurgedReturns(c, Next(c, s, step), pid, sid);
    ReturnsBefore(c, s, step, sid);
  }

  lemma ClaimingReturns(c: Setup, s: Sys, pid: nat, sid: string)
    requires S.ValidID(sid) && pid in s.pcs && s.pcs[pid].Claiming? && s.pcs[pid].request.input.sessionID == sid
    ensures CanReturn(c, s, sid)
  {
    var step := Move(pid, PutClaim);
    ActiveReturns(c, Next(c, s, step), sid);
    ReturnsBefore(c, s, step, sid);
  }

  lemma OpenedReturns(c: Setup, s: Sys, pid: nat, sid: string)
    requires S.ValidID(sid) && pid in s.pcs && s.pcs[pid].Opened?
    requires !s.pcs[pid].request.adapter.ClaudeCode? && s.pcs[pid].request.input.sessionID == sid
    ensures CanReturn(c, s, sid)
  {
    if s.store.active == sid {
      ActiveReturns(c, s, sid);
    } else {
      var step := Move(pid, Claim);
      ClaimingReturns(c, Next(c, s, step), pid, sid);
      ReturnsBefore(c, s, step, sid);
    }
  }

  lemma UnquietReturns(c: Setup, s: Sys, pid: nat, sid: string)
    requires S.ValidID(sid) && pid in s.pcs && !Quiet(s.pcs[pid], sid)
    ensures CanReturn(c, s, sid)
  {
    match s.pcs[pid]
    case Starting(_, _) => StartingReturns(c, s, pid, sid);
    case Purged(_) => PurgedReturns(c, s, pid, sid);
    case Sent(_, _) => SentReturns(c, s, pid, sid);
    case Passed(_, _, _) => PassedReturns(c, s, pid, sid);
    case Locked(_, _, _) => LockedReturns(c, s, pid, sid);
    case Opened(_) => OpenedReturns(c, s, pid, sid);
    case Claiming(_) => ClaimingReturns(c, s, pid, sid);
  }

  /** Exactly when a ticket dies with its session: some run in which nobody speaks
    * for the session brings a ticket of it back if and only if the session is not
    * over, that is, it has a ticket, is active, or has a start, a claim or a lock
    * of its own in flight. */
  lemma TicketReturnsIff(c: Setup, s: Sys, sid: string)
    requires S.ValidID(sid)
    ensures CanReturn(c, s, sid) <==> !Over(s, sid)
  {
    if Over(s, sid) {
      forall steps | AllSilent(steps, sid) ensures sid !in Run(c, s, steps).store.tickets {
        OverStaysOver(c, s, steps, sid);
      }
    } else if sid in s.store.tickets {
      StoredReturns(c, s, sid);
    } else if s.store.active == sid {
      ActiveReturns(c, s, sid);
    } else {
      var pid :| pid in s.pcs && !Quiet(s.pcs[pid], sid);
      UnquietReturns(c, s, pid, sid);
    }
  }

  // ---------------------------------------------- the purge that comes too early

  /** The purge of the next session's start does not stop a lock already answered:
    * its ticket is saved afterwards. */
  lemma LateSave(c: Setup, s: Sys, starter: nat, client: nat, next: string, sid: string)
    requires starter in s.pcs && s.pcs[starter] == Starting(ClaudeCode, next) && next != ""
    requires client in s.pcs && s.pcs[client].Locked? && s.pcs[client].saves
    requires s.pcs[client].plan.sessionID == sid && S.ValidID(sid)
    ensures var purged := Next(c, s, Move(starter, Purge));
            var saved := Next(c, purged, Move(client, Save));
            purged.store.tickets == map[] && saved.store.tickets.Keys == {sid}
  {
    var purged := Next(c, s, Move(starter, Purge));
    assert purged.store.tickets == map[] && client in purged.pcs && purged.pcs[client] == s.pcs[client];
  }

  lemma {:induction false} RunConcat(c: Setup, s: Sys, a: seq<Move>, b: seq<Move>)
    ensures Run(c, s, a + b) == Run(c, Run(c, s, a), b)
  {
    if b == [] {
      assert a + b == a;
    } else {
      RunConcat(c, s, a, b[..|b| - 1]);
      assert (a + b)[..|a + b| - 1] == a + b[..|b| - 1] && (a + b)[|a + b| - 1] == b[|b| - 1];
    }
  }

  lemma RunTwo(c: Setup, s: Sys, x: Move, y: Move, s1: Sys)
    requires s1 == Next(c, s, x)
    ensures Run(c, s, [x, y]) == Next(c, s1, y)
  {
    RunAfter(c, s, x, [y]);
    assert [x] + [y] == [x, y];
    RunOne(c, s1, y);
  }

  lemma RunOne(c: Setup, s: Sys, x: Move)
    ensures Run(c, s, [x]) == Next(c, s, x)
  {
    assert [x][..0] == [];
  }

  lemma RunThree(c: Setup, s: Sys, x: Move, y: Move, z: Move, s1: Sys, s2: Sys)
    requires s1 == Next(c, s, x) && s2 == Next(c, s1, y)
    ensures Run(c, s, [x, y, z]) == Next(c, s2, z)
  {
    RunAfter(c, s, x, [y, z]);
    assert [x] + [y, z] == [x, y, z];
    RunTwo(c, s1, y, z, s2);
  }

  function SessionStart(sid: string): seq<Move>
  {
    [Move(0, StartSession(ClaudeCode, sid)), Move(0, Purge), Move(0, Activate)]
  }

  lemma SessionStarts(c: Setup, s: Sys, sid: string)
    requires 0 !in s.pcs && S.ValidID(sid)
    ensures Run(c, s, SessionStart(sid)) == s.(store := S.Mem(map[], sid), announced := s.announced + {sid})
  {
    var s1 := Go(s, 0, Starting(ClaudeCode, sid));
    assert Next(c, s, Move(0, StartSession(ClaudeCode, sid))) == s1;
    var s2 := Go(Call(s1, S.Reset), 0, Purged(sid));
    assert Next(c, s1, Move(0, Purge)) == s2;
    RunThree(c, s, Move(0, StartSession(ClaudeCode, sid)), Move(0, Purge), Move(0, Activate), s1, s2);
    assert s2.pcs - {0} == s.pcs;
  }

  /** A plan goes through the client to a server that accepts it. */
  function SmallLock(sid: string): seq<Move>
  {
    [Move(1, Submit(SmallPlan(sid), true)), Move(1, Validate(0)), Move(1, IssueTicket)]
  }

  lemma SmallLocks(c: Setup, s: Sys, sid: string)
    requires 1 !in s.pcs && s.store.active == sid && sid != "" && s.registries == [Lenient("")]
    ensures var s' := Run(c, s, SmallLock(sid)); var plan := SmallPlan(sid);
            && s'.pcs == s.pcs[1 := Locked(plan, Issue(plan, c.ttl, s.now, c.key), true)] && s'.store == s.store
  {
    var plan := SmallPlan(sid);
    SmallAccepted(c, sid);
    var s1 := Go(s, 1, Sent(plan, true));
    SubmittedIsSent(c, s, 1, plan);
    AcceptedIsPassed(c, s1, 1, 0);
    var s2 := Go(s1, 1, Passed(plan, Lenient(""), true));
    IssuedIsLocked(c, s2, 1);
    RunThree(c, s, Move(1, Submit(plan, true)), Move(1, Validate(0)), Move(1, IssueTicket), s1, s2);
  }

  lemma SmallAccepted(c: Setup, sid: string)
    requires sid != ""
    ensures Accepted(c, SmallPlan(sid), Lenient(""))
  {
    SmallPlanFine(sid);
    LenientAccepts(c.message, SmallPlan(sid));
  }

  lemma SubmittedIsSent(c: Setup, s: Sys, pid: nat, plan: Plan)
    requires pid !in s.pcs && s.store.active == plan.sessionID
    ensures Next(c, s, Move(pid, Submit(plan, true))) == Go(s, pid, Sent(plan, true))
  {
  }

  lemma IssuedIsLocked(c: Setup, s: Sys, pid: nat)
    requires pid in s.pcs && s.pcs[pid].Passed?
    ensures var s' := Next(c, s, Move(pid, IssueTicket)); var pc := s.pcs[pid];
            s'.pcs == s.pcs[pid := Locked(pc.plan, Issue(pc.plan, c.ttl, s.now, c.key), pc.saves)]
              && s'.store == s.store
  {
  }

  /** A session starts and locks a plan through the client; before the answer is
    * saved, the next session starts and purges. */
  function Race(sid: string, next: string): seq<Move>
  {
    SessionStart(sid) + SmallLock(sid) + [Move(2, StartSession(ClaudeCode, next)), Move(2, Purge), Move(1, Save)]
  }

  /** A run from the very beginning in which a ticket outlives the purge of the next
    * session's start. */
  lemma TicketOutlivesPurge(c: Setup, now: int, sid: string, next: string)
    requires S.ValidID(sid) && next != ""
    ensures var race := Race(sid, next); var s0 := Start(Lenient(""), now);
            && |race| == 9 && race[7] == Move(2, Purge)
            && Run(c, s0, race[..8]).store.tickets == map[]
            && Run(c, s0, race).store.tickets.Keys == {sid}
  {
    var s0 := Start(Lenient(""), now);
    var early := SessionStart(sid) + SmallLock(sid);
    var start, purge, save := Move(2, StartSession(ClaudeCode, next)), Move(2, Purge), Move(1, Save);
    RaceLocked(c, now, sid);
    SavedAfterPurge(c, Run(c, s0, early), sid, next);
    RunConcat(c, s0, early, [start, purge, save]);
    RunConcat(c, s0, early, [start, purge]);
    RaceParts(sid, next);
  }

  lemma RaceParts(sid: string, next: string)
    ensures var race, early := Race(sid, next), SessionStart(sid) + SmallLock(sid);
            && |race| == 9 && race[7] == Move(2, Purge)
            && race[..8] == early + [Move(2, StartSession(ClaudeCode, next)), Move(2, Purge)]
  {
  }

  lemma RaceLocked(c: Setup, now: int, sid: string)
    requires S.ValidID(sid)
    ensures var s := Run(c, Start(Lenient(""), now), SessionStart(sid) + SmallLock(sid));
            2 !in s.pcs && 1 in s.pcs && s.pcs[1].Locked? && s.pcs[1].saves && s.pcs[1].plan.sessionID == sid
  {
    var s0 := Start(Lenient(""), now);
    SessionStarts(c, s0, sid);
    RunConcat(c, s0, SessionStart(sid), SmallLock(sid));
    SmallLocks(c, Run(c, s0, SessionStart(sid)), sid);
  }

  lemma SavedAfterPurge(c: Setup, s: Sys, sid: string, next: string)
    requires 2 !in s.pcs && 1 in s.pcs && s.pcs[1].Locked? && s.pcs[1].saves && s.pcs[1].plan.sessionID == sid
    requires S.ValidID(sid) && next != ""
    ensures var start, purge, save := Move(2, StartSession(ClaudeCode, next)), Move(2, Purge), Move(1, Save);
            && Run(c, s, [start, purge]).store.tickets == map[]
            && Run(c, s, [start, purge, save]).store.tickets.Keys == {sid}
  {
    var start, purge, save := Move(2, StartSession(ClaudeCode, next)), Move(2, Purge), Move(1, Save);
    var s1 := Go(s, 2, Starting(ClaudeCode, next));
    SessionOpens(c, s, 2, next);
    LateSave(c, s1, 2, 1, next, sid);
    RunTwo(c, s, start, purge, s1);
    RunThree(c, s, start, purge, save, s1, Next(c, s1, purge));
  }

  lemma SessionOpens(c: Setup, s: Sys, pid: nat, sid: string)
    requires pid !in s.pcs
    ensures Next(c, s, Move(pid, StartSession(ClaudeCode, sid))) == Go(s, pid, Starting(ClaudeCode, sid))
  {
  }
}
