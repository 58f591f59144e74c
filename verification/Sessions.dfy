/** The store calls the hooks and the client make (adapters/claudecode/guard,
  * adapters/copilot/guard, adapters/claudecode/mcpserver), over the map store:
  * recording and claiming a session, stamping a plan, saving and reading a
  * ticket. */
module Sessions {
  import opened PlanGraph
  import opened Guard
  import S = Store
  import A = Authority
  import Safety

  /** The store after a session start. An id the store refuses is not made active,
    * but Claude Code's hook has purged every ticket by then. */
  function Recorded(adapter: Adapter, m: S.Mem, sid: string): S.Mem
  {
    if sid == "" then m
    else
      var purged := if adapter.ClaudeCode? then map[] else if S.ValidID(sid) then m.tickets - {sid} else m.tickets;
      S.Mem(purged, if S.ValidID(sid) then sid else m.active)
  }

  /** `recordSession`, in both guards. */
  method RecordSession(adapter: Adapter, sid: string, store: S.Memory) returns (ok: bool)
    modifies store
    ensures store.Value() == Recorded(adapter, old(store.Value()), sid)
    ensures ok <==> sid == "" || S.ValidID(sid)
  {
    if sid == "" { return true; }
    var r: S.Result;
    if adapter.ClaudeCode? {
      r := store.Perform(S.Reset);
    } else {
      r := store.Perform(S.Delete(sid));
      if r.Invalid? { return false; }
    }
    r := store.Perform(S.PutActive(sid));
    ok := !r.Invalid?;
  }

  /** `claimSession`. */
  method ClaimSession(sid: string, store: S.Memory)
    modifies store
    ensures store.tickets == old(store.tickets)
    ensures store.active == if S.ValidID(sid) then sid else old(store.active)
  {
    if sid == "" { return; }
    var active := store.Perform(S.GetActive);
    if active == S.Found(sid) { return; }
    var _ := store.Perform(S.PutActive(sid));
  }

  /** The ticket found for a hook payload; empty for none. */
  function TicketFor(m: S.Mem, payload: string): string
  {
    var sid := if payload == "" then m.active else payload;
    if S.ValidID(sid) && sid in m.tickets then m.tickets[sid] else ""
  }

  /** `readTicket`. */
  method ReadTicket(payload: string, store: S.Memory) returns (text: string)
    modifies store
    ensures text == TicketFor(old(store.Value()), payload) && store.Value() == old(store.Value())
  {
    var sid := payload;
    if sid == "" {
      var active := store.Perform(S.GetActive);
      if !active.Found? { return ""; }
      sid := active.value;
    }
    if sid == "" { return ""; }
    var r := store.Perform(S.Get(sid));
    return if r.Found? then r.value else "";
  }

  /** `stampSessionID`. */
  method StampSessionID(p: Plan, store: S.Memory) returns (stamped: Plan, applied: bool)
    modifies store
    ensures store.Value() == old(store.Value())
    ensures applied <==> store.active != ""
    ensures stamped == if applied then p.(sessionID := store.active) else p
  {
    var active := store.Perform(S.GetActive);
    if !active.Found? || active.value == "" { return p, false; }
    return p.(sessionID := active.value), true;
  }

  /** `saveTicket`, on the ticket of a lock reply. */
  method SaveTicket(sid: string, ticket: string, store: S.Memory) returns (saved: bool)
    modifies store
    ensures saved <==> ticket != "" && S.ValidID(sid)
    ensures store.active == old(store.active)
    ensures store.tickets == if saved then old(store.tickets)[sid := ticket] else old(store.tickets)
  {
    if ticket == "" || sid == "" { return false; }
    var r := store.Perform(S.Put(sid, ticket));
    saved := !r.Invalid?;
  }

  /** After a session start no ticket answers for that session, by its id or, with
    * Claude Code, by any; a ticket saved for it then is the one its hooks read,
    * with or without the id in the payload. */
  lemma FreshSessionThenSaved(adapter: Adapter, m: S.Mem, sid: string, ticket: string, other: string)
    requires S.ValidID(sid)
    ensures var m1 := Recorded(adapter, m, sid);
            var m2 := S.Apply(m1, S.Put(sid, ticket)).0;
            && TicketFor(m1, sid) == "" && TicketFor(m1, "") == ""
            && (adapter.ClaudeCode? ==> TicketFor(m1, other) == "")
            && (adapter.Copilot? && other != sid && other != "" ==> TicketFor(m1, other) == TicketFor(m, other))
            && TicketFor(m2, sid) == ticket && TicketFor(m2, "") == ticket
            && (other != sid && other != "" ==> TicketFor(m2, other) == TicketFor(m1, other))
  {
  }

  /** A start under an id the store refuses: it is not made active, but Claude
    * Code's hook has purged by then. Without an id nothing happens. */
  lemma RefusedStart(adapter: Adapter, m: S.Mem, sid: string)
    requires !S.ValidID(sid)
    ensures Recorded(adapter, m, sid) == if adapter.ClaudeCode? && sid != "" then S.Mem(map[], m.active) else m
  {
  }

  /** The two steps of a session start, run together, do what the call does. */
  lemma StartStepsRecord(c: A.Setup, s: A.Sys, pid: nat, adapter: Adapter, sid: string)
    requires pid in s.pcs && s.pcs[pid] == A.Starting(adapter, sid)
    ensures A.Next(c, A.Next(c, s, A.Move(pid, A.Purge)), A.Move(pid, A.Activate)).store
            == Recorded(adapter, s.store, sid)
    ensures adapter.Copilot? && !S.ValidID(sid) ==> A.Next(c, s, A.Move(pid, A.Purge)) == A.Done(s, pid)
  {
    var s1 := A.Next(c, s, A.Move(pid, A.Purge));
    if sid != "" && (adapter.ClaudeCode? || S.ValidID(sid)) { assert s1.pcs[pid] == A.Purged(sid); }
  }

  /** A plan submitted through the client is stamped as the call stamps it; a direct
    * one is sent as it is. */
  lemma SubmitStamps(c: A.Setup, s: A.Sys, pid: nat, p: Plan, viaClient: bool)
    requires pid !in s.pcs
    ensures var s' := A.Next(c, s, A.Move(pid, A.Submit(p, viaClient)));
            && s'.store == s.store
            && s'.pcs == s.pcs[pid := A.Sent(if viaClient && s.store.active != "" then p.(sessionID := s.store.active)
                                             else p, viaClient)]
  {
  }

  /** The claiming steps of a hook, run together: Copilot's makes the payload's
    * session the active one, Claude Code's does not touch the store. */
  lemma ClaimStepsClaim(c: A.Setup, s: A.Sys, pid: nat, q: A.Request)
    requires pid in s.pcs && s.pcs[pid] == A.Opened(q)
    ensures var s' := A.Next(c, A.Next(c, s, A.Move(pid, A.Claim)), A.Move(pid, A.PutClaim));
            && s'.store.tickets == s.store.tickets && (q.input.sessionID == "" ==> s'.announced == s.announced)
            && s'.store.active == if q.adapter.Copilot? && S.ValidID(q.input.sessionID) then q.input.sessionID
                                  else s.store.active
  {
    Safety.GuardMoves(c, s, pid, A.Claim);
    Safety.GuardMoves(c, A.Next(c, s, A.Move(pid, A.Claim)), pid, A.PutClaim);
  }

  /** The saving step of the client stores the ticket of the reply under the plan's
    * session; a direct caller saves nothing. */
  lemma SaveStepSaves(c: A.Setup, s: A.Sys, pid: nat, plan: Plan, ticket: A.Ticket, saves: bool)
    requires pid in s.pcs && s.pcs[pid] == A.Locked(plan, ticket, saves)
    ensures var s' := A.Next(c, s, A.Move(pid, A.Save));
            && pid !in s'.pcs && s'.store.active == s.store.active
            && s'.store.tickets == if saves && S.ValidID(plan.sessionID)
                                   then s.store.tickets[plan.sessionID := c.format(ticket)] else s.store.tickets
  {
  }

  /** And the reading steps of a hook, run together, read what the call reads. */
  lemma HookStepsRead(c: A.Setup, s: A.Sys, pid: nat, q: A.Request)
    requires pid in s.pcs && s.pcs[pid] == A.Reading(q)
    ensures var s' := A.Next(c, A.Next(c, s, A.Move(pid, A.ReadSession)), A.Move(pid, A.ReadTicket));
            pid in s'.pcs && s'.pcs[pid].Deciding? && s'.pcs[pid].text == TicketFor(s.store, q.input.sessionID)
  {
    Safety.SessionRead(c, s, pid, q);
  }
}
