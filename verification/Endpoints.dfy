/** The decision order of the server's handlers (cmd/ppg/main.go): locking a plan
  * and verifying an edited artifact, over the linter, the livelock detector and
  * the ticket issuer. */
module Endpoints {
  import opened Text
  import opened PlanGraph
  import opened Skills
  import opened Conflict
  import opened Guard
  import Scope
  import Authority

  datatype LockReply =
    | PlanMalformed(error: StructureError)
    | PlanRejected(violations: seq<Violation>, rejections: nat)
    | PlanConflict(violations: seq<Violation>, rejections: nat, conflictID: string)
    | PlanLocked(ticket: Authority.Ticket)

  function IDsOf(vs: seq<Violation>): seq<string>
  {
    if vs == [] then [] else IDsOf(vs[..|vs| - 1]) + [vs[|vs| - 1].policyID]
  }

  /** The canonical policy set of a verdict. */
  ghost function PolicySet(vs: seq<Violation>): seq<string>
  {
    SortedSet(Elements(IDsOf(vs)))
  }

  class Endpoint {
    const setup: Authority.Setup
    const linter: Linter
    const conflicts: ConflictDetector

    constructor (setup: Authority.Setup, linter: Linter, conflicts: ConflictDetector)
      ensures this.setup == setup && this.linter == linter && this.conflicts == conflicts
    {
      this.setup, this.linter, this.conflicts := setup, linter, conflicts;
    }

    ghost predicate Valid()
      reads this
    {
      linter.message == setup.message
    }

    ghost function Verdict(p: Plan): seq<Violation>
      reads this, linter, linter.Tables()
    {
      PlanVerdict(linter.Value(), linter.message, p)
    }

    /** `handleLockInPlan`: structure, then policies, then the detector, then the
      * ticket. A malformed plan reaches no policy and no counter; a clean plan is
      * locked whatever sets are escalated, and clears its session's counters; any
      * other plan is counted once, and blocked exactly when its policy set already
      * is escalated or has now been rejected often enough. */
    method HandleLockInPlan(p: Plan, now: int, ts: string) returns (reply: LockReply)
      requires Valid()
      modifies conflicts`state, conflicts.file
      ensures reply.PlanMalformed? <==> !WellStructured(p)
      ensures reply.PlanLocked? <==> WellStructured(p) && old(Verdict(p)) == []
      ensures reply.PlanLocked? <==> Authority.Accepted(setup, p, old(linter.Value()))
      ensures reply.PlanMalformed? ==> Explains(p, reply.error) && unchanged(conflicts)
                                       && (conflicts.file != null ==> unchanged(conflicts.file))
      ensures reply.PlanLocked? ==>
                reply.ticket == Issue(p, setup.ttl, now, setup.key)
                && conflicts.state == old(conflicts.state).(counts := old(conflicts.state).counts - {p.sessionID})
      ensures reply.PlanLocked? ==>
                conflicts.file != null ==>
                  conflicts.file.content ==
                    if p.sessionID in old(conflicts.state).counts then Some(conflicts.state)
                      else old(conflicts.file.content)
      ensures reply.PlanRejected? || reply.PlanConflict? ==>
                var ids := PolicySet(old(Verdict(p)));
                var answer := RejectionAnswer(old(conflicts.state), conflicts.conflictID(SetKey(ids)), p.sessionID,
                  ids);
                && reply.violations == old(Verdict(p)) && reply.rejections == answer.count
                && (reply.PlanConflict? <==> answer.blocked) && (reply.PlanConflict? ==> reply.conflictID == answer.id)
                && (reply.PlanConflict? <==> conflicts.conflictID(SetKey(ids)) in conflicts.state.escalated)
                && conflicts.state == Rejected(old(conflicts.state), answer.id, p.sessionID, ids, ts)
      ensures reply.PlanRejected? || reply.PlanConflict? ==>
                conflicts.file != null ==> conflicts.file.content == Some(conflicts.state)
    {
      var malformed := ValidateStructure(p);
      if malformed.Some? { return PlanMalformed(malformed.value); }
      var violations := linter.Validate(p);
      if |violations| > 0 {
        var raw := PolicyIDsOf(violations);
        var ids := ViolationPolicyIDs(raw);
        var rejections, id, blocked := conflicts.ObserveRejection(p.sessionID, ids, ts);
        if blocked { return PlanConflict(violations, rejections, id); }
        return PlanRejected(violations, rejections);
      }
      conflicts.ObserveSuccess(p.sessionID);
      return PlanLocked(Issue(p, setup.ttl, now, setup.key));
    }

    /** `handleVerifyArtifact`: the ticket and the path scope again, then content. */
    method HandleVerifyArtifact(ticket: Authority.Ticket, now: int, path: string, content: string)
      returns (check: Check)
      requires Valid()
      ensures check == Authority.VerifyArtifact(setup, linter.Value(), ticket, now, path, content)
    {
      if Scope.TrimSpace(path) == "" { return CheckFailed; }
      var guarded := GuardTargets(ticket, setup.key, now, [path]);
      if guarded.Refused? {
        return if guarded.error.OutOfScope? then Checked([Authority.OUT_OF_SCOPE_GUIDANCE]) else CheckFailed;
      }
      var claims := guarded.claims;
      var violations := linter.EvaluateArtifact(claims.sessionID, claims.skillID, Artifact(path, content, ""));
      return Checked(Authority.Messages(violations));
    }
  }

  /** The protocol's two lock steps, run together on the registry the handler uses,
    * do what the handler does: a plan is locked, with that ticket, exactly when
    * the handler locks it. */
  lemma LockStepsAgree(c: Authority.Setup, s: Authority.Sys, pid: nat, p: Plan, saves: bool, g: nat)
    requires pid in s.pcs && s.pcs[pid] == Authority.Sent(p, saves) && g < |s.registries|
    ensures var validated := Authority.Next(c, s, Authority.Move(pid, Authority.Validate(g)));
            var s' := Authority.Next(c, validated, Authority.Move(pid, Authority.IssueTicket));
            var ticket := Issue(p, c.ttl, s.now, c.key);
            if Authority.Accepted(c, p, s.registries[g]) then
              pid in s'.pcs && s'.pcs[pid] == Authority.Locked(p, ticket, saves)
              && s'.locks == s.locks + [Authority.Lock(p, s.registries[g], ticket)]
            else s' == s
  {
    ValidateStep(c, s, pid, p, saves, g);
    if Authority.Accepted(c, p, s.registries[g]) {
      IssueStep(c, Authority.Go(s, pid, Authority.Passed(p, s.registries[g], saves)), pid, p, s.registries[g], saves);
    }
  }

  lemma ValidateStep(c: Authority.Setup, s: Authority.Sys, pid: nat, p: Plan, saves: bool, g: nat)
    requires pid in s.pcs && s.pcs[pid] == Authority.Sent(p, saves) && g < |s.registries|
    ensures Authority.Next(c, s, Authority.Move(pid, Authority.Validate(g)))
            == if Authority.Accepted(c, p, s.registries[g])
              then Authority.Go(s, pid, Authority.Passed(p, s.registries[g], saves)) else s
  {
  }

  lemma IssueStep(c: Authority.Setup, s: Authority.Sys, pid: nat, p: Plan, r: Registry, saves: bool)
    requires pid in s.pcs && s.pcs[pid] == Authority.Passed(p, r, saves)
    ensures var s' := Authority.Next(c, s, Authority.Move(pid, Authority.IssueTicket));
            var ticket := Issue(p, c.ttl, s.now, c.key);
            pid in s'.pcs && s'.pcs[pid] == Authority.Locked(p, ticket, saves)
            && s'.locks == s.locks + [Authority.Lock(p, r, ticket)]
  {
  }

  method PolicyIDsOf(violations: seq<Violation>) returns (ids: seq<string>)
    ensures ids == IDsOf(violations)
  {
    ids := [];
    for i := 0 to |violations|
      invariant ids == IDsOf(violations[..i])
    {
      assert violations[..i + 1][..i] == violations[..i];
      ids := ids + [violations[i].policyID];
    }
    assert violations[..|violations|] == violations;
  }

  /** Two rejected plans count towards the same set exactly when their verdicts
    * name the same policies. */
  lemma SamePoliciesSameSet(a: seq<Violation>, b: seq<Violation>)
    requires a != [] && b != [] && forall v :: v in a + b ==> '\U{0}' !in v.policyID
    ensures SetKey(PolicySet(a)) == SetKey(PolicySet(b)) <==>
              (set v | v in a :: v.policyID) == (set v | v in b :: v.policyID)
  {
    IDsOfIs(a);
    IDsOfIs(b);
    forall x | x in IDsOf(a) ensures NUL !in x {
      assert x in Elements(IDsOf(a));
      var v :| v in a && v.policyID == x;
      assert v in a + b;
    }
    forall x | x in IDsOf(b) ensures NUL !in x {
      assert x in Elements(IDsOf(b));
      var v :| v in b && v.policyID == x;
      assert v in a + b;
    }
    CanonicalKeyFaithful(IDsOf(a), IDsOf(b));
  }

  lemma {:induction false} IDsOfIs(vs: seq<Violation>)
    ensures |IDsOf(vs)| == |vs| && Elements(IDsOf(vs)) == set v | v in vs :: v.policyID
  {
    if vs != [] {
      var front, last := vs[..|vs| - 1], vs[|vs| - 1];
      IDsOfIs(front);
      assert vs == front + [last];
      forall x ensures x in IDsOf(vs) <==> exists v :: v in vs && v.policyID == x {
        assert x in IDsOf(front) <==> x in set v | v in front :: v.policyID by {
          assert x in IDsOf(front) <==> x in Elements(IDsOf(front));
        }
        if v :| v in vs && v.policyID == x { assert v in front || v == last; }
        if v :| v in front && v.policyID == x { assert v in vs; }
        assert last in vs;
      }
    }
  }
}
