/** What the lines and the ranking of the report say, on the fields of the journal's
  * events (cmd/ppg/report.go). */
module ReportMeaning {
  import opened Text
  import opened Report
  import opened Aggregate

  /** Where the events of a class stand. */
  ghost function Where(s: seq<Event>, keep: Event -> bool): set<int>
  {
    set i | 0 <= i < |s| && keep(s[i])
  }

  lemma WhereSnoc(s: seq<Event>, keep: Event -> bool)
    requires s != []
    ensures var n := |s| - 1;
            && Where(s, keep) == Where(s[..n], keep) + (if keep(s[n]) then {n} else {})
            && n !in Where(s[..n], keep)
  {
  }

  /** A count is the number of places where an event of the class stands. */
  lemma {:induction false} CountIsPlaces(s: seq<Event>, keep: Event -> bool)
    ensures Count(s, keep) == |Where(s, keep)|
  {
    if s != [] {
      WhereSnoc(s, keep);
      CountIsPlaces(s[..|s| - 1], keep);
    }
  }

  /** The events of a session's line: its own, or those without a session. */
  lemma OwnEvents(s: seq<Event>, sid: string, e: Event)
    ensures e in Filter(s, Of(sid)) <==>
              e in s && ((e.sid != "" && e.sid == sid) || (e.sid == "" && sid == "(no session)"))
  {
    FilterKeeps(s, Of(sid));
  }

  /** The name a flag is shown by, and what makes it true, on the events' own fields. */
  lemma FlagNamesAre()
    ensures FlagName(AskedTwice) == "asked-twice" && FlagName(Relocked) == "re-locked"
    ensures FlagName(Conflict) == "conflict" && FlagName(Substitution) == "substitution"
    ensures FlagName(BypassSuspected) == "bypass?" && FlagName(UnverifiedWindow) == "unverified-window"
  {
  }

  lemma MeaningsSpelledOut(s: seq<Event>)
    ensures Meaning(Relocked, s) <==> exists i, j :: 0 <= i < j < |s| && s[i].kind == s[j].kind == PlanLocked
    ensures Meaning(BypassSuspected, s) <==>
              exists i :: 0 <= i < |s| && s[i].kind == GuardBlock
                          && s[i].reason in {"session_mismatch", "ticket_rejected"}
    ensures Meaning(UnverifiedWindow, s) <==>
              exists i :: 0 <= i < |s| && s[i].kind == VerifyRun && s[i].outcome == "error"
  {
    TwiceIff(s, IsKind(PlanLocked));
    assert forall i :: 0 <= i < |s| ==>
      (Bypass(s[i]) <==> s[i].kind == GuardBlock && s[i].reason in {"session_mismatch", "ticket_rejected"});
    assert forall i :: 0 <= i < |s| ==> (Unverified(s[i]) <==> s[i].kind == VerifyRun && s[i].outcome == "error");
  }

  lemma {:induction false} TwiceIff(s: seq<Event>, keep: Event -> bool)
    ensures Count(s, keep) >= 2 <==> exists i, j :: 0 <= i < j < |s| && keep(s[i]) && keep(s[j])
  {
    if s != [] {
      var n := |s| - 1;
      TwiceIff(s[..n], keep);
      CountPositiveIff(s[..n], keep);
      if i, j :| 0 <= i < j < n && keep(s[..n][i]) && keep(s[..n][j]) { assert keep(s[i]) && keep(s[j]); }
      if i :| 0 <= i < n && keep(s[..n][i]) && keep(s[n]) { assert keep(s[i]); }
      if i, j :| 0 <= i < j < |s| && keep(s[i]) && keep(s[j]) {
        assert keep(s[..n][i]);
        if j < n { assert keep(s[..n][j]); }
      }
    }
  }

  /** The places of the session's events of one kind. */
  ghost function Places(s: seq<Event>, kind: Kind): set<int>
  {
    set i | 0 <= i < |s| && s[i].kind == kind
  }

  /** The numbers of a line, as places among the session's events. */
  lemma LineSpelledOut(sid: string, s: seq<Event>)
    requires s != []
    ensures var r := LineOf(sid, s).report;
            && r.sid == sid && r.first == s[0].time && r.last == s[|s| - 1].time
            && r.turns == |Places(s, PlanLocked)| && r.intents == |Places(s, IntentDeclared)|
            && r.planRejected == |Places(s, PlanRejected)| && r.conflicts == |Places(s, PlanConflict)|
            && r.blocks == |Places(s, GuardBlock)| && r.allows == |Places(s, GuardAllow)|
            && r.verifies == |Verifications(s)|
  {
    LineCounts(sid, s);
    KindPlaces(s, PlanLocked);
    KindPlaces(s, IntentDeclared);
    KindPlaces(s, PlanRejected);
    KindPlaces(s, PlanConflict);
    KindPlaces(s, GuardBlock);
    KindPlaces(s, GuardAllow);
    VerifyPlaces(s);
  }

  lemma LineCounts(sid: string, s: seq<Event>)
    requires s != []
    ensures var r := LineOf(sid, s).report;
            && r.sid == sid && r.first == s[0].time && r.last == s[|s| - 1].time
            && r.turns == Count(s, IsKind(PlanLocked)) && r.intents == Count(s, IsKind(IntentDeclared))
            && r.planRejected == Count(s, IsKind(PlanRejected)) && r.conflicts == Count(s, IsKind(PlanConflict))
            && r.blocks == Count(s, IsKind(GuardBlock)) && r.allows == Count(s, IsKind(GuardAllow))
            && r.verifies == Count(s, Verifies)
  {
  }

  ghost function Verifications(s: seq<Event>): set<int>
  {
    set i | 0 <= i < |s| && (s[i].kind == ChangesetOK || s[i].kind == ChangesetRejected || s[i].kind == VerifyRun)
  }

  lemma VerifyPlaces(s: seq<Event>)
    ensures Count(s, Verifies) == |Verifications(s)|
  {
    var keep: Event -> bool := Verifies;
    CountIsPlaces(s, keep);
    assert forall e :: keep(e) == (e.kind == ChangesetOK || e.kind == ChangesetRejected || e.kind == VerifyRun);
    assert Verifications(s) == Where(s, keep);
  }

  lemma KindPlaces(s: seq<Event>, kind: Kind)
    ensures Count(s, IsKind(kind)) == |Places(s, kind)|
  {
    CountIsPlaces(s, IsKind(kind));
    assert Places(s, kind) == Where(s, IsKind(kind));
  }

  /** Where a policy was seen: the names of the events that carry it. */
  lemma {:induction false} SeenInIs(s: seq<Event>, id: string, name: string)
    ensures name in SeenIn(s, id) <==>
              exists i :: 0 <= i < |s| && id in s[i].policyIDs
                          && ((name == "ppg.plan.rejected" && s[i].kind == PlanRejected)
                              || (name == "ppg.plan.conflict" && s[i].kind == PlanConflict)
                              || (name == "ppg.artifact.rejected" && s[i].kind == ArtifactRejected)
                              || (name == "ppg.changeset.rejected" && s[i].kind == ChangesetRejected))
  {
    if s != [] {
      var front := s[..|s| - 1];
      SeenInIs(front, id, name);
      assert forall i :: 0 <= i < |front| ==> front[i] == s[i];
    }
  }

  /** The ranking puts the policy violated most often first, ties in the order of
    * their ids. */
  lemma RankedMostFirst(top: seq<PolicyCount>, i: nat, j: nat)
    requires Ranked(top) && i < j < |top|
    ensures top[i].count >= top[j].count
    ensures top[i].count == top[j].count ==> Less(top[i].id, top[j].id)
  {
    assert Before(top[i], top[j]);
  }
}
