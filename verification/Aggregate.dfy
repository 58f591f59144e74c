/** `aggregate` of cmd/ppg/report.go: the single pass, and what its totals and
  * ranking mean. */
module Aggregate {
  import opened Text
  import opened Report

  datatype PolicyCount = PolicyCount(id: string, count: nat, events: seq<string>)

  datatype ReportData = ReportData(
    eventCount: nat,
    sessions: seq<SessionLine>,
    blocksByReason: map<string, nat>,
    topInvariants: seq<PolicyCount>,
    substitutions: nat)

  // --------------------------------------------------- the session record

  function NewAcc(sid: string, time: int): Acc
  {
    Acc(SessionReport(sid, time, time, 0, 0, 0, 0, 0, 0, 0, 0), 0, {})
  }

  lemma CountSnoc(s: seq<Event>, e: Event, keep: Event -> bool)
    ensures Count(s + [e], keep) == Count(s, keep) + if keep(e) then 1 else 0
  {
    assert (s + [e])[..|s|] == s;
  }

  lemma RunSnoc(s: seq<Event>, e: Event)
    ensures OpenRun(s + [e]) ==
              if e.kind == PlanLocked then 0 else if e.kind == PlanRejected then OpenRun(s) + 1 else OpenRun(s)
    ensures LongestRun(s + [e]) == if OpenRun(s + [e]) > LongestRun(s) then OpenRun(s + [e]) else LongestRun(s)
  {
    assert (s + [e])[..|s|] == s;
  }

  lemma {:induction false} OpenNotLonger(s: seq<Event>)
    ensures OpenRun(s) <= LongestRun(s)
  {
  }

  function One(b: bool): nat
  {
    if b then 1 else 0
  }

  /** The record after one more event, field by field. */
  function Observed(s: Acc, e: Event): Acc
  {
    var r := s.report;
    var run := if e.kind == PlanLocked then 0 else s.rejectRun + One(e.kind == PlanRejected);
    Acc(SessionReport(r.sid, r.first, e.time,
          r.turns + One(e.kind == PlanLocked), r.intents + One(e.kind == IntentDeclared),
          r.planRejected + One(e.kind == PlanRejected), if run > r.maxRejectRun then run else r.maxRejectRun,
          r.conflicts + One(e.kind == PlanConflict), r.blocks + One(e.kind == GuardBlock),
          r.allows + One(e.kind == GuardAllow), r.verifies + One(Verifies(e))),
        run, MoreFlags(s.flags, r.turns, e))
  }

  function MoreFlags(flags: set<Flag>, turns: nat, e: Event): set<Flag>
  {
    match e.kind
    case PlanConflict => flags + {Conflict}
    case PlanLocked => if turns + 1 >= 2 then flags + {Relocked} else flags
    case PlanSubstitution => flags + {Substitution}
    case GuardBlock => if Bypass(e) then flags + {BypassSuspected} else flags
    case VerifyRun => if Unverified(e) then flags + {UnverifiedWindow} else flags
    case _ => flags
  }

  lemma FlagsSnoc(s: seq<Event>, e: Event)
    ensures Flags(s + [e]) == MoreFlags(Flags(s), Count(s, IsKind(PlanLocked)), e)
  {
    CountSnoc(s, e, IsKind(PlanLocked));
    CountSnoc(s, e, IsKind(PlanConflict));
    CountSnoc(s, e, IsKind(PlanSubstitution));
    CountSnoc(s, e, Bypass);
    CountSnoc(s, e, Unverified);
  }

  lemma ObservedSnoc(sid: string, first: int, last: int, s: seq<Event>, e: Event)
    ensures Observed(AccFrom(sid, first, last, s), e) == AccFrom(sid, first, e.time, s + [e])
  {
    CountSnoc(s, e, IsKind(PlanLocked));
    CountSnoc(s, e, IsKind(IntentDeclared));
    CountSnoc(s, e, IsKind(PlanRejected));
    CountSnoc(s, e, IsKind(PlanConflict));
    CountSnoc(s, e, IsKind(GuardBlock));
    CountSnoc(s, e, IsKind(GuardAllow));
    CountSnoc(s, e, Verifies);
    RunSnoc(s, e);
    OpenNotLonger(s);
    FlagsSnoc(s, e);
  }

  /** The record as it stands before event e of the session. */
  ghost function Standing(sid: string, before: seq<Event>, time: int): Acc
  {
    if before == [] then NewAcc(sid, time) else AccOf(sid, before)
  }

  lemma ObservedIsRecord(sid: string, before: seq<Event>, e: Event)
    ensures Observed(Standing(sid, before, e.time), e) == AccOf(sid, before + [e])
  {
    var first := if before == [] then e.time else before[0].time;
    var last := if before == [] then e.time else before[|before| - 1].time;
    assert Standing(sid, before, e.time) == AccFrom(sid, first, last, before);
    ObservedSnoc(sid, first, last, before, e);
    assert (before + [e])[0].time == first && (before + [e])[|before|] == e;
  }

  /** The switch of `aggregate`, on the session's record. */
  method Observe(s: Acc, e: Event) returns (s': Acc)
    requires s.rejectRun <= s.report.maxRejectRun
    ensures s' == Observed(s, e)
  {
    var r := s.report.(last := e.time);
    var run, flags := s.rejectRun, s.flags;
    match e.kind {
      case IntentDeclared =>
        r := r.(intents := r.intents + 1);
      case PlanLocked =>
        r := r.(turns := r.turns + 1);
        run := 0;
        if r.turns >= 2 { flags := flags + {Relocked}; }
      case PlanRejected =>
        r := r.(planRejected := r.planRejected + 1);
        run := run + 1;
        r := r.(maxRejectRun := if run > r.maxRejectRun then run else r.maxRejectRun);
      case PlanConflict =>
        r := r.(conflicts := r.conflicts + 1);
        flags := flags + {Conflict};
      case PlanSubstitution =>
        flags := flags + {Substitution};
      case GuardBlock =>
        r := r.(blocks := r.blocks + 1);
        if e.reason == SESSION_MISMATCH || e.reason == TICKET_REJECTED { flags := flags + {BypassSuspected}; }
      case GuardAllow =>
        r := r.(allows := r.allows + 1);
      case ChangesetOK =>
        r := r.(verifies := r.verifies + 1);
      case ChangesetRejected =>
        r := r.(verifies := r.verifies + 1);
      case VerifyRun =>
        r := r.(verifies := r.verifies + 1);
        if e.outcome == OUTCOME_ERROR { flags := flags + {UnverifiedWindow}; }
      case _ =>
    }
    s' := Acc(r, run, flags);
  }

  // ------------------------------------------------------- policy counts

  /** The events whose policy ids are counted. */
  predicate Carries(kind: Kind)
  {
    kind == PlanRejected || kind == PlanConflict || kind == ArtifactRejected || kind == ChangesetRejected
  }

  function Occurrences(s: seq<Event>, id: string): nat
  {
    if s == [] then 0
    else Occurrences(s[..|s| - 1], id)
         + if Carries(s[|s| - 1].kind) then multiset(s[|s| - 1].policyIDs)[id] else 0
  }

  /** The names of the events a policy was seen in. */
  function SeenIn(s: seq<Event>, id: string): set<string>
  {
    if s == [] then {}
    else SeenIn(s[..|s| - 1], id)
         + if Carries(s[|s| - 1].kind) && id in s[|s| - 1].policyIDs then {KindName(s[|s| - 1].kind)} else {}
  }

  ghost predicate TallyAt(invariants: map<string, PolicyCount>, s: seq<Event>, id: string)
  {
    && (id in invariants <==> id != "" && Occurrences(s, id) > 0)
    && (id in invariants ==>
          && invariants[id].id == id && invariants[id].count == Occurrences(s, id)
          && Distinct(invariants[id].events) && Elements(invariants[id].events) == SeenIn(s, id))
  }

  ghost predicate Tally(invariants: map<string, PolicyCount>, s: seq<Event>)
  {
    forall id :: TallyAt(invariants, s, id)
  }

  /** The event cut down to its first j policy ids. */
  function Cut(e: Event, j: nat): Event
    requires j <= |e.policyIDs|
  {
    e.(policyIDs := e.policyIDs[..j])
  }

  lemma OccurrencesSnoc(s: seq<Event>, e: Event, id: string)
    ensures Occurrences(s + [e], id) == Occurrences(s, id) + if Carries(e.kind) then multiset(e.policyIDs)[id] else 0
    ensures SeenIn(s + [e], id) == SeenIn(s, id) + if Carries(e.kind) && id in e.policyIDs then {KindName(e.kind)}
            else {}
  {
    assert (s + [e])[..|s|] == s;
  }

  lemma CutStep(s: seq<Event>, e: Event, j: nat, id: string)
    requires j < |e.policyIDs| && Carries(e.kind)
    ensures Occurrences(s + [Cut(e, j + 1)], id)
            == Occurrences(s + [Cut(e, j)], id) + if e.policyIDs[j] == id then 1 else 0
    ensures SeenIn(s + [Cut(e, j + 1)], id)
            == SeenIn(s + [Cut(e, j)], id) + if e.policyIDs[j] == id then {KindName(e.kind)} else {}
  {
    OccurrencesSnoc(s, Cut(e, j), id);
    OccurrencesSnoc(s, Cut(e, j + 1), id);
    assert e.policyIDs[..j + 1] == e.policyIDs[..j] + [e.policyIDs[j]];
  }

  lemma {:induction false} NeverSeen(s: seq<Event>, id: string)
    ensures Occurrences(s, id) == 0 ==> SeenIn(s, id) == {}
  {
    if s != [] { NeverSeen(s[..|s| - 1], id); }
  }

  /** One more policy id: count it, and note the event's name once. */
  function Counted(pc: PolicyCount, name: string): PolicyCount
  {
    PolicyCount(pc.id, pc.count + 1, if name in pc.events then pc.events else pc.events + [name])
  }

  lemma CutStepTally(invariants: map<string, PolicyCount>, s: seq<Event>, e: Event, j: nat)
    requires j < |e.policyIDs| && Carries(e.kind) && Tally(invariants, s + [Cut(e, j)])
    ensures var id := e.policyIDs[j];
            var pc := if id in invariants then invariants[id] else PolicyCount(id, 0, []);
            Tally(if id == "" then invariants else invariants[id := Counted(pc, KindName(e.kind))], s + [Cut(e, j + 1)])
  {
    var id := e.policyIDs[j];
    var pc := if id in invariants then invariants[id] else PolicyCount(id, 0, []);
    var next := if id == "" then invariants else invariants[id := Counted(pc, KindName(e.kind))];
    var longer := s + [Cut(e, j + 1)];
    forall x ensures TallyAt(next, longer, x) {
      assert TallyAt(invariants, s + [Cut(e, j)], x);
      CutStep(s, e, j, x);
      NeverSeen(s + [Cut(e, j)], x);
    }
  }

  /** `countPolicies`. */
  method CountPolicies(invariants: map<string, PolicyCount>, e: Event, ghost s: seq<Event>)
    returns (counted: map<string, PolicyCount>)
    requires Carries(e.kind) && Tally(invariants, s)
    ensures Tally(counted, s + [e])
  {
    counted := invariants;
    assert Tally(counted, s + [Cut(e, 0)]) by {
      forall x ensures TallyAt(counted, s + [Cut(e, 0)], x) {
        assert TallyAt(invariants, s, x);
        OccurrencesSnoc(s, Cut(e, 0), x);
      }
    }
    for j := 0 to |e.policyIDs|
      invariant Tally(counted, s + [Cut(e, j)])
    {
      var id := e.policyIDs[j];
      CutStepTally(counted, s, e, j);
      if id == "" { continue; }
      var pc := if id in counted then counted[id] else PolicyCount(id, 0, []);
      pc := pc.(count := pc.count + 1);
      if KindName(e.kind) !in pc.events {
        pc := pc.(events := pc.events + [KindName(e.kind)]);
      }
      counted := counted[id := pc];
    }
    assert Cut(e, |e.policyIDs|) == e;
  }

  lemma OtherEventTally(invariants: map<string, PolicyCount>, s: seq<Event>, e: Event)
    requires !Carries(e.kind) && Tally(invariants, s)
    ensures Tally(invariants, s + [e])
  {
    forall x ensures TallyAt(invariants, s + [e], x) {
      assert TallyAt(invariants, s, x);
      OccurrencesSnoc(s, e, x);
    }
  }

  // --------------------------------------------------------------- ranking

  /** The comparison of `slices.SortFunc`: count down, then id up. */
  predicate Before(a: PolicyCount, b: PolicyCount)
  {
    a.count > b.count || (a.count == b.count && Less(a.id, b.id))
  }

  ghost predicate Ranked(top: seq<PolicyCount>)
  {
    forall i, j :: 0 <= i < j < |top| ==> Before(top[i], top[j])
  }

  lemma BeforeTotal(a: PolicyCount, b: PolicyCount)
    requires a.id != b.id
    ensures Before(a, b) || Before(b, a)
  {
    LessTotal(a.id, b.id);
  }

  lemma BeforeTransitive(a: PolicyCount, b: PolicyCount, c: PolicyCount)
    requires Before(a, b) && Before(b, c)
    ensures Before(a, c)
  {
    if a.count == c.count { LessTransitive(a.id, b.id, c.id); }
  }

  method InsertRanked(top: seq<PolicyCount>, pc: PolicyCount) returns (r: seq<PolicyCount>)
    requires Ranked(top) && forall i :: 0 <= i < |top| ==> top[i].id != pc.id
    ensures Ranked(r)
    ensures forall x :: x in r <==> x in top || x == pc
  {
    var k := 0;
    while k < |top| && Before(top[k], pc)
      invariant 0 <= k <= |top|
      invariant forall i :: 0 <= i < k ==> Before(top[i], pc)
    {
      k := k + 1;
    }
    r := top[..k] + [pc] + top[k..];
    forall j | k <= j < |top| ensures Before(pc, top[j]) {
      BeforeTotal(top[k], pc);
      if j > k { BeforeTransitive(pc, top[k], top[j]); }
    }
  }

  /** The report's entry for one policy. */
  ghost function EntryOf(s: seq<Event>, id: string): PolicyCount
  {
    PolicyCount(id, Occurrences(s, id), SortedSet(SeenIn(s, id)))
  }

  /** The ranking lists every policy that occurs, once, with its true total. */
  ghost predicate Lists(top: seq<PolicyCount>, s: seq<Event>)
  {
    forall pc :: pc in top <==> pc.id != "" && Occurrences(s, pc.id) > 0 && pc == EntryOf(s, pc.id)
  }

  method Rank(invariants: map<string, PolicyCount>, ghost s: seq<Event>) returns (top: seq<PolicyCount>)
    requires Tally(invariants, s)
    ensures Ranked(top) && Lists(top, s)
  {
    top := [];
    var todo := invariants.Keys;
    while todo != {}
      invariant todo <= invariants.Keys && Ranked(top)
      invariant forall pc :: pc in top <==> pc.id in invariants && pc.id !in todo && pc == EntryOf(s, pc.id)
      decreases todo
    {
      var id :| id in todo;
      assert TallyAt(invariants, s, id);
      var events := SortStrings(invariants[id].events);
      SortedDistinct(events, invariants[id].events);
      var pc := invariants[id].(events := events);
      assert pc == EntryOf(s, id);
      forall i | 0 <= i < |top| ensures top[i].id != id { assert top[i] in top; }
      top := InsertRanked(top, pc);
      todo := todo - {id};
    }
    forall pc ensures pc in top <==> pc.id != "" && Occurrences(s, pc.id) > 0 && pc == EntryOf(s, pc.id) {
      assert TallyAt(invariants, s, pc.id);
    }
  }

  /** The ranking is determined: no two lists satisfy its description. */
  lemma {:induction false} RankingUnique(a: seq<PolicyCount>, b: seq<PolicyCount>)
    requires Ranked(a) && Ranked(b) && forall x :: x in a <==> x in b
    ensures a == b
    decreases |a|
  {
    assert a != [] ==> a[0] in b;
    assert b != [] ==> b[0] in a;
    if a != [] {
      LessIrreflexive(a[0].id);
      if a[0] != b[0] { BeforeTransitive(a[0], b[0], a[0]); }
      forall x ensures x in a[1..] <==> x in b[1..] {
        assert x in a[1..] ==> x in a && x != a[0];
        assert x in b[1..] ==> x in b && x != b[0];
      }
      RankingUnique(a[1..], b[1..]);
    }
  }

  // -------------------------------------------------------------- the pass

  function Labels(s: seq<Event>): seq<string>
  {
    if s == [] then [] else Labels(s[..|s| - 1]) + [Label(s[|s| - 1])]
  }

  function BlockedFor(reason: string): Event -> bool
  {
    (e: Event) => e.kind == GuardBlock && e.reason == reason
  }

  ghost predicate SessionAt(acc: map<string, Acc>, s: seq<Event>, sid: string)
  {
    && (sid in acc <==> Filter(s, Of(sid)) != [])
    && (sid in acc ==> acc[sid] == AccOf(sid, Filter(s, Of(sid))))
  }

  ghost predicate Sessions(acc: map<string, Acc>, order: seq<string>, s: seq<Event>)
  {
    && order == FirstSeen(Labels(s))
    && (forall sid :: sid in acc <==> sid in order)
    && forall sid :: SessionAt(acc, s, sid)
  }

  ghost predicate Reasons(blocks: map<string, nat>, s: seq<Event>)
  {
    forall r :: (r in blocks <==> Count(s, BlockedFor(r)) > 0) && (r in blocks ==> blocks[r] == Count(s, BlockedFor(r)))
  }

  lemma SessionsSnoc(acc: map<string, Acc>, order: seq<string>, s: seq<Event>, e: Event, a: Acc)
    requires Sessions(acc, order, s) && a == AccOf(Label(e), Filter(s, Of(Label(e))) + [e])
    ensures Sessions(acc[Label(e) := a], if Label(e) in acc then order else order + [Label(e)], s + [e])
  {
    var next, more := acc[Label(e) := a], s + [e];
    assert more[..|s|] == s;
    FirstSeenSnoc(Labels(s), Label(e));
    forall sid ensures SessionAt(next, more, sid) {
      assert SessionAt(acc, s, sid);
      FilterSnoc(s, e, Of(sid));
    }
  }

  lemma ReasonsSnoc(blocks: map<string, nat>, s: seq<Event>, e: Event)
    requires Reasons(blocks, s)
    ensures Reasons(if e.kind == GuardBlock
                    then blocks[e.reason := (if e.reason in blocks then blocks[e.reason] else 0) + 1]
                      else blocks, s + [e])
  {
    forall r { CountSnoc(s, e, BlockedFor(r)); }
  }

  lemma FlagNamesDiffer(f: Flag, g: Flag)
    ensures FlagName(f) == FlagName(g) ==> f == g
  {
    assert FlagName(f)[0] == FlagName(g)[0] ==> f == g;
  }

  method SortedFlags(flags: set<Flag>) returns (names: seq<string>)
    ensures names == SortedSet(FlagNames(flags))
  {
    var todo, walked: seq<string> := flags, [];
    while todo != {}
      invariant todo <= flags && Distinct(walked)
      invariant forall f :: f in flags - todo ==> FlagName(f) in walked
      invariant forall i :: 0 <= i < |walked| ==> exists f :: f in flags - todo && FlagName(f) == walked[i]
      decreases todo
    {
      var f :| f in todo;
      forall i | 0 <= i < |walked| ensures walked[i] != FlagName(f) {
        var g :| g in flags - todo && FlagName(g) == walked[i];
        FlagNamesDiffer(f, g);
      }
      forall g | g in flags - todo ensures g in flags - (todo - {f}) {}
      todo := todo - {f};
      walked := walked + [FlagName(f)];
    }
    names := SortStrings(walked);
    SortedDistinct(names, walked);
    assert Elements(walked) == FlagNames(flags);
  }

  method LineFor(a: Acc, ghost sid: string, ghost s: seq<Event>) returns (line: SessionLine)
    requires s != [] && a == AccOf(sid, s)
    ensures line == LineOf(sid, s)
  {
    var flags := a.flags;
    if a.report.maxRejectRun >= 2 { flags := flags + {AskedTwice}; }
    var names := SortedFlags(flags);
    line := SessionLine(a.report, names);
  }

  /** The line is the session's, from its own events alone. */
  ghost predicate LineIs(line: SessionLine, s: seq<Event>, sid: string)
  {
    Filter(s, Of(sid)) != [] && line == LineOf(sid, Filter(s, Of(sid)))
  }

  method Lines(acc: map<string, Acc>, order: seq<string>, ghost s: seq<Event>) returns (lines: seq<SessionLine>)
    requires Sessions(acc, order, s)
    ensures |lines| == |order|
    ensures forall i :: 0 <= i < |order| ==> LineIs(lines[i], s, order[i])
  {
    lines := [];
    for i := 0 to |order|
      invariant |lines| == i
      invariant forall k :: 0 <= k < i ==> LineIs(lines[k], s, order[k])
    {
      assert order[i] in order && SessionAt(acc, s, order[i]);
      var line := LineFor(acc[order[i]], order[i], Filter(s, Of(order[i])));
      assert LineIs(line, s, order[i]);
      lines := lines + [line];
    }
  }

  /** The report of the events in time order s. */
  ghost predicate IsReport(data: ReportData, s: seq<Event>)
  {
    && data.eventCount == |s|
    && |data.sessions| == |FirstSeen(Labels(s))|
    && (forall i :: 0 <= i < |data.sessions| ==> LineIs(data.sessions[i], s, FirstSeen(Labels(s))[i]))
    && Reasons(data.blocksByReason, s)
    && Ranked(data.topInvariants) && Lists(data.topInvariants, s)
    && data.substitutions == Count(s, IsKind(PlanSubstitution))
  }

  /** `aggregate`. */
  method Aggregate(events: seq<Event>) returns (data: ReportData)
    ensures IsReport(data, StableSort(events))
  {
    var sorted := StableSort(events);
    var acc: map<string, Acc>, order: seq<string> := map[], [];
    var blocks: map<string, nat>, invariants: map<string, PolicyCount> := map[], map[];
    var substitutions := 0;
    for i := 0 to |sorted|
      invariant Sessions(acc, order, sorted[..i])
      invariant Reasons(blocks, sorted[..i])
      invariant Tally(invariants, sorted[..i])
      invariant substitutions == Count(sorted[..i], IsKind(PlanSubstitution))
    {
      var e := sorted[i];
      ghost var before := sorted[..i];
      assert sorted[..i + 1] == before + [e];
      var sid := Label(e);
      assert SessionAt(acc, before, sid);
      ReasonsSnoc(blocks, before, e);
      CountSnoc(before, e, IsKind(PlanSubstitution));
      var s := if sid in acc then acc[sid] else NewAcc(sid, e.time);
      ghost var own := Filter(before, Of(sid));
      ObservedIsRecord(sid, own, e);
      OpenNotLonger(own);
      s := Observe(s, e);
      SessionsSnoc(acc, order, before, e, s);
      if sid !in acc { order := order + [sid]; }
      acc := acc[sid := s];
      if e.kind == GuardBlock {
        blocks := blocks[e.reason := (if e.reason in blocks then blocks[e.reason] else 0) + 1];
      }
      if e.kind == PlanSubstitution { substitutions := substitutions + 1; }
      if Carries(e.kind) {
        invariants := CountPolicies(invariants, e, before);
      } else {
        OtherEventTally(invariants, before, e);
      }
    }
    assert sorted[..|sorted|] == sorted;
    var lines := Lines(acc, order, sorted);
    var top := Rank(invariants, sorted);
    StableSortSorts(events);
    assert |multiset(sorted)| == |multiset(events)|;
    data := ReportData(|events|, lines, blocks, top, substitutions);
  }

  // ------------------------------------------------ what the report means

  /** A session's line is a function of that session's own events in time order,
    * wherever they stand in the journal. */
  lemma LineFromOwnEvents(events: seq<Event>, line: SessionLine, sid: string)
    requires LineIs(line, StableSort(events), sid)
    ensures var own := StableSort(Filter(events, Of(sid)));
            own != [] && line == LineOf(sid, own)
  {
    FilterSort(events, Of(sid));
  }

  lemma FlagShown(f: Flag, flags: set<Flag>)
    ensures FlagName(f) in FlagNames(flags) <==> f in flags
  {
    forall g | g in flags && FlagName(g) == FlagName(f) ensures g == f { FlagNamesDiffer(f, g); }
  }

  ghost predicate TwoRejectionsWithoutLock(s: seq<Event>)
  {
    exists i, j :: 0 <= i <= j <= |s| && NoLock(s, i, j) && Count(s[i..j], IsKind(PlanRejected)) >= 2
  }

  lemma TwoRejectionsIff(s: seq<Event>)
    ensures TwoRejectionsWithoutLock(s) <==> LongestRun(s) >= 2
  {
    LongestRunMeaning(s);
  }

  /** What each flag is documented to say about a session. */
  ghost predicate Meaning(f: Flag, s: seq<Event>)
  {
    match f
    case AskedTwice => TwoRejectionsWithoutLock(s)
    case Relocked => Count(s, IsKind(PlanLocked)) >= 2
    case Conflict => exists i :: 0 <= i < |s| && s[i].kind == PlanConflict
    case Substitution => exists i :: 0 <= i < |s| && s[i].kind == PlanSubstitution
    case BypassSuspected => exists i :: 0 <= i < |s| && Bypass(s[i])
    case UnverifiedWindow => exists i :: 0 <= i < |s| && Unverified(s[i])
  }

  lemma {:induction false} CountPositiveIff(s: seq<Event>, keep: Event -> bool)
    ensures Count(s, keep) >= 1 <==> exists i :: 0 <= i < |s| && keep(s[i])
  {
    if s != [] {
      var front := s[..|s| - 1];
      CountPositiveIff(front, keep);
      if i :| 0 <= i < |front| && keep(front[i]) { assert keep(s[i]); }
      if keep(s[|s| - 1]) { assert Count(s, keep) >= 1; }
      if i :| 0 <= i < |s| && keep(s[i]) {
        if i < |front| { assert keep(front[i]); }
      }
    }
  }

  /** A flag shows on a session's line exactly when it is true of the session. */
  lemma FlagShownIffTrue(sid: string, s: seq<Event>, f: Flag)
    requires s != []
    ensures FlagName(f) in LineOf(sid, s).flags <==> Meaning(f, s)
  {
    FlagShown(f, FinalFlags(AccOf(sid, s)));
    FlagTrueIff(sid, s, f);
  }

  lemma FlagTrueIff(sid: string, s: seq<Event>, f: Flag)
    requires s != []
    ensures f in FinalFlags(AccOf(sid, s)) <==> Meaning(f, s)
  {
    if f.AskedTwice? {
      TwoRejectionsIff(s);
    } else {
      EventFlagTrueIff(s, f);
    }
  }

  lemma EventFlagTrueIff(s: seq<Event>, f: Flag)
    requires f != AskedTwice
    ensures f in Flags(s) <==> Meaning(f, s)
  {
    match f {
      case Relocked =>
      case Conflict => CountPositiveIff(s, IsKind(PlanConflict));
      case Substitution => CountPositiveIff(s, IsKind(PlanSubstitution));
      case BypassSuspected => CountPositiveIff(s, Bypass);
      case UnverifiedWindow => CountPositiveIff(s, Unverified);
    }
  }

  function SumOver(keys: seq<string>, f: string -> nat): nat
  {
    if keys == [] then 0 else SumOver(keys[..|keys| - 1], f) + f(keys[|keys| - 1])
  }

  lemma {:induction false} SumBumped(keys: seq<string>, f: string -> nat, g: string -> nat, x: string)
    requires Distinct(keys) && forall k :: g(k) == f(k) + if k == x then 1 else 0
    ensures SumOver(keys, g) == SumOver(keys, f) + if x in keys then 1 else 0
  {
    if keys != [] {
      SumBumped(keys[..|keys| - 1], f, g, x);
      assert keys == keys[..|keys| - 1] + [keys[|keys| - 1]];
    }
  }

  lemma {:induction false} SumZero(keys: seq<string>, f: string -> nat)
    requires forall k :: f(k) == 0
    ensures SumOver(keys, f) == 0
  {
    if keys != [] { SumZero(keys[..|keys| - 1], f); }
  }

  function BlocksOf(s: seq<Event>): string -> nat
  {
    sid => Count(Filter(s, Of(sid)), IsKind(GuardBlock))
  }

  function BlocksFor(s: seq<Event>): string -> nat
  {
    reason => Count(s, BlockedFor(reason))
  }

  lemma {:induction false} SessionBlocksAddUp(s: seq<Event>, sids: seq<string>)
    requires Distinct(sids) && forall e :: e in s ==> Label(e) in sids
    ensures SumOver(sids, BlocksOf(s)) == Count(s, IsKind(GuardBlock))
  {
    if s == [] {
      SumZero(sids, BlocksOf(s));
    } else {
      var front, e := s[..|s| - 1], s[|s| - 1];
      assert s == front + [e];
      SessionBlocksAddUp(front, sids);
      BlocksOfSnoc(front, e);
      if e.kind == GuardBlock {
        SumBumped(sids, BlocksOf(front), BlocksOf(s), Label(e));
      } else {
        SumSame(sids, BlocksOf(front), BlocksOf(s));
      }
    }
  }

  lemma {:induction false} ReasonBlocksAddUp(s: seq<Event>, reasons: seq<string>)
    requires Distinct(reasons) && forall e :: e in s && e.kind == GuardBlock ==> e.reason in reasons
    ensures SumOver(reasons, BlocksFor(s)) == Count(s, IsKind(GuardBlock))
  {
    if s == [] {
      SumZero(reasons, BlocksFor(s));
    } else {
      var front, e := s[..|s| - 1], s[|s| - 1];
      assert s == front + [e];
      ReasonBlocksAddUp(front, reasons);
      BlocksOfSnoc(front, e);
      if e.kind == GuardBlock {
        SumBumped(reasons, BlocksFor(front), BlocksFor(s), e.reason);
      } else {
        SumSame(reasons, BlocksFor(front), BlocksFor(s));
      }
    }
  }

  lemma {:induction false} SumSame(keys: seq<string>, f: string -> nat, g: string -> nat)
    requires forall k :: g(k) == f(k)
    ensures SumOver(keys, g) == SumOver(keys, f)
  {
    if keys != [] { SumSame(keys[..|keys| - 1], f, g); }
  }

  lemma BlocksOfSnoc(s: seq<Event>, e: Event)
    ensures forall k :: BlocksOf(s + [e])(k) == BlocksOf(s)(k) + if e.kind == GuardBlock && k == Label(e) then 1 else 0
    ensures forall k :: BlocksFor(s + [e])(k) == BlocksFor(s)(k) + if e.kind == GuardBlock && k == e.reason then 1
            else 0
  {
    forall k ensures BlocksOf(s + [e])(k) == BlocksOf(s)(k) + if e.kind == GuardBlock && k == Label(e) then 1 else 0 {
      FilterSnoc(s, e, Of(k));
      CountSnoc(Filter(s, Of(k)), e, IsKind(GuardBlock));
    }
    forall k ensures BlocksFor(s + [e])(k) == BlocksFor(s)(k) + if e.kind == GuardBlock && k == e.reason then 1 else 0 {
      CountSnoc(s, e, BlockedFor(k));
    }
  }

  /** The report's own numbers: per-session blocks and per-reason totals agree. */
  lemma ReportBlocksAgree(data: ReportData, s: seq<Event>, reasons: seq<string>)
    requires IsReport(data, s)
    requires Distinct(reasons) && forall r :: r in reasons <==> r in data.blocksByReason
    ensures SumOver(FirstSeen(Labels(s)), BlocksOf(s)) == SumOver(reasons, BlocksFor(s)) == Count(s, IsKind(GuardBlock))
    ensures forall i :: 0 <= i < |data.sessions| ==>
                          data.sessions[i].report.blocks == BlocksOf(s)(FirstSeen(Labels(s))[i])
    ensures forall r :: r in reasons ==> data.blocksByReason[r] == BlocksFor(s)(r)
  {
    FirstSeenFacts(Labels(s));
    LabelsFacts(s);
    forall e | e in s && e.kind == GuardBlock ensures e.reason in reasons {
      Positive(s, e, BlockedFor(e.reason));
    }
    SessionBlocksAddUp(s, FirstSeen(Labels(s)));
    ReasonBlocksAddUp(s, reasons);
    forall i | 0 <= i < |data.sessions|
      ensures data.sessions[i].report.blocks == BlocksOf(s)(FirstSeen(Labels(s))[i])
    {
      assert LineIs(data.sessions[i], s, FirstSeen(Labels(s))[i]);
    }
  }

  lemma {:induction false} LabelsFacts(s: seq<Event>)
    ensures forall e :: e in s ==> Label(e) in Labels(s)
  {
    if s != [] {
      LabelsFacts(s[..|s| - 1]);
      assert s == s[..|s| - 1] + [s[|s| - 1]];
    }
  }

  lemma {:induction false} Positive(s: seq<Event>, e: Event, keep: Event -> bool)
    requires e in s && keep(e)
    ensures Count(s, keep) > 0
  {
    if s[|s| - 1] != e {
      assert s == s[..|s| - 1] + [s[|s| - 1]];
      Positive(s[..|s| - 1], e, keep);
    }
  }
}
