/** The report aggregation (cmd/ppg/report.go): one pass over the time-sorted
  * journal, proved equal to a specification per session, reason and policy. */
module Report {
  import opened Text

  datatype Kind =
    | IntentDeclared | PlanLocked | PlanRejected | PlanConflict | PlanSubstitution
    | GuardBlock | GuardAllow | ArtifactRejected | ChangesetOK | ChangesetRejected | VerifyRun
    | OtherEvent

  /** A journal event; attributes of the wrong type read as empty. */
  datatype Event = Event(time: int, kind: Kind, sid: string, policyIDs: seq<string>, reason: string, outcome: string)

  function KindName(kind: Kind): string
  {
    match kind
    case IntentDeclared => "ppg.intent.declared"
    case PlanLocked => "ppg.plan.locked"
    case PlanRejected => "ppg.plan.rejected"
    case PlanConflict => "ppg.plan.conflict"
    case PlanSubstitution => "ppg.plan.substitution"
    case GuardBlock => "ppg.guard.block"
    case GuardAllow => "ppg.guard.allow"
    case ArtifactRejected => "ppg.artifact.rejected"
    case ChangesetOK => "ppg.changeset.ok"
    case ChangesetRejected => "ppg.changeset.rejected"
    case VerifyRun => "ppg.verify.run"
    case OtherEvent => "other"
  }

  const NO_SESSION := "(no session)"
  const SESSION_MISMATCH := "session_mismatch"
  const TICKET_REJECTED := "ticket_rejected"
  const OUTCOME_ERROR := "error"

  function Label(e: Event): string
  {
    if e.sid == "" then NO_SESSION else e.sid
  }

  // ------------------------------------------------------ stable time sort

  function InsertByTime(s: seq<Event>, e: Event): seq<Event>
  {
    if s != [] && s[|s| - 1].time > e.time then InsertByTime(s[..|s| - 1], e) + [s[|s| - 1]]
    else s + [e]
  }

  /** `slices.SortStableFunc` by time. */
  function StableSort(s: seq<Event>): seq<Event>
  {
    if s == [] then [] else InsertByTime(StableSort(s[..|s| - 1]), s[|s| - 1])
  }

  function Filter(s: seq<Event>, keep: Event -> bool): seq<Event>
  {
    if s == [] then []
    else if keep(s[|s| - 1]) then Filter(s[..|s| - 1], keep) + [s[|s| - 1]]
    else Filter(s[..|s| - 1], keep)
  }

  ghost predicate TimeSorted(s: seq<Event>)
  {
    forall i, j :: 0 <= i < j < |s| ==> s[i].time <= s[j].time
  }

  lemma {:induction false} InsertPermutes(s: seq<Event>, e: Event)
    ensures multiset(InsertByTime(s, e)) == multiset(s) + multiset{e}
  {
    if s != [] && s[|s| - 1].time > e.time {
      InsertPermutes(s[..|s| - 1], e);
      assert s == s[..|s| - 1] + [s[|s| - 1]];
    }
  }

  lemma InsertMembers(s: seq<Event>, e: Event)
    ensures forall x :: x in InsertByTime(s, e) ==> x in s || x == e
  {
    InsertPermutes(s, e);
    assert multiset(s + [e]) == multiset(s) + multiset{e};
    MultisetMembers(InsertByTime(s, e), s + [e]);
  }

  lemma AppendLatest(s: seq<Event>, last: Event)
    requires TimeSorted(s) && forall x :: x in s ==> x.time <= last.time
    ensures TimeSorted(s + [last])
  {
    forall i | 0 <= i < |s| ensures s[i].time <= last.time { assert s[i] in s; }
  }

  lemma {:induction false} InsertSortedByTime(s: seq<Event>, e: Event)
    requires TimeSorted(s)
    ensures TimeSorted(InsertByTime(s, e))
  {
    if s != [] && s[|s| - 1].time > e.time {
      var front, last := s[..|s| - 1], s[|s| - 1];
      InsertSortedByTime(front, e);
      InsertMembers(front, e);
      AppendLatest(InsertByTime(front, e), last);
    }
  }

  lemma {:induction false} StableSortPermutes(s: seq<Event>)
    ensures multiset(StableSort(s)) == multiset(s)
  {
    if s != [] {
      StableSortPermutes(s[..|s| - 1]);
      InsertPermutes(StableSort(s[..|s| - 1]), s[|s| - 1]);
      assert s == s[..|s| - 1] + [s[|s| - 1]];
    }
  }

  lemma {:induction false} StableSortSorts(s: seq<Event>)
    ensures TimeSorted(StableSort(s))
    ensures multiset(StableSort(s)) == multiset(s)
  {
    StableSortPermutes(s);
    if s != [] {
      StableSortSorts(s[..|s| - 1]);
      InsertSortedByTime(StableSort(s[..|s| - 1]), s[|s| - 1]);
    }
  }

  lemma FilterSnoc(s: seq<Event>, e: Event, keep: Event -> bool)
    ensures Filter(s + [e], keep) == if keep(e) then Filter(s, keep) + [e] else Filter(s, keep)
  {
    assert (s + [e])[..|s|] == s;
  }

  lemma {:induction false} FilterKeeps(s: seq<Event>, keep: Event -> bool)
    ensures forall e :: e in Filter(s, keep) <==> e in s && keep(e)
    ensures TimeSorted(s) ==> TimeSorted(Filter(s, keep))
  {
    if s != [] {
      var front, last := s[..|s| - 1], s[|s| - 1];
      FilterKeeps(front, keep);
      assert s == front + [last];
      if TimeSorted(s) {
        var f := Filter(front, keep);
        forall i | 0 <= i < |f| ensures f[i].time <= last.time {
          assert f[i] in front;
        }
      }
    }
  }

  lemma InsertBeforeLast(s: seq<Event>, last: Event, e: Event)
    ensures last.time > e.time ==> InsertByTime(s + [last], e) == InsertByTime(s, e) + [last]
    ensures last.time <= e.time ==> InsertByTime(s + [last], e) == s + [last] + [e]
  {
    assert (s + [last])[..|s|] == s;
  }

  lemma {:induction false} FilterInsert(s: seq<Event>, e: Event, keep: Event -> bool)
    requires TimeSorted(s)
    ensures Filter(InsertByTime(s, e), keep) == if keep(e) then InsertByTime(Filter(s, keep), e) else Filter(s, keep)
  {
    if s != [] && s[|s| - 1].time > e.time {
      var front, last := s[..|s| - 1], s[|s| - 1];
      FilterInsert(front, e, keep);
      FilterSnoc(InsertByTime(front, e), last, keep);
      InsertBeforeLast(Filter(front, keep), last, e);
    } else {
      FilterSnoc(s, e, keep);
      LastNotLater(s, e, keep);
    }
  }

  lemma LastNotLater(s: seq<Event>, e: Event, keep: Event -> bool)
    requires TimeSorted(s) && (s == [] || s[|s| - 1].time <= e.time)
    ensures InsertByTime(Filter(s, keep), e) == Filter(s, keep) + [e]
  {
    FilterKeeps(s, keep);
    var f := Filter(s, keep);
    assert f != [] ==> f[|f| - 1] in s;
  }

  /** Stability, for any class of events: sorting never reorders events of a
    * class among themselves beyond sorting that class alone. */
  lemma {:induction false} FilterSort(s: seq<Event>, keep: Event -> bool)
    ensures Filter(StableSort(s), keep) == StableSort(Filter(s, keep))
  {
    if s != [] {
      var front, last := s[..|s| - 1], s[|s| - 1];
      FilterSort(front, keep);
      StableSortSorts(front);
      FilterInsert(StableSort(front), last, keep);
      SortSnoc(Filter(front, keep), last);
    }
  }

  lemma SortSnoc(s: seq<Event>, e: Event)
    ensures StableSort(s + [e]) == InsertByTime(StableSort(s), e)
  {
    assert (s + [e])[..|s|] == s;
  }

  function AtTime(time: int): Event -> bool
  {
    (e: Event) => e.time == time
  }

  lemma {:induction false} SameTimeUnchanged(s: seq<Event>, time: int)
    requires forall i :: 0 <= i < |s| ==> s[i].time == time
    ensures StableSort(s) == s
  {
    if s != [] {
      var front, last := s[..|s| - 1], s[|s| - 1];
      SameTimeUnchanged(front, time);
      InsertLast(front, last);
      assert s == front + [last];
    }
  }

  lemma InsertLast(s: seq<Event>, e: Event)
    requires s != [] ==> s[|s| - 1].time <= e.time
    ensures InsertByTime(s, e) == s + [e]
  {
  }

  /** Events of one time keep their journal order. */
  lemma SameTimeKeepsOrder(s: seq<Event>, time: int)
    ensures Filter(StableSort(s), AtTime(time)) == Filter(s, AtTime(time))
  {
    var same := Filter(s, AtTime(time));
    FilterSort(s, AtTime(time));
    FilterKeeps(s, AtTime(time));
    forall i | 0 <= i < |same| ensures same[i].time == time { assert same[i] in same; }
    SameTimeUnchanged(same, time);
  }

  /** The same events at every time, in the same order. */
  ghost predicate SameAtEachTime(r: seq<Event>, q: seq<Event>)
  {
    forall time :: Filter(r, AtTime(time)) == Filter(q, AtTime(time))
  }

  lemma LastTimeLargest(r: seq<Event>, q: seq<Event>)
    requires r != [] && TimeSorted(q) && SameAtEachTime(r, q)
    ensures q != [] && r[|r| - 1].time <= q[|q| - 1].time
  {
    var last := r[|r| - 1];
    FilterKeeps(r, AtTime(last.time));
    FilterKeeps(q, AtTime(last.time));
    assert last in Filter(r, AtTime(last.time));
    assert last in Filter(q, AtTime(last.time));
    var k :| 0 <= k < |q| && q[k] == last;
  }

  /** A time-sorted list is known by its events at each time. */
  lemma {:induction false} OneSortedList(r: seq<Event>, q: seq<Event>)
    requires TimeSorted(r) && TimeSorted(q) && SameAtEachTime(r, q)
    ensures r == q
    decreases |r|
  {
    if r == [] {
      if q != [] { LastTimeLargest(q, r); }
    } else {
      LastTimeLargest(r, q);
      LastTimeLargest(q, r);
      LastInCommon(r, q);
      OneSortedList(r[..|r| - 1], q[..|q| - 1]);
      assert r == r[..|r| - 1] + [r[|r| - 1]] && q == q[..|q| - 1] + [q[|q| - 1]];
    }
  }

  lemma FilterLast(r: seq<Event>, keep: Event -> bool)
    requires r != []
    ensures var f := Filter(r[..|r| - 1], keep);
            if keep(r[|r| - 1]) then
              Filter(r, keep) == f + [r[|r| - 1]] && Filter(r, keep)[..|f|] == f && Filter(r, keep)[|f|] == r[|r| - 1]
            else Filter(r, keep) == f
  {
  }

  /** Lists with the same events at each time, ending at the same time, end in the
    * same event and still agree without it. */
  lemma LastInCommon(r: seq<Event>, q: seq<Event>)
    requires r != [] && q != [] && r[|r| - 1].time == q[|q| - 1].time && SameAtEachTime(r, q)
    ensures r[|r| - 1] == q[|q| - 1] && SameAtEachTime(r[..|r| - 1], q[..|q| - 1])
  {
    var time := r[|r| - 1].time;
    FilterLast(r, AtTime(time));
    FilterLast(q, AtTime(time));
    assert Filter(r, AtTime(time)) == Filter(q, AtTime(time));
    forall t ensures Filter(r[..|r| - 1], AtTime(t)) == Filter(q[..|q| - 1], AtTime(t)) {
      FilterLast(r, AtTime(t));
      FilterLast(q, AtTime(t));
      assert Filter(r, AtTime(t)) == Filter(q, AtTime(t));
    }
  }

  /** What the sort is: the one list in time order that keeps the events of each
    * time in journal order. */
  lemma StableSortIs(s: seq<Event>, r: seq<Event>)
    ensures r == StableSort(s) <==> TimeSorted(r) && SameAtEachTime(r, s)
  {
    StableSortSorts(s);
    forall time ensures Filter(StableSort(s), AtTime(time)) == Filter(s, AtTime(time)) { SameTimeKeepsOrder(s, time); }
    if TimeSorted(r) && SameAtEachTime(r, s) {
      forall time ensures Filter(r, AtTime(time)) == Filter(StableSort(s), AtTime(time)) {
        assert Filter(r, AtTime(time)) == Filter(s, AtTime(time));
      }
      OneSortedList(r, StableSort(s));
    }
  }

  // ------------------------------------------------- session specification

  function Of(sid: string): Event -> bool
  {
    (e: Event) => Label(e) == sid
  }

  function Count(s: seq<Event>, keep: Event -> bool): nat
  {
    if s == [] then 0 else Count(s[..|s| - 1], keep) + if keep(s[|s| - 1]) then 1 else 0
  }

  function IsKind(kind: Kind): Event -> bool
  {
    (e: Event) => e.kind == kind
  }

  /** The rejections since the last lock. */
  function OpenRun(s: seq<Event>): nat
  {
    if s == [] then 0
    else match s[|s| - 1].kind
      case PlanLocked => 0
      case PlanRejected => OpenRun(s[..|s| - 1]) + 1
      case _ => OpenRun(s[..|s| - 1])
  }

  /** The longest run reached at any moment. */
  function LongestRun(s: seq<Event>): nat
  {
    if s == [] then 0
    else
      var before := LongestRun(s[..|s| - 1]);
      if OpenRun(s) > before then OpenRun(s) else before
  }

  ghost predicate NoLock(s: seq<Event>, i: nat, j: nat)
    requires i <= j <= |s|
  {
    forall k :: i <= k < j ==> s[k].kind != PlanLocked
  }

  lemma SuffixStep(s: seq<Event>, keep: Event -> bool, i: nat)
    requires i < |s|
    ensures var front, last := s[..|s| - 1], s[|s| - 1];
            && Count(s[i..], keep) == Count(front[i..], keep) + (if keep(last) then 1 else 0)
            && (NoLock(s, i, |s|) <==> NoLock(front, i, |front|) && last.kind != PlanLocked)
  {
    assert s[i..][..|s[i..]| - 1] == s[..|s| - 1][i..];
  }

  /** The open run is the largest number of rejections in a stretch without a
    * lock that reaches the end. */
  lemma {:induction false} OpenRunMeaning(s: seq<Event>)
    ensures exists i :: 0 <= i <= |s| && NoLock(s, i, |s|) && Count(s[i..], IsKind(PlanRejected)) == OpenRun(s)
    ensures forall i :: 0 <= i <= |s| && NoLock(s, i, |s|) ==> Count(s[i..], IsKind(PlanRejected)) <= OpenRun(s)
  {
    var keep := IsKind(PlanRejected);
    if s == [] {
      assert s[0..] == [] && NoLock(s, 0, 0);
    } else {
      var front, last := s[..|s| - 1], s[|s| - 1];
      OpenRunMeaning(front);
      forall i | 0 <= i < |s|
        ensures Count(s[i..], keep) == Count(front[i..], keep) + if keep(last) then 1 else 0
        ensures NoLock(s, i, |s|) <==> NoLock(front, i, |front|) && last.kind != PlanLocked
      {
        SuffixStep(s, keep, i);
      }
      assert s[|s|..] == [];
      if last.kind == PlanLocked {
        assert NoLock(s, |s|, |s|);
      } else {
        var i :| 0 <= i <= |front| && NoLock(front, i, |front|) && Count(front[i..], keep) == OpenRun(front);
        assert NoLock(s, i, |s|);
      }
    }
  }

  lemma {:induction false} NoRunLonger(s: seq<Event>, i: nat, j: nat)
    requires i <= j <= |s| && NoLock(s, i, j)
    ensures Count(s[i..j], IsKind(PlanRejected)) <= LongestRun(s)
  {
    if j < |s| {
      SliceOfFront(s, i, j);
      NoRunLonger(s[..|s| - 1], i, j);
    } else {
      assert s[i..j] == s[i..];
      OpenRunMeaning(s);
    }
  }

  lemma SliceOfFront(s: seq<Event>, i: nat, j: nat)
    requires i <= j < |s|
    ensures s[..|s| - 1][i..j] == s[i..j]
  {
    var front := s[..|s| - 1];
    assert |front[i..j]| == |s[i..j]| == j - i;
    assert forall k :: 0 <= k < j - i ==> front[i..j][k] == s[i + k] == s[i..j][k];
  }

  lemma {:induction false} SomeRunAsLong(s: seq<Event>) returns (i: nat, j: nat)
    ensures i <= j <= |s| && NoLock(s, i, j) && Count(s[i..j], IsKind(PlanRejected)) == LongestRun(s)
  {
    i, j := 0, 0;
    if s != [] {
      var front := s[..|s| - 1];
      if OpenRun(s) > LongestRun(front) {
        OpenRunMeaning(s);
        i :| i <= |s| && NoLock(s, i, |s|) && Count(s[i..], IsKind(PlanRejected)) == OpenRun(s);
        j := |s|;
        assert s[i..j] == s[i..];
      } else {
        i, j := SomeRunAsLong(front);
        SliceOfFront(s, i, j);
        assert NoLock(s, i, j);
      }
    }
  }

  /** The longest run is the largest number of rejections in any stretch of the
    * session without a lock. */
  lemma LongestRunMeaning(s: seq<Event>)
    ensures exists i, j ::
              0 <= i <= j <= |s| && NoLock(s, i, j) && Count(s[i..j], IsKind(PlanRejected)) == LongestRun(s)
    ensures forall i, j :: 0 <= i <= j <= |s| && NoLock(s, i, j) ==>
                             Count(s[i..j], IsKind(PlanRejected)) <= LongestRun(s)
  {
    var _, _ := SomeRunAsLong(s);
    forall i, j | 0 <= i <= j <= |s| && NoLock(s, i, j) ensures Count(s[i..j], IsKind(PlanRejected)) <= LongestRun(s) {
      NoRunLonger(s, i, j);
    }
  }

  predicate Bypass(e: Event)
  {
    e.kind == GuardBlock && (e.reason == SESSION_MISMATCH || e.reason == TICKET_REJECTED)
  }

  predicate Unverified(e: Event)
  {
    e.kind == VerifyRun && e.outcome == OUTCOME_ERROR
  }

  predicate Verifies(e: Event)
  {
    e.kind == ChangesetOK || e.kind == ChangesetRejected || e.kind == VerifyRun
  }

  datatype Flag = AskedTwice | BypassSuspected | Conflict | Relocked | Substitution | UnverifiedWindow

  function FlagName(flag: Flag): string
  {
    match flag
    case AskedTwice => "asked-twice"
    case BypassSuspected => "bypass?"
    case Conflict => "conflict"
    case Relocked => "re-locked"
    case Substitution => "substitution"
    case UnverifiedWindow => "unverified-window"
  }

  /** The flags raised while the events go by; "asked-twice" is added at the end. */
  function Flags(s: seq<Event>): set<Flag>
  {
    (if Count(s, IsKind(PlanConflict)) >= 1 then {Conflict} else {})
    + (if Count(s, IsKind(PlanLocked)) >= 2 then {Relocked} else {})
    + (if Count(s, IsKind(PlanSubstitution)) >= 1 then {Substitution} else {})
    + (if Count(s, Bypass) >= 1 then {BypassSuspected} else {})
    + (if Count(s, Unverified) >= 1 then {UnverifiedWindow} else {})
  }

  datatype SessionReport = SessionReport(
    sid: string, first: int, last: int, turns: nat, intents: nat, planRejected: nat, maxRejectRun: nat,
    conflicts: nat, blocks: nat, allows: nat, verifies: nat)

  /** The running record of one session. */
  datatype Acc = Acc(report: SessionReport, rejectRun: nat, flags: set<Flag>)

  /** The record of a session whose events are s, first and last seen then. */
  function AccFrom(sid: string, first: int, last: int, s: seq<Event>): Acc
  {
    Acc(SessionReport(sid, first, last,
          Count(s, IsKind(PlanLocked)), Count(s, IsKind(IntentDeclared)), Count(s, IsKind(PlanRejected)), LongestRun(s),
          Count(s, IsKind(PlanConflict)), Count(s, IsKind(GuardBlock)), Count(s, IsKind(GuardAllow)),
            Count(s, Verifies)),
        OpenRun(s), Flags(s))
  }

  /** What the record must be after the session's events s. */
  function AccOf(sid: string, s: seq<Event>): Acc
    requires s != []
  {
    AccFrom(sid, s[0].time, s[|s| - 1].time, s)
  }

  datatype SessionLine = SessionLine(report: SessionReport, flags: seq<string>)

  function FlagNames(flags: set<Flag>): set<string>
  {
    set f | f in flags :: FlagName(f)
  }

  function FinalFlags(a: Acc): set<Flag>
  {
    if a.report.maxRejectRun >= 2 then a.flags + {AskedTwice} else a.flags
  }

  /** One line of the report: a function of the session's own events. */
  ghost function LineOf(sid: string, s: seq<Event>): SessionLine
    requires s != []
  {
    SessionLine(AccOf(sid, s).report, SortedSet(FlagNames(FinalFlags(AccOf(sid, s)))))
  }
}
