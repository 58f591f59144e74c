/** Whole runs of the livelock detector (cmd/ppg/conflict.go): server memory
  * and state file driven by rejections, locks, restarts, the resolving command
  * line process and the reload-time sync. */
module ConflictHistory {
  import opened Text
  import opened Conflict

  datatype World = World(mem: State, disk: Option<State>)

  const START := World(EMPTY, None)

  datatype Event =
    | Reject(sid: string, policyIDs: seq<string>, ts: string)
    | Success(sid: string)
    | Restart
    | Resolve(id: string)
    | Sync

  type Hash = string -> string

  ghost predicate Injective(hash: Hash)
  {
    forall a, b :: hash(a) == hash(b) ==> a == b
  }

  function ID(hash: Hash, e: Event): string
    requires e.Reject?
  {
    hash(SetKey(e.policyIDs))
  }

  function Next(hash: Hash, w: World, e: Event): World
  {
    match e
    case Reject(sid, policyIDs, ts) =>
      var mem := Rejected(w.mem, ID(hash, e), sid, policyIDs, ts);
      World(mem, Some(mem))
    case Success(sid) =>
      if sid in w.mem.counts then
        var mem := w.mem.(counts := w.mem.counts - {sid});
        World(mem, Some(mem))
      else w
    case Restart => World(Loaded(w.disk), w.disk)
    case Resolve(id) => World(w.mem, ResolvedDisk(w.disk, id))
    case Sync =>
      var mem := w.mem.(escalated := Loaded(w.disk).escalated);
      World(mem, Some(mem))
  }

  function RunFrom(hash: Hash, w: World, h: seq<Event>): World
  {
    if h == [] then w else Next(hash, RunFrom(hash, w, h[..|h| - 1]), h[|h| - 1])
  }

  function Run(hash: Hash, h: seq<Event>): World
  {
    RunFrom(hash, START, h)
  }

  /** The server process and its state file: each operation of the detector
    * class is one step of the run. */
  class Server {
    const file: StateFile
    var detector: ConflictDetector

    ghost function Now(): World
      reads this, detector, file
    {
      World(detector.state, file.content)
    }

    ghost predicate Valid()
      reads this, detector
    {
      detector.file == file
    }

    constructor (conflictID: Hash)
      ensures Valid() && fresh(file) && fresh(detector)
      ensures detector.conflictID == conflictID && Now() == START
    {
      var f := new StateFile();
      file := f;
      detector := new ConflictDetector(f, conflictID);
    }

    method Step(e: Event) returns (answer: Option<Answer>)
      requires Valid()
      modifies this, detector, file
      ensures Valid() && (detector == old(detector) || fresh(detector))
      ensures detector.conflictID == old(detector.conflictID)
      ensures Now() == Next(detector.conflictID, old(Now()), e)
      ensures answer == AnswerTo(detector.conflictID, old(Now()), e)
    {
      answer := None;
      match e
      case Reject(sid, policyIDs, ts) =>
        var count, id, blocked := detector.ObserveRejection(sid, policyIDs, ts);
        answer := Some(Answer(count, id, blocked));
      case Success(sid) =>
        detector.ObserveSuccess(sid);
        assert sid !in old(detector.state).counts ==> old(detector.state).counts - {sid} == old(detector.state).counts;
      case Restart =>
        detector := new ConflictDetector(file, detector.conflictID);
      case Resolve(id) =>
        var _ := EscalationsResolve(file, detector.conflictID, id);
      case Sync =>
        detector.SyncFromDisk();
    }
  }

  function AnswerTo(hash: Hash, w: World, e: Event): Option<Answer>
  {
    if e.Reject? then Some(RejectionAnswer(w.mem, ID(hash, e), e.sid, e.policyIDs)) else None
  }

  /** The answers the agents see from a state on, in order. */
  function AnswersFrom(hash: Hash, w: World, h: seq<Event>): seq<Answer>
  {
    if h == [] then []
    else
      var front := h[..|h| - 1];
      var a := AnswerTo(hash, RunFrom(hash, w, front), h[|h| - 1]);
      AnswersFrom(hash, w, front) + if a.Some? then [a.value] else []
  }

  function Answers(hash: Hash, h: seq<Event>): seq<Answer>
  {
    AnswersFrom(hash, START, h)
  }

  // ------------------------------------------------------------- invariants

  /** Stored counters lie in 1..threshold-1, and no session keeps an empty map. */
  ghost predicate Tidy(counts: Counts)
  {
    && (forall sid :: sid in counts ==> counts[sid] != map[])
    && forall sid, key :: sid in counts && key in counts[sid] ==> 1 <= counts[sid][key] < THRESHOLD
  }

  /** The state file always holds the live counters, and no escalation the
    * server does not know. */
  ghost predicate InStep(w: World)
  {
    && Tidy(w.mem.counts)
    && Loaded(w.disk).counts == w.mem.counts
    && Loaded(w.disk).escalated.Keys <= w.mem.escalated.Keys
    && forall id :: id in Loaded(w.disk).escalated ==> Loaded(w.disk).escalated[id] == w.mem.escalated[id]
  }

  lemma NextInStep(hash: Hash, w: World, e: Event)
    requires InStep(w)
    ensures InStep(Next(hash, w, e))
  {
    match e
    case Reject(sid, policyIDs, ts) => RejectTidy(w.mem, ID(hash, e), sid, policyIDs, ts);
    case Success(sid) =>
    case Restart =>
    case Resolve(id) =>
    case Sync =>
  }

  lemma RejectTidy(s: State, id: string, sid: string, policyIDs: seq<string>, ts: string)
    requires Tidy(s.counts)
    ensures Tidy(Rejected(s, id, sid, policyIDs, ts).counts)
  {
    var key := SetKey(policyIDs);
    var perSet: map<string, nat> := if sid in s.counts then s.counts[sid] else map[];
    assert key in perSet[key := 1];
  }

  lemma {:induction false} RunInStep(hash: Hash, h: seq<Event>)
    ensures InStep(Run(hash, h))
  {
    if h != [] {
      RunInStep(hash, h[..|h| - 1]);
      NextInStep(hash, Run(hash, h[..|h| - 1]), h[|h| - 1]);
    }
  }

  lemma {:induction false} RunConcat(hash: Hash, w: World, g: seq<Event>, h: seq<Event>)
    ensures RunFrom(hash, w, g + h) == RunFrom(hash, RunFrom(hash, w, g), h)
  {
    if h == [] {
      assert g + h == g;
    } else {
      var front, all := h[..|h| - 1], g + h;
      RunConcat(hash, w, g, front);
      assert all[..|all| - 1] == g + front && all[|all| - 1] == h[|h| - 1];
    }
  }

  // --------------------------------------------- counters as history

  ghost predicate IsReject(e: Event, sid: string, key: string)
  {
    e.Reject? && e.sid == sid && SetKey(e.policyIDs) == key
  }

  ghost predicate EscalatedAfter(hash: Hash, h: seq<Event>, i: nat, key: string)
    requires i <= |h|
  {
    hash(key) in Run(hash, h[..i]).mem.escalated
  }

  /** Event i is a rejection of the set by the session, made while the set was
    * not escalated. */
  ghost predicate Counted(hash: Hash, h: seq<Event>, i: nat, sid: string, key: string)
  {
    i < |h| && IsReject(h[i], sid, key) && !EscalatedAfter(hash, h, i, key)
  }

  /** Event i is a lock by the session, or the session's own escalation of the set. */
  ghost predicate Clears(hash: Hash, h: seq<Event>, i: nat, sid: string, key: string)
  {
    i < |h| && (h[i] == Success(sid) || (Counted(hash, h, i, sid, key) && EscalatedAfter(hash, h, i + 1, key)))
  }

  /** Event i is a counted rejection with nothing since that clears it. */
  ghost predicate Stands(hash: Hash, h: seq<Event>, i: nat, sid: string, key: string)
  {
    Counted(hash, h, i, sid, key) && forall j: nat :: i <= j < |h| ==> !Clears(hash, h, j, sid, key)
  }

  /** The rejections that count today. */
  ghost function Standing(hash: Hash, h: seq<Event>, sid: string, key: string): set<nat>
  {
    set i: nat | i < |h| && Stands(hash, h, i, sid, key)
  }

  lemma PrefixFacts(hash: Hash, h: seq<Event>, i: nat, sid: string, key: string)
    requires h != []
    ensures i < |h| - 1 ==> (Counted(hash, h, i, sid, key) <==> Counted(hash, h[..|h| - 1], i, sid, key))
    ensures i < |h| - 1 ==> (Clears(hash, h, i, sid, key) <==> Clears(hash, h[..|h| - 1], i, sid, key))
  {
    var g := h[..|h| - 1];
    if i < |h| - 1 {
      assert h[..i] == g[..i];
      assert h[..i + 1] == g[..i + 1];
    }
  }

  /** The main law: at any moment of any run, the counter of (session, set) is
    * the number of rejections of the set by the session, made while the set was
    * not escalated, since the session's last lock or own escalation of it. */
  lemma {:induction false} CounterIsHistory(hash: Hash, h: seq<Event>, sid: string, key: string)
    ensures CountOf(Run(hash, h).mem.counts, sid, key) == |Standing(hash, h, sid, key)|
  {
    if h != [] {
      CounterIsHistory(hash, h[..|h| - 1], sid, key);
      StandingGrows(hash, h, sid, key);
      LastEventCount(hash, h, sid, key);
    }
  }

  lemma StandingGrows(hash: Hash, h: seq<Event>, sid: string, key: string)
    requires h != []
    ensures
      |Standing(hash, h, sid, key)| ==
        if Clears(hash, h, |h| - 1, sid, key) then 0
        else |Standing(hash, h[..|h| - 1], sid, key)| + if Counted(hash, h, |h| - 1, sid, key) then 1 else 0
  {
    var g, last := h[..|h| - 1], |h| - 1;
    var now, was := Standing(hash, h, sid, key), Standing(hash, g, sid, key);
    forall i: nat
      ensures i in now <==>
                && !Clears(hash, h, last, sid, key)
                && (i in was || (i == last && Counted(hash, h, last, sid, key)))
    {
      StandsGrows(hash, h, i, sid, key);
    }
    if Clears(hash, h, last, sid, key) {
      assert now == {};
    } else if Counted(hash, h, last, sid, key) {
      assert now == was + {last};
      OneMore(was, last);
    } else {
      assert now == was;
    }
  }

  lemma StandsGrows(hash: Hash, h: seq<Event>, i: nat, sid: string, key: string)
    requires h != []
    ensures Stands(hash, h, i, sid, key)
            <==> !Clears(hash, h, |h| - 1, sid, key)
                 && (Stands(hash, h[..|h| - 1], i, sid, key) || (i == |h| - 1 && Counted(hash, h, i, sid, key)))
  {
    var g := h[..|h| - 1];
    PrefixFacts(hash, h, i, sid, key);
    forall j: nat | j < |g| ensures Clears(hash, h, j, sid, key) <==> Clears(hash, g, j, sid, key) {
      PrefixFacts(hash, h, j, sid, key);
    }
  }

  lemma OneMore(a: set<nat>, x: nat)
    requires x !in a
    ensures |a + {x}| == |a| + 1
  {
  }

  lemma RejectedCount(s: State, id: string, sid: string, policyIDs: seq<string>, ts: string, sid': string, key': string)
    ensures CountOf(Rejected(s, id, sid, policyIDs, ts).counts, sid', key') ==
              if id in s.escalated || sid != sid' || SetKey(policyIDs) != key' then CountOf(s.counts, sid', key')
              else if CountOf(s.counts, sid', key') + 1 >= THRESHOLD then 0
              else CountOf(s.counts, sid', key') + 1
  {
    BumpedCount(s.counts, sid, SetKey(policyIDs), sid', key');
    DroppedCount(s.counts, sid, SetKey(policyIDs), sid', key');
  }

  lemma LastEventCount(hash: Hash, h: seq<Event>, sid: string, key: string)
    requires h != []
    ensures
      CountOf(Run(hash, h).mem.counts, sid, key) ==
        if Clears(hash, h, |h| - 1, sid, key) then 0
        else CountOf(Run(hash, h[..|h| - 1]).mem.counts, sid, key)
             + if Counted(hash, h, |h| - 1, sid, key) then 1 else 0
  {
    var last := |h| - 1;
    assert h[..last + 1] == h;
    RunInStep(hash, h[..last]);
    var e := h[last];
    if e.Reject? {
      RejectedCount(Run(hash, h[..last]).mem, ID(hash, e), e.sid, e.policyIDs, e.ts, sid, key);
    }
  }

  /** A set becomes escalated in a run exactly when the rejection just made
    * brings the counter of its session to the threshold. */
  lemma EscalatesAtThreshold(hash: Hash, h: seq<Event>, e: Event, key: string)
    requires Injective(hash) && hash(key) !in Run(hash, h).mem.escalated
    ensures hash(key) in Run(hash, h + [e]).mem.escalated
            <==> e.Reject? && SetKey(e.policyIDs) == key && |Standing(hash, h, e.sid, key)| + 1 == THRESHOLD
  {
    var w := Run(hash, h);
    RunInStep(hash, h);
    assert (h + [e])[..|h|] == h;
    if e.Reject? {
      CounterIsHistory(hash, h, e.sid, key);
    }
  }

  /** What the answer to a rejection says, after any history. It is blocked exactly
    * when the set is escalated now; the count of a set that was not escalated is
    * its standing rejections and this one, and the third blocks; the count of an
    * escalated one is the escalation's new total. */
  lemma AnswerMeaning(hash: Hash, h: seq<Event>, e: Event)
    requires e.Reject?
    ensures var key := SetKey(e.policyIDs); var id := hash(key);
            var was, now := Run(hash, h).mem.escalated, Run(hash, h + [e]).mem.escalated;
            var standing := |Standing(hash, h, e.sid, key)|;
            exists a :: Answers(hash, h + [e]) == Answers(hash, h) + [a]
                        && a.id == id && (a.blocked <==> id in now)
                        && (id !in was ==> a.count == standing + 1 && (a.blocked <==> standing + 1 == 3))
                        && (id in was ==> id in now && a.count == now[id].rejections == was[id].rejections + 1)
  {
    var w, key := Run(hash, h), SetKey(e.policyIDs);
    var a := AnswerTo(hash, w, e).value;
    OneMoreEvent(hash, h, e);
    CounterIsHistory(hash, h, e.sid, key);
    RunInStep(hash, h);
    assert THRESHOLD == 3;
    assert Answers(hash, h + [e]) == Answers(hash, h) + [a];
  }

  /** The record of a new escalation: the set, and the third rejection's time and
    * session. */
  lemma EscalationRecord(hash: Hash, h: seq<Event>, e: Event, id: string)
    requires e.Reject? && id !in Run(hash, h).mem.escalated && id in Run(hash, h + [e]).mem.escalated
    ensures id == hash(SetKey(e.policyIDs))
    ensures Run(hash, h + [e]).mem.escalated[id] == Escalation(e.policyIDs, e.ts, e.sid, 3)
  {
    OneMoreEvent(hash, h, e);
    RunInStep(hash, h);
  }

  // -------------------------------------------------- permanence

  /** Once a set is escalated and its escalation is on file, nothing but a
    * resolve of that very id removes it, and every later rejection of it, from
    * any session, is answered as blocked. */
  lemma {:induction false} EscalationPermanent(hash: Hash, w: World, h: seq<Event>, id: string)
    requires id in w.mem.escalated && id in Loaded(w.disk).escalated
    requires Resolve(id) !in h
    ensures id in RunFrom(hash, w, h).mem.escalated && id in Loaded(RunFrom(hash, w, h).disk).escalated
    ensures forall i :: 0 <= i < |h| && h[i].Reject? && ID(hash, h[i]) == id ==>
                        AnswerTo(hash, RunFrom(hash, w, h[..i]), h[i]).value.blocked
  {
    if h != [] {
      var g := h[..|h| - 1];
      EscalationPermanent(hash, w, g, id);
      assert h[|h| - 1] in h;
      forall i | 0 <= i < |h| && h[i].Reject? && ID(hash, h[i]) == id
        ensures AnswerTo(hash, RunFrom(hash, w, h[..i]), h[i]).value.blocked
      {
        if i < |g| { assert h[..i] == g[..i] && h[i] == g[i]; } else { assert h[..i] == g; }
      }
    }
  }

  function RejectionsOf(hash: Hash, h: seq<Event>, id: string): nat
  {
    if h == [] then 0
    else RejectionsOf(hash, h[..|h| - 1], id) + if h[|h| - 1].Reject? && ID(hash, h[|h| - 1]) == id then 1 else 0
  }

  /** An open escalation keeps its policies, its first session and time, and
    * counts every further rejection of its set, from any session and across
    * restarts and syncs. */
  lemma {:induction false} EscalationCounts(hash: Hash, w: World, h: seq<Event>, id: string)
    requires id in w.mem.escalated && id in Loaded(w.disk).escalated
    requires Loaded(w.disk).escalated[id] == w.mem.escalated[id]
    requires Resolve(id) !in h
    ensures var w', esc := RunFrom(hash, w, h), w.mem.escalated[id];
            && id in w'.mem.escalated && id in Loaded(w'.disk).escalated
            && w'.mem.escalated[id] == Loaded(w'.disk).escalated[id]
            && w'.mem.escalated[id] == esc.(rejections := esc.rejections + RejectionsOf(hash, h, id))
  {
    if h != [] {
      EscalationCounts(hash, w, h[..|h| - 1], id);
      assert h[|h| - 1] in h;
    }
  }

  // -------------------------------------------------- restarts

  function WithoutRestarts(h: seq<Event>): seq<Event>
  {
    if h == [] then []
    else WithoutRestarts(h[..|h| - 1]) + if h[|h| - 1].Restart? then [] else [h[|h| - 1]]
  }

  lemma WithoutRestartsSnoc(h: seq<Event>, last: Event)
    ensures WithoutRestarts(h + [last]) == if last.Restart? then WithoutRestarts(h) else WithoutRestarts(h) + [last]
  {
    assert (h + [last])[..|h|] == h;
  }

  /** Nothing but the restarts is left out. */
  lemma {:induction false} WithoutRestartsIs(h: seq<Event>, e: Event)
    ensures Times(WithoutRestarts(h), e) == if e.Restart? then 0 else Times(h, e)
  {
    if h != [] {
      var front, last := h[..|h| - 1], h[|h| - 1];
      assert h == front + [last];
      WithoutRestartsIs(front, e);
      WithoutRestartsSnoc(front, last);
      TimesSnoc(front, last, e);
      TimesSnoc(WithoutRestarts(front), last, e);
    }
  }

  /** Rebuilding the detector from its file changes nothing exactly when no
    * command-line resolution is waiting to be adopted. */
  lemma RestartIsSilentIff(hash: Hash, h: seq<Event>)
    ensures Run(hash, h + [Restart]) == Run(hash, h)
            <==> NothingPending(Run(hash, h))
  {
    RunInStep(hash, h);
    assert (h + [Restart])[..|h|] == h;
  }

  /** A restart that no later answer tells from its absence. */
  ghost predicate RestartUnnoticed(hash: Hash, w: World)
  {
    forall t :: AnswersFrom(hash, w, t) == AnswersFrom(hash, Next(hash, w, Restart), t)
  }

  /** In terms of what agents see: after any history, a restart changes no answer in
    * any continuation if and only if no resolution is pending. With one pending,
    * the next rejection of the resolved set tells. */
  lemma RestartUnnoticedIff(hash: Hash, h: seq<Event>)
    ensures NothingPending(Run(hash, h)) <==> RestartUnnoticed(hash, Run(hash, h))
  {
    var w := Run(hash, h);
    RunInStep(hash, h);
    if NothingPending(w) {
      RestartIsSilentIff(hash, h);
      assert (h + [Restart])[..|h|] == h;
    } else {
      RunFiled(hash, h);
      var id :| id in w.mem.escalated && id !in Loaded(w.disk).escalated;
      PendingShows(hash, w, id);
    }
  }

  /** Every escalation is filed under the id of its policy set, and has been
    * rejected often enough. */
  ghost predicate Filed(hash: Hash, s: State)
  {
    forall id :: id in s.escalated ==>
      id == hash(SetKey(s.escalated[id].policyIDs)) && s.escalated[id].rejections >= THRESHOLD
  }

  lemma {:induction false} RunFiled(hash: Hash, h: seq<Event>)
    ensures Filed(hash, Run(hash, h).mem)
  {
    if h != [] {
      RunFiled(hash, h[..|h| - 1]);
      RunInStep(hash, h[..|h| - 1]);
    }
  }

  lemma PendingShows(hash: Hash, w: World, id: string)
    requires InStep(w) && Filed(hash, w.mem) && id in w.mem.escalated && id !in Loaded(w.disk).escalated
    ensures !RestartUnnoticed(hash, w)
  {
    var e := Reject("s", w.mem.escalated[id].policyIDs, "t");
    OneAnswer(hash, w, e);
    OneAnswer(hash, Next(hash, w, Restart), e);
    assert AnswerTo(hash, w, e).value.count > THRESHOLD >= AnswerTo(hash, Next(hash, w, Restart), e).value.count;
  }

  lemma OneAnswer(hash: Hash, w: World, e: Event)
    requires e.Reject?
    ensures AnswersFrom(hash, w, [e]) == [AnswerTo(hash, w, e).value]
  {
    assert [e][..0] == [];
  }

  lemma {:induction false} NoPendingResolution(hash: Hash, h: seq<Event>)
    requires forall e :: e in h ==> !e.Resolve?
    ensures Loaded(Run(hash, h).disk) == Run(hash, h).mem
  {
    if h != [] {
      assert h[|h| - 1] in h;
      NoPendingResolution(hash, h[..|h| - 1]);
    }
  }

  ghost predicate NothingPending(w: World)
  {
    Loaded(w.disk).escalated.Keys == w.mem.escalated.Keys
  }

  /** Restart transparency: restarts anywhere in a run, as long as none meets a
    * resolution still waiting to be adopted, leave the state and all the answers
    * as they would have been without them. */
  lemma {:induction false} RestartsTransparent(hash: Hash, h: seq<Event>)
    requires forall i :: 0 <= i < |h| && h[i].Restart? ==> NothingPending(Run(hash, h[..i]))
    ensures Run(hash, WithoutRestarts(h)) == Run(hash, h)
    ensures Answers(hash, WithoutRestarts(h)) == Answers(hash, h)
  {
    if h != [] {
      var g, e := h[..|h| - 1], h[|h| - 1];
      forall i | 0 <= i < |g| && g[i].Restart? ensures NothingPending(Run(hash, g[..i])) {
        assert g[..i] == h[..i] && g[i] == h[i];
      }
      RestartsTransparent(hash, g);
      var f := WithoutRestarts(g);
      assert g + [e] == h;
      OneMoreEvent(hash, g, e);
      if e.Restart? {
        assert f + [] == f;
        RestartIsSilentIff(hash, g);
      } else {
        OneMoreEvent(hash, f, e);
      }
    }
  }

  lemma OneMoreEvent(hash: Hash, h: seq<Event>, e: Event)
    ensures Run(hash, h + [e]) == Next(hash, Run(hash, h), e)
    ensures var a := AnswerTo(hash, Run(hash, h), e);
            Answers(hash, h + [e]) == Answers(hash, h) + if a.Some? then [a.value] else []
  {
    assert (h + [e])[..|h|] == h;
  }

  /** In particular, in a run without command-line resolves. */
  lemma RestartsTransparentWithoutResolves(hash: Hash, h: seq<Event>)
    requires forall e :: e in h ==> !e.Resolve?
    ensures Run(hash, WithoutRestarts(h)) == Run(hash, h)
    ensures Answers(hash, WithoutRestarts(h)) == Answers(hash, h)
  {
    forall i | 0 <= i < |h| ensures NothingPending(Run(hash, h[..i])) { NoPendingResolution(hash, h[..i]); }
    RestartsTransparent(hash, h);
  }

  /** With a resolution waiting, a restart adopts it, and answers differ. */
  lemma RestartAdoptsPending(hash: Hash)
    ensures var r := Reject("s", ["p"], "t");
            var h := [r, r, r, Resolve(ID(hash, r))];
            && AnswerTo(hash, Run(hash, h), r).value.blocked
            && !AnswerTo(hash, Run(hash, h + [Restart]), r).value.blocked
            && !Settled(hash, Run(hash, h), SetKey(r.policyIDs))
  {
    var r := Reject("s", ["p"], "t");
    var h := [r, r, r, Resolve(ID(hash, r))];
    assert (h + [Restart])[..4] == h && h[..3] == [r, r, r] && [r, r, r][..2] == [r, r] && [r, r][..1] == [r]
      && [r][..0] == [];
    var key := SetKey(["p"]);
    var w1 := Next(hash, START, r);
    assert Run(hash, []) == START && [r][..|[r]| - 1] == [];
    assert Run(hash, [r]) == w1;
    RejectedCount(START.mem, ID(hash, r), "s", ["p"], "t", "s", key);
    var w2 := Next(hash, w1, r);
    assert Run(hash, [r, r]) == w2;
    RejectedCount(w1.mem, ID(hash, r), "s", ["p"], "t", "s", key);
    assert CountOf(w2.mem.counts, "s", key) == 2;
    assert ID(hash, r) in Run(hash, [r, r, r]).mem.escalated;
  }

  // -------------------------------------------------- other sets

  /** The history as one set sees it: rejections of other sets left out. */
  function OnlySet(h: seq<Event>, key: string): seq<Event>
  {
    if h == [] then []
    else
      var e := h[|h| - 1];
      OnlySet(h[..|h| - 1], key) + if e.Reject? && SetKey(e.policyIDs) != key then [] else [e]
  }

  lemma OnlySetSnoc(h: seq<Event>, key: string, last: Event)
    ensures var other := last.Reject? && SetKey(last.policyIDs) != key;
            OnlySet(h + [last], key) == if other then OnlySet(h, key) else OnlySet(h, key) + [last]
  {
    assert (h + [last])[..|h|] == h;
  }

  /** Nothing but rejections of other sets is left out. */
  lemma {:induction false} OnlySetIs(h: seq<Event>, key: string, e: Event)
    ensures Times(OnlySet(h, key), e) == if e.Reject? && SetKey(e.policyIDs) != key then 0 else Times(h, e)
  {
    if h != [] {
      var front, last := h[..|h| - 1], h[|h| - 1];
      assert h == front + [last];
      OnlySetIs(front, key, e);
      OnlySetSnoc(front, key, last);
      TimesSnoc(front, last, e);
      TimesSnoc(OnlySet(front, key), last, e);
    }
  }

  ghost predicate AgreeOn(hash: Hash, a: State, b: State, key: string)
  {
    && (forall sid :: CountOf(a.counts, sid, key) == CountOf(b.counts, sid, key))
    && (hash(key) in a.escalated <==> hash(key) in b.escalated)
    && (hash(key) in a.escalated ==> a.escalated[hash(key)] == b.escalated[hash(key)])
  }

  /** No resolution of this set waits in the file. */
  ghost predicate Settled(hash: Hash, w: World, key: string)
  {
    hash(key) in w.mem.escalated ==> hash(key) in Loaded(w.disk).escalated
  }

  lemma SettledKept(hash: Hash, w: World, e: Event, key: string)
    requires InStep(w) && Settled(hash, w, key) && e != Resolve(hash(key))
    ensures Settled(hash, Next(hash, w, e), key)
  {
  }

  /** From any state without a pending resolution of a set, rejections of other
    * sets, however interleaved with locks, restarts, syncs and resolves of other
    * sets, change neither its counters nor its escalation. */
  lemma {:induction false} OtherSetsFrom(hash: Hash, w: World, h: seq<Event>, key: string)
    requires Injective(hash) && InStep(w) && Settled(hash, w, key) && Resolve(hash(key)) !in h
    ensures var a, b := RunFrom(hash, w, h), RunFrom(hash, w, OnlySet(h, key));
            && AgreeOn(hash, a.mem, b.mem, key)
            && InStep(a) && InStep(b) && Settled(hash, a, key) && Settled(hash, b, key)
    ensures Resolve(hash(key)) !in OnlySet(h, key)
  {
    if h != [] {
      var g, e := h[..|h| - 1], h[|h| - 1];
      assert e in h;
      OtherSetsFrom(hash, w, g, key);
      var f := OnlySet(g, key);
      assert (f + [e])[..|f|] == f && f + [] == f;
      var a, b := RunFrom(hash, w, g), RunFrom(hash, w, f);
      NextInStep(hash, a, e);
      NextInStep(hash, b, e);
      SettledKept(hash, a, e, key);
      SettledKept(hash, b, e, key);
      OtherSetsStep(hash, a, b, e, key);
    }
  }

  lemma OtherSetsStep(hash: Hash, a: World, b: World, e: Event, key: string)
    requires Injective(hash) && InStep(a) && InStep(b) && Settled(hash, a, key) && Settled(hash, b, key)
    requires AgreeOn(hash, a.mem, b.mem, key)
    ensures var other := e.Reject? && SetKey(e.policyIDs) != key;
            AgreeOn(hash, Next(hash, a, e).mem, if other then b.mem else Next(hash, b, e).mem, key)
  {
    if e.Reject? && SetKey(e.policyIDs) != key {
      RejectOther(hash, a.mem, e, key);
    } else if e.Reject? {
      RejectSame(hash, a.mem, b.mem, e, key);
    } else if e.Success? {
      SuccessSame(hash, a.mem, b.mem, e.sid, key);
    }
  }

  /** Over whole histories: only a resolve of the set's own id is excluded. */
  lemma OtherSetsDoNotMatter(hash: Hash, h: seq<Event>, key: string)
    requires Injective(hash) && Resolve(hash(key)) !in h
    ensures AgreeOn(hash, Run(hash, h).mem, Run(hash, OnlySet(h, key)).mem, key)
  {
    OtherSetsFrom(hash, START, h, key);
  }

  /** Exactly then: after any history, rejections of other sets make no difference
    * to a set in any continuation without a resolve of it, if and only if no
    * resolution of it is pending. With one pending, a rejection of another set
    * writes the escalation back to the file and the next sync keeps it. */
  lemma OtherSetsDoNotMatterIff(hash: Hash, h: seq<Event>, key: string)
    requires Injective(hash)
    ensures Settled(hash, Run(hash, h), key) <==> OtherSetsIrrelevant(hash, Run(hash, h), key)
  {
    var w := Run(hash, h);
    RunInStep(hash, h);
    if Settled(hash, w, key) {
      forall t | Resolve(hash(key)) !in t
        ensures AgreeOn(hash, RunFrom(hash, w, t).mem, RunFrom(hash, w, OnlySet(t, key)).mem, key)
      {
        OtherSetsFrom(hash, w, t, key);
      }
    } else {
      OtherSetWritesBack(hash, w, key);
    }
  }

  ghost predicate OtherSetsIrrelevant(hash: Hash, w: World, key: string)
  {
    forall t :: Resolve(hash(key)) !in t ==>
      AgreeOn(hash, RunFrom(hash, w, t).mem, RunFrom(hash, w, OnlySet(t, key)).mem, key)
  }

  lemma OtherSetWritesBack(hash: Hash, w: World, key: string)
    requires Injective(hash) && InStep(w) && !Settled(hash, w, key)
    ensures !OtherSetsIrrelevant(hash, w, key)
  {
    var other := key + "x";
    var e := Reject("s", [other], "t");
    assert |other| == |key| + 1;
    assert SetKey(e.policyIDs) == other;
    RunTwo(hash, w, e, Sync);
    OnlyTheSync(e, key);
    WrittenBack(hash, w, e, key);
    var t := [e, Sync];
    assert Resolve(hash(key)) !in t;
    var a, b := RunFrom(hash, w, t).mem, RunFrom(hash, w, OnlySet(t, key)).mem;
    assert hash(key) in a.escalated && hash(key) !in b.escalated;
    assert !AgreeOn(hash, a, b, key);
  }

  lemma RunTwo(hash: Hash, w: World, e: Event, f: Event)
    ensures RunFrom(hash, w, [e, f]) == Next(hash, Next(hash, w, e), f)
    ensures RunFrom(hash, w, [f]) == Next(hash, w, f)
  {
    assert [e, f][..1] == [e] && [e][..0] == [] && [f][..0] == [];
    assert RunFrom(hash, w, [e]) == Next(hash, w, e);
  }

  lemma OnlyTheSync(e: Event, key: string)
    requires e.Reject? && SetKey(e.policyIDs) != key
    ensures OnlySet([e, Sync], key) == [Sync]
  {
    assert [e, Sync][..1] == [e] && [e][..0] == [];
    assert OnlySet([e], key) == [];
  }

  /** With a resolution pending, the rejection keeps it from being adopted. */
  lemma WrittenBack(hash: Hash, w: World, e: Event, key: string)
    requires Injective(hash) && !Settled(hash, w, key) && e.Reject? && SetKey(e.policyIDs) != key
    ensures hash(key) in Next(hash, Next(hash, w, e), Sync).mem.escalated
    ensures hash(key) !in Next(hash, w, Sync).mem.escalated
  {
  }

  lemma RejectOther(hash: Hash, a: State, e: Event, key: string)
    requires Injective(hash) && e.Reject? && SetKey(e.policyIDs) != key
    ensures AgreeOn(hash, Rejected(a, ID(hash, e), e.sid, e.policyIDs, e.ts), a, key)
  {
    assert hash(key) != ID(hash, e);
    forall sid { RejectedCount(a, ID(hash, e), e.sid, e.policyIDs, e.ts, sid, key); }
  }

  lemma SuccessSame(hash: Hash, a: State, b: State, sid: string, key: string)
    requires AgreeOn(hash, a, b, key)
    ensures AgreeOn(hash, if sid in a.counts then a.(counts := a.counts - {sid}) else a,
                          if sid in b.counts then b.(counts := b.counts - {sid}) else b, key)
  {
    forall s ensures CountOf(a.counts - {sid}, s, key) == CountOf(b.counts - {sid}, s, key) {
      assert CountOf(a.counts, s, key) == CountOf(b.counts, s, key);
    }
    forall s ensures CountOf(a.counts - {sid}, s, key) == if s == sid then 0 else CountOf(a.counts, s, key) {}
    assert CountOf(a.counts, sid, key) == CountOf(b.counts, sid, key);
  }

  lemma RejectSame(hash: Hash, a: State, b: State, e: Event, key: string)
    requires e.Reject? && SetKey(e.policyIDs) == key && AgreeOn(hash, a, b, key)
    ensures AgreeOn(hash, Rejected(a, ID(hash, e), e.sid, e.policyIDs, e.ts),
            Rejected(b, ID(hash, e), e.sid, e.policyIDs, e.ts), key)
  {
    assert CountOf(a.counts, e.sid, key) == CountOf(b.counts, e.sid, key);
    forall sid
      ensures CountOf(Rejected(a, ID(hash, e), e.sid, e.policyIDs, e.ts).counts, sid, key)
              == CountOf(Rejected(b, ID(hash, e), e.sid, e.policyIDs, e.ts).counts, sid, key)
    {
      assert CountOf(a.counts, sid, key) == CountOf(b.counts, sid, key);
      RejectedCount(a, ID(hash, e), e.sid, e.policyIDs, e.ts, sid, key);
      RejectedCount(b, ID(hash, e), e.sid, e.policyIDs, e.ts, sid, key);
    }
  }

  // -------------------------------------------------- two-process resolution

  /** A server event that rewrites the state file. */
  ghost predicate Mutates(w: World, e: Event)
  {
    e.Reject? || (e.Success? && e.sid in w.mem.counts)
  }

  ghost predicate ServerOnly(h: seq<Event>)
  {
    forall e :: e in h ==> e.Reject? || e.Success?
  }

  /** When no server mutation lands between the command-line resolve and the
    * sync, the sync removes exactly that escalation, keeps every live counter,
    * and leaves memory and file equal again. */
  lemma {:induction false} ResolutionAdopted(hash: Hash, w: World, id: string, between: seq<Event>)
    requires InStep(w) && Loaded(w.disk) == w.mem && id in w.mem.escalated
    requires ServerOnly(between)
    requires forall e :: e in between ==> !Mutates(w, e)
    ensures var w' := RunFrom(hash, w, [Resolve(id)] + between + [Sync]);
            && w'.mem == State(w.mem.counts, w.mem.escalated - {id})
            && w'.disk == Some(w'.mem)
  {
    var resolved := Next(hash, w, Resolve(id));
    QuietEvents(hash, resolved, between);
    RunConcat(hash, w, [Resolve(id)], between);
    RunConcat(hash, w, [Resolve(id)] + between, [Sync]);
    assert RunFrom(hash, w, [Resolve(id)]) == resolved by { assert [Resolve(id)][..0] == []; }
    assert [Sync][..0] == [];
  }

  lemma {:induction false} QuietEvents(hash: Hash, w: World, h: seq<Event>)
    requires ServerOnly(h) && forall e :: e in h ==> !Mutates(w, e)
    ensures RunFrom(hash, w, h) == w
  {
    if h != [] {
      assert h[|h| - 1] in h;
      QuietEvents(hash, w, h[..|h| - 1]);
    }
  }

  /** Exactly then: a resolution survives to the sync if and only if none of the
    * server events before it rewrites the state file. */
  lemma {:induction false} ResolutionSticksIff(hash: Hash, w: World, id: string, between: seq<Event>)
    requires InStep(w) && Loaded(w.disk) == w.mem && id in w.mem.escalated
    requires ServerOnly(between)
    ensures id !in RunFrom(hash, w, [Resolve(id)] + between + [Sync]).mem.escalated
            <==> forall e :: e in between ==> !Mutates(w, e)
  {
    var resolved := Next(hash, w, Resolve(id));
    RunConcat(hash, w, [Resolve(id)], between);
    RunConcat(hash, w, [Resolve(id)] + between, [Sync]);
    assert RunFrom(hash, w, [Resolve(id)]) == resolved by { assert [Resolve(id)][..0] == []; }
    assert [Sync][..0] == [];
    if forall e :: e in between ==> !Mutates(w, e) {
      QuietEvents(hash, resolved, between);
    } else {
      MutationRestores(hash, resolved, between, id);
    }
  }

  /** The server's memory still holds the escalation, so the first mutation
    * writes it back. */
  lemma {:induction false} MutationRestores(hash: Hash, w: World, h: seq<Event>, id: string)
    requires ServerOnly(h) && id in w.mem.escalated
    ensures id in RunFrom(hash, w, h).mem.escalated
    ensures (exists e :: e in h && Mutates(w, e)) ==> id in Loaded(RunFrom(hash, w, h).disk).escalated
    ensures (forall e :: e in h ==> !Mutates(w, e)) ==> RunFrom(hash, w, h) == w
  {
    if h != [] {
      var g := h[..|h| - 1];
      assert h[|h| - 1] in h;
      assert forall e :: e in h <==> e in g || e == h[|h| - 1];
      MutationRestores(hash, w, g, id);
    }
  }

  /** The counters other sessions had built up for a set outlive both its
    * escalation by one session and its resolution. */
  lemma OtherCountersSurvive(hash: Hash, w: World, e: Event, sid: string)
    requires InStep(w) && Loaded(w.disk) == w.mem
    requires e.Reject? && sid != e.sid
    requires ID(hash, e) !in w.mem.escalated && CountOf(w.mem.counts, e.sid, SetKey(e.policyIDs)) == THRESHOLD - 1
    ensures var key := SetKey(e.policyIDs);
            var w' := RunFrom(hash, w, [e, Resolve(ID(hash, e)), Sync]);
            && ID(hash, e) !in w'.mem.escalated
            && CountOf(w'.mem.counts, sid, key) == CountOf(w.mem.counts, sid, key)
            && CountOf(w'.mem.counts, e.sid, key) == 0
  {
    var h := [e, Resolve(ID(hash, e)), Sync];
    assert h[..2] == [e, Resolve(ID(hash, e))] && h[..2][..1] == [e] && h[..2][..1][..0] == [];
    var w1 := Next(hash, w, e);
    assert RunFrom(hash, w, [e]) == w1;
    NextInStep(hash, w, e);
    assert RunFrom(hash, w, h[..2]) == Next(hash, w1, Resolve(ID(hash, e)));
  }
}
