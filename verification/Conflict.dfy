/** The livelock detector (cmd/ppg/conflict.go): per-session rejection counters
  * and the global escalated set, in memory and in the state file. */
module Conflict {
  import opened Text

  datatype Escalation = Escalation(policyIDs: seq<string>, firstTS: string, sessionID: string, rejections: nat)

  type Counts = map<string, map<string, nat>>

  datatype State = State(counts: Counts, escalated: map<string, Escalation>)

  const EMPTY := State(map[], map[])

  /** `conflictThreshold`. */
  const THRESHOLD: nat := 3

  datatype Answer = Answer(count: nat, id: string, blocked: bool)

  /** The canonical set key: the policy ids joined with NUL. */
  function SetKey(policyIDs: seq<string>): string
  {
    Join(policyIDs, [NUL])
  }

  const NUL: char := '\U{0}'

  /** Reading an absent counter gives zero. */
  function CountOf(counts: Counts, sid: string, key: string): nat
  {
    if sid in counts && key in counts[sid] then counts[sid][key] else 0
  }

  /** The counters after adding one to (sid, key). */
  function Bumped(counts: Counts, sid: string, key: string): Counts
  {
    var perSet := if sid in counts then counts[sid] else map[];
    counts[sid := perSet[key := CountOf(counts, sid, key) + 1]]
  }

  /** The counters without (sid, key); a session left with none disappears. */
  function Dropped(counts: Counts, sid: string, key: string): Counts
  {
    if sid !in counts then counts
    else
      var perSet := counts[sid] - {key};
      if perSet == map[] then counts - {sid} else counts[sid := perSet]
  }

  lemma BumpedCount(counts: Counts, sid: string, key: string, sid': string, key': string)
    ensures CountOf(Bumped(counts, sid, key), sid', key')
            == CountOf(counts, sid', key') + if sid == sid' && key == key' then 1 else 0
  {
  }

  lemma DroppedCount(counts: Counts, sid: string, key: string, sid': string, key': string)
    ensures CountOf(Dropped(counts, sid, key), sid', key')
            == if sid == sid' && key == key' then 0 else CountOf(counts, sid', key')
  {
    if sid in counts && sid' == sid {
      var perSet := counts[sid] - {key};
      assert key' in perSet <==> key' in counts[sid] && key' != key;
    }
  }

  /** The state after `observeRejection` of the set, whose conflict id is id. */
  function Rejected(s: State, id: string, sid: string, policyIDs: seq<string>, ts: string): State
  {
    var key := SetKey(policyIDs);
    if id in s.escalated then
      s.(escalated := s.escalated[id := s.escalated[id].(rejections := s.escalated[id].rejections + 1)])
    else if CountOf(s.counts, sid, key) + 1 >= THRESHOLD then
      State(Dropped(s.counts, sid, key),
            s.escalated[id := Escalation(policyIDs, ts, sid, CountOf(s.counts, sid, key) + 1)])
    else
      s.(counts := Bumped(s.counts, sid, key))
  }

  function RejectionAnswer(s: State, id: string, sid: string, policyIDs: seq<string>): Answer
  {
    if id in s.escalated then Answer(s.escalated[id].rejections + 1, id, true)
    else
      var count := CountOf(s.counts, sid, SetKey(policyIDs)) + 1;
      Answer(count, id, count >= THRESHOLD)
  }

  /** What `newConflictDetector` reads from the state file. */
  function Loaded(disk: Option<State>): State
  {
    if disk.Some? then disk.value else EMPTY
  }

  /** The state file, rewritten whole by atomic rename. */
  class StateFile {
    var content: Option<State>

    constructor ()
      ensures content == None
    {
      content := None;
    }
  }

  class ConflictDetector {
    const file: StateFile?
    const conflictID: string -> string
    var state: State

    /** `newConflictDetector`: starts from the persisted state, if any. */
    constructor (file: StateFile?, conflictID: string -> string)
      ensures this.file == file && this.conflictID == conflictID
      ensures state == if file == null then EMPTY else Loaded(file.content)
    {
      this.file := file;
      this.conflictID := conflictID;
      state := if file == null || file.content.None? then EMPTY else file.content.value;
    }

    /** `persistLocked`. */
    method Persist()
      modifies file
      ensures file != null ==> file.content == Some(state)
    {
      if file != null { file.content := Some(state); }
    }

    method ObserveRejection(sid: string, policyIDs: seq<string>, ts: string)
      returns (count: nat, id: string, blocked: bool)
      modifies `state, file
      ensures id == conflictID(SetKey(policyIDs))
      ensures state == Rejected(old(state), id, sid, policyIDs, ts)
      ensures Answer(count, id, blocked) == RejectionAnswer(old(state), id, sid, policyIDs)
      ensures blocked <==> id in state.escalated
      ensures count == if id in old(state).escalated then old(state).escalated[id].rejections + 1
              else CountOf(old(state).counts, sid, SetKey(policyIDs)) + 1
      ensures file != null ==> file.content == Some(state)
    {
      var key := SetKey(policyIDs);
      id := conflictID(key);
      if id in state.escalated {
        var esc := state.escalated[id];
        esc := esc.(rejections := esc.rejections + 1);
        state := state.(escalated := state.escalated[id := esc]);
        Persist();
        return esc.rejections, id, true;
      }
      var counts := state.counts;
      if sid !in counts { counts := counts[sid := map[]]; }
      var perSet := counts[sid];
      perSet := perSet[key := (if key in perSet then perSet[key] else 0) + 1];
      count := perSet[key];
      if count >= THRESHOLD {
        ghost var had := if sid in state.counts then state.counts[sid] else map[];
        perSet := perSet - {key};
        assert perSet == had - {key};
        if perSet == map[] {
          counts := counts - {sid};
        } else {
          counts := counts[sid := perSet];
        }
        assert counts == Dropped(state.counts, sid, key);
        state := State(counts, state.escalated[id := Escalation(policyIDs, ts, sid, count)]);
        Persist();
        return count, id, true;
      }
      state := state.(counts := counts[sid := perSet]);
      Persist();
      return count, id, false;
    }

    method ObserveSuccess(sid: string)
      modifies `state, file
      ensures state == old(state).(counts := old(state).counts - {sid})
      ensures file != null ==> file.content == if sid in old(state).counts then Some(state) else old(file.content)
    {
      if sid !in state.counts { return; }
      state := state.(counts := state.counts - {sid});
      Persist();
    }

    /** `syncFromDisk`: adopts the persisted escalations, keeps the live counters. */
    method SyncFromDisk()
      modifies `state, file
      ensures file == null ==> state == old(state)
      ensures file != null ==> state == old(state).(escalated := Loaded(old(file.content)).escalated)
      ensures file != null ==> file.content == Some(state)
    {
      if file == null { return; }
      if file.content.None? {
        state := state.(escalated := map[]);
      } else {
        state := state.(escalated := file.content.value.escalated);
      }
      Persist();
    }

    method Resolve(id: string) returns (esc: Option<Escalation>)
      modifies `state, file
      ensures esc == if id in old(state).escalated then Some(old(state).escalated[id]) else None
      ensures state == old(state).(escalated := old(state).escalated - {id})
      ensures file != null ==> file.content == if esc.Some? then Some(state) else old(file.content)
    {
      if id !in state.escalated { return None; }
      esc := Some(state.escalated[id]);
      state := state.(escalated := state.escalated - {id});
      Persist();
    }
  }

  /** `ppg escalations resolve`: another process loads the state file, resolves
    * and persists; the running server's memory is not touched. */
  method EscalationsResolve(file: StateFile, conflictID: string -> string, id: string) returns (ok: bool)
    modifies file
    ensures ok <==> id in Loaded(old(file.content)).escalated
    ensures file.content == ResolvedDisk(old(file.content), id)
    ensures !ok ==> file.content == old(file.content)
  {
    var cli := new ConflictDetector(file, conflictID);
    var esc := cli.Resolve(id);
    ok := esc.Some?;
  }

  function ResolvedDisk(disk: Option<State>, id: string): Option<State>
  {
    if id in Loaded(disk).escalated
    then Some(Loaded(disk).(escalated := Loaded(disk).escalated - {id}))
    else disk
  }

  // ------------------------------------------------- canonical violation sets

  ghost predicate NoNUL(ids: seq<string>)
  {
    forall s :: s in ids ==> '\U{0}' !in s
  }

  /** `slices.Compact` after `slices.Sort`, collecting from the violations in
    * order: the canonical identity of a violation list. */
  method ViolationPolicyIDs(violations: seq<string>) returns (ids: seq<string>)
    ensures ids == SortedSet(Elements(violations))
  {
    var all: seq<string> := [];
    for i := 0 to |violations|
      invariant all == violations[..i]
    {
      all := all + [violations[i]];
    }
    var sorted := SortStrings(all);
    assert all == violations;
    MultisetMembers(sorted, violations);
    ids := [];
    for i := 0 to |sorted|
      invariant StrictlySorted(ids)
      invariant forall x :: x in ids <==> x in sorted[..i]
      invariant i == 0 ==> ids == []
      invariant i > 0 ==> ids != [] && ids[|ids| - 1] == sorted[i - 1]
    {
      if i == 0 || sorted[i] != sorted[i - 1] {
        if i > 0 {
          assert Leq(sorted[i - 1], sorted[i]);
          AppendLarger(ids, sorted[i]);
        }
        ids := ids + [sorted[i]];
      }
      assert sorted[..i + 1] == sorted[..i] + [sorted[i]];
    }
    assert sorted[..|sorted|] == sorted;
    SortedUnique(ids, SortedSet(Elements(violations)));
  }

  lemma AppendLarger(ids: seq<string>, x: string)
    requires StrictlySorted(ids) && ids != [] && Less(ids[|ids| - 1], x)
    ensures StrictlySorted(ids + [x])
  {
    forall j | 0 <= j < |ids| ensures Less(ids[j], x) {
      if j < |ids| - 1 { LessTransitive(ids[j], ids[|ids| - 1], x); }
    }
  }

  /** Two non-empty violation lists get the same key exactly when they name the
    * same set of policies, whatever their order and repetitions. */
  lemma CanonicalKeyFaithful(a: seq<string>, b: seq<string>)
    requires a != [] && b != [] && NoNUL(a) && NoNUL(b)
    ensures SetKey(SortedSet(Elements(a))) == SetKey(SortedSet(Elements(b))) <==> Elements(a) == Elements(b)
  {
    var ca, cb := SortedSet(Elements(a)), SortedSet(Elements(b));
    assert a[0] in ca && b[0] in cb;
    if SetKey(ca) == SetKey(cb) {
      SplitJoin(ca, NUL);
      SplitJoin(cb, NUL);
      forall x ensures x in Elements(a) <==> x in Elements(b) {
        assert x in ca <==> x in cb;
      }
    }
  }

  /** With a NUL inside an id the key is not faithful. */
  lemma NULBreaksKey()
    ensures exists a, b :: a != [] && b != [] && Elements(a) != Elements(b)
                           && SetKey(SortedSet(Elements(a))) == SetKey(SortedSet(Elements(b)))
  {
    var a, b := ["a", "b"], ["a" + [NUL] + "b"];
    assert Less("a", "b");
    SortedUnique(SortedSet(Elements(a)), a);
    SortedUnique(SortedSet(Elements(b)), b);
    assert a[1..] == ["b"];
    assert "b" in Elements(a) && "b" !in Elements(b);
    assert Join(["b"], [NUL]) == "b";
    assert Join(a, [NUL]) == a[0] + [NUL] + Join(a[1..], [NUL]);
    assert Join(b, [NUL]) == b[0];
  }
}
