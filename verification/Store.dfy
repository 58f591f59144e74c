/** The ticket and session stores (internal/store): the in-memory store, and the
  * on-disk store as many processes taking file-system steps under an advisory
  * lock, with temp-file writes, atomic renames and unlocked first reads. */
module Store {
  import opened Text

  datatype Op =
    | Put(sid: string, ticket: string)
    | Get(sid: string)
    | Delete(sid: string)
    | Reset
    | PutActive(sid: string)
    | GetActive
    | ClearActive

  datatype Result = Done | Found(value: string) | NotFound | Invalid

  // --------------------------------------------------------- memory store

  /** The map store; an empty active id means none. */
  datatype Mem = Mem(tickets: map<string, string>, active: string)

  const EMPTY := Mem(map[], "")

  /** `validateSessionID`. */
  predicate ValidID(sid: string)
  {
    sid != "" && '/' !in sid && '\\' !in sid && '\U{0}' !in sid
  }

  predicate TakesID(op: Op)
  {
    op.Put? || op.Get? || op.Delete? || op.PutActive?
  }

  function Apply(m: Mem, op: Op): (Mem, Result)
  {
    if TakesID(op) && !ValidID(op.sid) then (m, Invalid)
    else match op
      case Put(sid, ticket) => (m.(tickets := m.tickets[sid := ticket]), Done)
      case Get(sid) => (m, if sid in m.tickets then Found(m.tickets[sid]) else NotFound)
      case Delete(sid) => (m.(tickets := m.tickets - {sid}), Done)
      case Reset => (m.(tickets := map[]), Done)
      case PutActive(sid) => (m.(active := sid), Done)
      case GetActive => (m, if m.active == "" then NotFound else Found(m.active))
      case ClearActive => (m.(active := ""), Done)
  }

  /** Which calls are refused, and that they change nothing: those on an id that is
    * empty or holds a slash, a backslash or a NUL. No other call is. */
  lemma RefusedIff(m: Mem, op: Op)
    ensures Apply(m, op).1 == Invalid <==>
              && (op.Put? || op.Get? || op.Delete? || op.PutActive?)
              && (op.sid == "" || exists i :: 0 <= i < |op.sid| && op.sid[i] in {'/', '\\', '\U{0}'})
    ensures Apply(m, op).1 == Invalid ==> Apply(m, op).0 == m
  {
  }

  /** `Memory`. */
  class Memory {
    var tickets: map<string, string>
    var active: string

    ghost function Value(): Mem
      reads this
    {
      Mem(tickets, active)
    }

    constructor ()
      ensures Value() == EMPTY
    {
      tickets, active := map[], "";
    }

    method Perform(op: Op) returns (r: Result)
      modifies this
      ensures (Value(), r) == Apply(old(Value()), op)
    {
      match op
      case Put(sid, ticket) =>
        if !ValidID(sid) { return Invalid; }
        tickets := tickets[sid := ticket];
        r := Done;
      case Get(sid) =>
        if !ValidID(sid) { return Invalid; }
        r := if sid in tickets then Found(tickets[sid]) else NotFound;
      case Delete(sid) =>
        if !ValidID(sid) { return Invalid; }
        tickets := tickets - {sid};
        r := Done;
      case Reset =>
        tickets := map[];
        r := Done;
      case PutActive(sid) =>
        if !ValidID(sid) { return Invalid; }
        active := sid;
        r := Done;
      case GetActive =>
        r := if active == "" then NotFound else Found(active);
      case ClearActive =>
        active := "";
        r := Done;
    }
  }

  // ----------------------------------------------------------- file contents

  predicate Blank(c: char)
  {
    c == ' ' || c == '\t' || c == '\r' || c == '\n'
  }

  function TrimRight(s: string): string
  {
    if s != "" && Blank(s[|s| - 1]) then TrimRight(s[..|s| - 1]) else s
  }

  function Encode(v: string): string
  {
    v + "\n"
  }

  /** A value survives the file exactly when it does not end in white space. */
  lemma ReadBackIff(v: string)
    ensures TrimRight(v + "\n") == v <==> v == "" || v[|v| - 1] !in {' ', '\t', '\r', '\n'}
  {
    assert (v + "\n")[..|v|] == v;
    TrimShortens(v);
  }

  lemma {:induction false} TrimShortens(s: string)
    ensures |TrimRight(s)| <= |s|
    ensures s != "" && Blank(s[|s| - 1]) ==> |TrimRight(s)| < |s|
  {
    if s != "" && Blank(s[|s| - 1]) { TrimShortens(s[..|s| - 1]); }
  }

  predicate EndsClean(v: string)
  {
    v != "" && !Blank(v[|v| - 1])
  }

  /** Session ids that name a plain file of the ticket directory, and values that
    * survive the trim: what the two stores are meant to agree on. */
  predicate Storable(op: Op)
  {
    && (TakesID(op) ==> op.sid != "." && op.sid != ".." && !HasPrefix(op.sid, ".tmp-"))
    && (op.Put? ==> EndsClean(op.ticket))
    && (op.PutActive? ==> EndsClean(op.sid) || !ValidID(op.sid))
  }

  // ---------------------------------------------------- processes on disk

  datatype Disk = Disk(lockFile: bool, tickets: map<string, string>, session: Option<string>)

  /** Where a process stands inside one store call. */
  datatype Pc =
    | Idle
    | Opening(op: Op, inv: nat)                     // validated, about to open the lock file
    | Waiting(op: Op, inv: nat)                     // lock file open, flock pending
    | Holding(op: Op, inv: nat)                     // flock held
    | Writing(op: Op, inv: nat, temp: string)       // temp file created, written so far
    | Removing(op: Op, inv: nat)                    // purge under way, file by file
    | Unlocked(op: Op, inv: nat, checked: nat)      // no lock file was there: reading without lock
    | Finished(op: Op, inv: nat)                    // effect done, lock still held

  predicate IsWriter(op: Op)
  {
    !op.Get? && !op.GetActive?
  }

  predicate HoldsLock(pc: Pc)
  {
    pc.Holding? || pc.Writing? || pc.Removing? || pc.Finished?
  }

  predicate HoldsExclusive(pc: Pc)
  {
    HoldsLock(pc) && IsWriter(pc.op)
  }

  /** One operation that took effect: invoked at step inv, linearised at step lin,
    * noted at step noted. */
  datatype Entry = Entry(pid: nat, op: Op, result: Result, inv: nat, lin: nat, noted: nat)

  /** The system, with its history: the abstract store before each step. */
  datatype Sys = Sys(disk: Disk, pcs: map<nat, Pc>, past: seq<Mem>, abs: Mem, log: seq<Entry>)

  const START := Sys(Disk(false, map[], None), map[], [], EMPTY, [])

  function PcOf(s: Sys, pid: nat): Pc
  {
    if pid in s.pcs then s.pcs[pid] else Idle
  }

  datatype Action =
    | Invoke(op: Op)
    | Open
    | Acquire
    | CreateTemp
    | WriteMore(upTo: nat)
    | Rename
    | Remove
    | StartPurge
    | PurgeOne(key: string)
    | EndPurge
    | ReadLocked
    | ReadUnlocked
    | Release
    | Crash

  datatype Step = Step(pid: nat, action: Action)

  function Payload(op: Op): string
    requires op.Put? || op.PutActive?
  {
    if op.Put? then Encode(op.ticket) else Encode(op.sid)
  }

  /** The content of the file an operation reads. */
  function FileOf(d: Disk, op: Op): Option<string>
  {
    if op.GetActive? then d.session
    else if op.Get? && op.sid in d.tickets then Some(d.tickets[op.sid])
    else None
  }

  function ReadResult(file: Option<string>): Result
  {
    if file.Some? then Found(TrimRight(file.value)) else NotFound
  }

  function Now(s: Sys): nat
  {
    |s.past|
  }

  /** Time passes: the abstract store before this step is recorded. */
  function Moved(s: Sys, pid: nat, pc: Pc): Sys
  {
    s.(pcs := s.pcs[pid := pc], past := s.past + [s.abs])
  }

  /** The operation of pid takes effect now, on the disk given. */
  function Effect(s: Sys, pid: nat, pc: Pc, disk: Disk): Sys
    requires pc.Holding? || pc.Writing? || pc.Removing?
  {
    var (mem, result) := Apply(s.abs, pc.op);
    Moved(s, pid, Finished(pc.op, pc.inv)).(disk := disk, abs := mem,
      log := s.log + [Entry(pid, pc.op, result, pc.inv, Now(s), Now(s))])
  }

  ghost predicate FlockFree(s: Sys, pid: nat, exclusive: bool)
  {
    forall q :: q in s.pcs && q != pid ==> if exclusive then !HoldsLock(s.pcs[q]) else !HoldsExclusive(s.pcs[q])
  }

  /** One step of one process; a step that is not enabled does nothing. */
  ghost function Next(s: Sys, step: Step): Sys
  {
    var pid, pc := step.pid, PcOf(s, step.pid);
    var stay := Moved(s, pid, pc);
    match step.action
    case Invoke(op) =>
      if !pc.Idle? then stay
      else if TakesID(op) && !ValidID(op.sid) then
        stay.(log := s.log + [Entry(pid, op, Invalid, Now(s), Now(s), Now(s))])
      else Moved(s, pid, Opening(op, Now(s)))
    case Open =>
      if !pc.Opening? then stay
      else if IsWriter(pc.op) then Moved(s, pid, Waiting(pc.op, pc.inv)).(disk := s.disk.(lockFile := true))
      else if s.disk.lockFile then Moved(s, pid, Waiting(pc.op, pc.inv))
      else Moved(s, pid, Unlocked(pc.op, pc.inv, Now(s)))
    case Acquire =>
      if pc.Waiting? && FlockFree(s, pid, IsWriter(pc.op)) then Moved(s, pid, Holding(pc.op, pc.inv)) else stay
    case CreateTemp =>
      if pc.Holding? && (pc.op.Put? || pc.op.PutActive?) then Moved(s, pid, Writing(pc.op, pc.inv, "")) else stay
    case WriteMore(upTo) =>
      if pc.Writing? && (pc.op.Put? || pc.op.PutActive?) && upTo <= |Payload(pc.op)|
      then Moved(s, pid, pc.(temp := Payload(pc.op)[..upTo])) else stay
    case Rename =>
      if pc.Writing? && (pc.op.Put? || pc.op.PutActive?) && pc.temp == Payload(pc.op) then
        Effect(s, pid, pc,
          if pc.op.Put? then s.disk.(tickets := s.disk.tickets[pc.op.sid := pc.temp])
          else s.disk.(session := Some(pc.temp)))
      else stay
    case Remove =>
      if pc.Holding? && pc.op.Delete? then Effect(s, pid, pc, s.disk.(tickets := s.disk.tickets - {pc.op.sid}))
      else if pc.Holding? && pc.op.ClearActive? then Effect(s, pid, pc, s.disk.(session := None))
      else stay
    case StartPurge =>
      if pc.Holding? && pc.op.Reset? then Moved(s, pid, Removing(pc.op, pc.inv)) else stay
    case PurgeOne(key) =>
      if pc.Removing? then stay.(disk := s.disk.(tickets := s.disk.tickets - {key})) else stay
    case EndPurge =>
      if pc.Removing? && s.disk.tickets == map[] then Effect(s, pid, pc, s.disk) else stay
    case ReadLocked =>
      if pc.Holding? && !IsWriter(pc.op) then
        Moved(s, pid, Finished(pc.op, pc.inv)).(
          log := s.log + [Entry(pid, pc.op, ReadResult(FileOf(s.disk, pc.op)), pc.inv, Now(s), Now(s))])
      else stay
    case ReadUnlocked =>
      if !pc.Unlocked? then stay
      else
        var file := FileOf(s.disk, pc.op);
        Moved(s, pid, Idle).(
          log := s.log
            + [Entry(pid, pc.op, ReadResult(file), pc.inv, if file.Some? then Now(s) else pc.checked, Now(s))])
    case Release =>
      if pc.Finished? then Moved(s, pid, Idle) else stay
    case Crash =>
      if pc.Removing? then stay else Moved(s, pid, Idle)
  }

  ghost function Run(steps: seq<Step>): Sys
  {
    if steps == [] then START else Next(Run(steps[..|steps| - 1]), steps[|steps| - 1])
  }

  // ----------------------------------------------------------- invariants

  /** The abstract store before step t; now, for t beyond the past. */
  function At(s: Sys, t: nat): Mem
  {
    if t < |s.past| then s.past[t] else s.abs
  }

  /** The store a file system shows when no purge is under way. */
  function TicketFiles(m: Mem): map<string, string>
  {
    map k | k in m.tickets :: Encode(m.tickets[k])
  }

  function SessionFile(m: Mem): Option<string>
  {
    if m.active == "" then None else Some(Encode(m.active))
  }

  /** While a purge runs, some of the files are already gone. */
  ghost predicate PurgeRunning(s: Sys)
  {
    exists pid :: pid in s.pcs && s.pcs[pid].Removing?
  }

  ghost predicate Stored(m: Mem)
  {
    && (forall k :: k in m.tickets ==> EndsClean(m.tickets[k]))
    && (m.active == "" || EndsClean(m.active))
  }

  ghost predicate DiskMatches(s: Sys)
  {
    && s.disk.session == SessionFile(s.abs)
    && s.disk.tickets.Keys <= s.abs.tickets.Keys
    && (forall k :: k in s.disk.tickets ==> s.disk.tickets[k] == Encode(s.abs.tickets[k]))
    && (PurgeRunning(s) || s.abs.tickets.Keys <= s.disk.tickets.Keys)
    && (!s.disk.lockFile ==> s.abs == EMPTY)
    && Stored(s.abs)
  }

  ghost predicate PcFine(s: Sys, pid: nat)
  {
    var pc := PcOf(s, pid);
    && (!pc.Idle? ==> Storable(pc.op) && (TakesID(pc.op) ==> ValidID(pc.op.sid)))
    && (HoldsLock(pc) || pc.Waiting? ==> s.disk.lockFile)
    && (pc.Writing? ==> pc.op.Put? || pc.op.PutActive?)
    && (pc.Removing? ==> pc.op.Reset?)
    && (!pc.Idle? ==> pc.inv <= Now(s))
    && (pc.Unlocked? ==>
          && !IsWriter(pc.op) && pc.inv <= pc.checked < Now(s)
          && At(s, pc.checked) == EMPTY == At(s, pc.checked + 1))
  }

  /** flock excludes: an exclusive holder is the only holder. */
  ghost predicate Exclusion(s: Sys)
  {
    forall p, q :: p in s.pcs && q in s.pcs && p != q && HoldsExclusive(s.pcs[p]) ==> !HoldsLock(s.pcs[q])
  }

  /** The operation took effect at one step between its call and now, and did to
    * the abstract store, and answered, what the memory store would. */
  ghost predicate Linearised(s: Sys, e: Entry)
  {
    && e.inv <= e.lin <= e.noted < Now(s)
    && Apply(At(s, e.lin), e.op) == (At(s, e.lin + 1), e.result)
  }

  /** The abstract store changes at no other step. */
  ghost predicate Accounted(s: Sys, t: nat)
  {
    At(s, t) == At(s, t + 1) || exists i :: 0 <= i < |s.log| && s.log[i].lin == t
  }

  ghost predicate Inv(s: Sys)
  {
    && DiskMatches(s) && Exclusion(s)
    && (forall pid :: PcFine(s, pid))
    && (forall i :: 0 <= i < |s.log| ==> Linearised(s, s.log[i]))
    && forall t: nat :: t < Now(s) ==> Accounted(s, t)
  }

  // ---------------------------------------------------------------- proofs

  lemma AtMoved(s: Sys, s': Sys, t: nat)
    requires s'.past == s.past + [s.abs] && t <= |s.past|
    ensures At(s', t) == At(s, t)
    ensures At(s', |s'.past|) == s'.abs
  {
  }

  /** What happened stays what it was. */
  lemma PastKept(s: Sys, s': Sys, pid: nat)
    requires s'.past == s.past + [s.abs] && s.log <= s'.log
    requires forall i :: 0 <= i < |s.log| ==> Linearised(s, s.log[i])
    requires forall t: nat :: t < Now(s) ==> Accounted(s, t)
    requires s'.abs == s.abs || exists i :: 0 <= i < |s'.log| && s'.log[i].lin == Now(s)
    ensures forall i :: 0 <= i < |s.log| ==> Linearised(s', s'.log[i])
    ensures forall t: nat :: t < Now(s') ==> Accounted(s', t)
  {
    forall i | 0 <= i < |s.log| ensures Linearised(s', s'.log[i]) {
      assert Linearised(s, s.log[i]);
      AtMoved(s, s', s.log[i].lin);
      AtMoved(s, s', s.log[i].lin + 1);
    }
    forall t: nat | t < Now(s') ensures Accounted(s', t) {
      AtMoved(s, s', t);
      if t < Now(s) {
        AtMoved(s, s', t + 1);
        assert Accounted(s, t);
        if At(s, t) != At(s, t + 1) {
          var i :| 0 <= i < |s.log| && s.log[i].lin == t;
          assert s'.log[i].lin == t;
        }
      }
    }
  }

  lemma OthersFine(s: Sys, s': Sys, pid: nat, q: nat)
    requires PcFine(s, q) && q != pid
    requires PcOf(s', q) == PcOf(s, q)
    requires s'.past == s.past + [s.abs] && (s.disk.lockFile ==> s'.disk.lockFile)
    ensures PcFine(s', q)
  {
    var pc := PcOf(s, q);
    if pc.Unlocked? {
      AtMoved(s, s', pc.checked);
      AtMoved(s, s', pc.checked + 1);
    }
  }

  lemma ExclusionKept(s: Sys, s': Sys, pid: nat, pc: Pc)
    requires Exclusion(s) && s'.pcs == s.pcs[pid := pc]
    requires HoldsLock(pc) ==> pid in s.pcs && HoldsLock(s.pcs[pid]) && IsWriter(pc.op) == IsWriter(s.pcs[pid].op)
    ensures Exclusion(s')
  {
  }

  lemma NoOtherPurge(s: Sys, pid: nat)
    requires Exclusion(s) && pid in s.pcs && HoldsLock(s.pcs[pid]) && !s.pcs[pid].Removing?
    requires forall q :: PcFine(s, q)
    ensures !PurgeRunning(s)
  {
    if q :| q in s.pcs && s.pcs[q].Removing? {
      assert PcFine(s, q) && PcOf(s, q) == s.pcs[q];
      assert HoldsExclusive(s.pcs[q]);
    }
  }

  lemma ReadAgrees(s: Sys, op: Op)
    requires DiskMatches(s) && !IsWriter(op) && (TakesID(op) ==> ValidID(op.sid))
    ensures FileOf(s.disk, op).Some? || !PurgeRunning(s) ==> Apply(s.abs, op) == (s.abs, ReadResult(FileOf(s.disk, op)))
  {
    var file := FileOf(s.disk, op);
    if file.Some? {
      if op.Get? { ReadBackIff(s.abs.tickets[op.sid]); } else { ReadBackIff(s.abs.active); }
    }
  }

  /** A step that leaves the files and the abstract store as they are. */
  lemma QuietStep(s: Sys, s': Sys, pid: nat, pc: Pc)
    requires Inv(s)
    requires s'.pcs == s.pcs[pid := pc] && s'.past == s.past + [s.abs] && s'.abs == s.abs
    requires s'.disk.tickets == s.disk.tickets && s'.disk.session == s.disk.session
    requires s.disk.lockFile ==> s'.disk.lockFile
    requires PcOf(s, pid).Removing? ==> pc.Removing?
    requires Exclusion(s') && PcFine(s', pid)
    requires s.log <= s'.log && |s'.log| <= |s.log| + 1 && (|s'.log| > |s.log| ==> Linearised(s', s'.log[|s.log|]))
    ensures Inv(s')
  {
    PastKept(s, s', pid);
    if PurgeRunning(s) {
      var q :| q in s.pcs && s.pcs[q].Removing?;
      assert s'.pcs[q].Removing?;
    }
    forall q ensures PcFine(s', q) {
      if q != pid { assert PcFine(s, q); OthersFine(s, s', pid, q); }
    }
  }

  /** Any step that keeps, or gives up, what the process holds of the lock. */
  lemma KeepOrDrop(s: Sys, s': Sys, pid: nat, pc: Pc)
    requires Inv(s)
    requires s'.pcs == s.pcs[pid := pc] && s'.past == s.past + [s.abs] && s'.abs == s.abs && s'.log == s.log
    requires s'.disk.tickets == s.disk.tickets && s'.disk.session == s.disk.session
    requires s.disk.lockFile ==> s'.disk.lockFile
    requires PcOf(s, pid).Removing? ==> pc.Removing?
    requires HoldsLock(pc) ==> HoldsLock(PcOf(s, pid)) && IsWriter(pc.op) == IsWriter(PcOf(s, pid).op)
    requires PcFine(s', pid)
    ensures Inv(s')
  {
    ExclusionKept(s, s', pid, pc);
    QuietStep(s, s', pid, pc);
  }

  lemma StayInv(s: Sys, pid: nat)
    requires Inv(s)
    ensures Inv(Moved(s, pid, PcOf(s, pid)))
  {
    var s' := Moved(s, pid, PcOf(s, pid));
    assert PcFine(s, pid);
    SelfStillFine(s, s', pid);
    KeepOrDrop(s, s', pid, PcOf(s, pid));
  }

  lemma SelfStillFine(s: Sys, s': Sys, pid: nat)
    requires PcFine(s, pid) && PcOf(s', pid) == PcOf(s, pid)
    requires s'.past == s.past + [s.abs] && (s.disk.lockFile ==> s'.disk.lockFile)
    ensures PcFine(s', pid)
  {
    var pc := PcOf(s, pid);
    if pc.Unlocked? {
      AtMoved(s, s', pc.checked);
      AtMoved(s, s', pc.checked + 1);
    }
  }

  lemma InvokeInv(s: Sys, pid: nat, op: Op)
    requires Inv(s) && Storable(op)
    ensures Inv(Next(s, Step(pid, Invoke(op))))
  {
    var pc := PcOf(s, pid);
    var s' := Next(s, Step(pid, Invoke(op)));
    StayInv(s, pid);
    if pc.Idle? {
      if TakesID(op) && !ValidID(op.sid) {
        SelfStillFine(s, s', pid);
        ExclusionKept(s, s', pid, pc);
        AtMoved(s, s', Now(s));
        QuietStep(s, s', pid, pc);
      } else {
        KeepOrDrop(s, s', pid, Opening(op, Now(s)));
      }
    }
  }

  lemma OpenInv(s: Sys, pid: nat)
    requires Inv(s)
    ensures Inv(Next(s, Step(pid, Open)))
  {
    var pc := PcOf(s, pid);
    var s' := Next(s, Step(pid, Open));
    StayInv(s, pid);
    assert PcFine(s, pid);
    if pc.Opening? {
      AtMoved(s, s', Now(s));
      KeepOrDrop(s, s', pid, PcOf(s', pid));
    }
  }

  lemma AcquireInv(s: Sys, pid: nat)
    requires Inv(s)
    ensures Inv(Next(s, Step(pid, Acquire)))
  {
    var pc := PcOf(s, pid);
    StayInv(s, pid);
    assert PcFine(s, pid);
    if pc.Waiting? && FlockFree(s, pid, IsWriter(pc.op)) {
      var s' := Next(s, Step(pid, Acquire));
      QuietStep(s, s', pid, Holding(pc.op, pc.inv));
    }
  }

  lemma WriteStepsInv(s: Sys, pid: nat, action: Action)
    requires Inv(s)
             && (action.CreateTemp? || action.WriteMore? || action.StartPurge? || action.Release? || action.Crash?)
    ensures Inv(Next(s, Step(pid, action)))
  {
    var s' := Next(s, Step(pid, action));
    StayInv(s, pid);
    assert PcFine(s, pid);
    if PcOf(s', pid) != PcOf(s, pid) {
      KeepOrDrop(s, s', pid, PcOf(s', pid));
    }
  }

  lemma ReadLockedInv(s: Sys, pid: nat)
    requires Inv(s)
    ensures Inv(Next(s, Step(pid, ReadLocked)))
  {
    var pc := PcOf(s, pid);
    var s' := Next(s, Step(pid, ReadLocked));
    StayInv(s, pid);
    assert PcFine(s, pid);
    if pc.Holding? && !IsWriter(pc.op) {
      NoOtherPurge(s, pid);
      ReadAgrees(s, pc.op);
      AtMoved(s, s', Now(s));
      ExclusionKept(s, s', pid, Finished(pc.op, pc.inv));
      QuietStep(s, s', pid, Finished(pc.op, pc.inv));
    }
  }

  lemma ReadUnlockedInv(s: Sys, pid: nat)
    requires Inv(s)
    ensures Inv(Next(s, Step(pid, ReadUnlocked)))
  {
    var pc := PcOf(s, pid);
    var s' := Next(s, Step(pid, ReadUnlocked));
    StayInv(s, pid);
    assert PcFine(s, pid);
    if pc.Unlocked? {
      ReadAgrees(s, pc.op);
      AtMoved(s, s', Now(s));
      AtMoved(s, s', pc.checked);
      AtMoved(s, s', pc.checked + 1);
      ExclusionKept(s, s', pid, Idle);
      QuietStep(s, s', pid, Idle);
    }
  }

  lemma PurgeOneInv(s: Sys, pid: nat, key: string)
    requires Inv(s)
    ensures Inv(Next(s, Step(pid, PurgeOne(key))))
  {
    var pc := PcOf(s, pid);
    var s' := Next(s, Step(pid, PurgeOne(key)));
    StayInv(s, pid);
    if pc.Removing? {
      var stay := Moved(s, pid, pc);
      assert s'.pcs[pid].Removing?;
      forall q ensures PcFine(s', q) { assert PcFine(stay, q); }
      forall i | 0 <= i < |s'.log| ensures Linearised(s', s'.log[i]) { assert Linearised(stay, stay.log[i]); }
      forall t: nat | t < Now(s') ensures Accounted(s', t) { assert Accounted(stay, t); }
    }
  }

  /** An operation taking effect under the exclusive lock. */
  lemma EffectInv(s: Sys, pid: nat, disk: Disk)
    requires Inv(s)
    requires var pc := PcOf(s, pid);
             && (pc.Holding? || pc.Writing? || pc.Removing?) && IsWriter(pc.op)
             && disk.lockFile && Stored(Apply(s.abs, pc.op).0)
             && disk.session == SessionFile(Apply(s.abs, pc.op).0)
             && disk.tickets == TicketFiles(Apply(s.abs, pc.op).0)
    ensures Inv(Effect(s, pid, PcOf(s, pid), disk))
  {
    var pc := PcOf(s, pid);
    var s' := Effect(s, pid, pc, disk);
    assert PcFine(s, pid);
    AtMoved(s, s', Now(s));
    ExclusionKept(s, s', pid, Finished(pc.op, pc.inv));
    assert s'.log[|s.log|].lin == Now(s);
    PastKept(s, s', pid);
    forall i | 0 <= i < |s'.log| ensures Linearised(s', s'.log[i]) {}
    forall q ensures PcFine(s', q) {
      if q != pid { assert PcFine(s, q); OthersFine(s, s', pid, q); }
    }
  }

  lemma FilesWhole(s: Sys)
    requires DiskMatches(s) && !PurgeRunning(s)
    ensures s.disk.tickets == TicketFiles(s.abs)
  {
  }

  lemma RenameInv(s: Sys, pid: nat)
    requires Inv(s)
    ensures Inv(Next(s, Step(pid, Rename)))
  {
    var pc := PcOf(s, pid);
    StayInv(s, pid);
    assert PcFine(s, pid);
    if pc.Writing? && pc.temp == Payload(pc.op) {
      NoOtherPurge(s, pid);
      FilesWhole(s);
      var mem := Apply(s.abs, pc.op).0;
      if pc.op.Put? {
        assert TicketFiles(mem) == TicketFiles(s.abs)[pc.op.sid := pc.temp];
        EffectInv(s, pid, s.disk.(tickets := s.disk.tickets[pc.op.sid := pc.temp]));
      } else {
        EffectInv(s, pid, s.disk.(session := Some(pc.temp)));
      }
    }
  }

  lemma RemoveInv(s: Sys, pid: nat)
    requires Inv(s)
    ensures Inv(Next(s, Step(pid, Remove)))
  {
    var pc := PcOf(s, pid);
    StayInv(s, pid);
    assert PcFine(s, pid);
    if pc.Holding? && (pc.op.Delete? || pc.op.ClearActive?) {
      NoOtherPurge(s, pid);
      FilesWhole(s);
      var mem := Apply(s.abs, pc.op).0;
      if pc.op.Delete? {
        assert TicketFiles(mem) == TicketFiles(s.abs) - {pc.op.sid};
        EffectInv(s, pid, s.disk.(tickets := s.disk.tickets - {pc.op.sid}));
      } else {
        EffectInv(s, pid, s.disk.(session := None));
      }
    }
  }

  lemma EndPurgeInv(s: Sys, pid: nat)
    requires Inv(s)
    ensures Inv(Next(s, Step(pid, EndPurge)))
  {
    var pc := PcOf(s, pid);
    StayInv(s, pid);
    assert PcFine(s, pid);
    if pc.Removing? && s.disk.tickets == map[] {
      assert TicketFiles(Apply(s.abs, pc.op).0) == map[];
      EffectInv(s, pid, s.disk);
    }
  }

  lemma NextInv(s: Sys, step: Step)
    requires Inv(s) && (step.action.Invoke? ==> Storable(step.action.op))
    ensures Inv(Next(s, step))
  {
    match step.action
    case Invoke(op) => InvokeInv(s, step.pid, op);
    case Open => OpenInv(s, step.pid);
    case Acquire => AcquireInv(s, step.pid);
    case Rename => RenameInv(s, step.pid);
    case Remove => RemoveInv(s, step.pid);
    case PurgeOne(key) => PurgeOneInv(s, step.pid, key);
    case EndPurge => EndPurgeInv(s, step.pid);
    case ReadLocked => ReadLockedInv(s, step.pid);
    case ReadUnlocked => ReadUnlockedInv(s, step.pid);
    case _ => WriteStepsInv(s, step.pid, step.action);
  }

  ghost predicate AllStorable(steps: seq<Step>)
  {
    forall i :: 0 <= i < |steps| && steps[i].action.Invoke? ==> Storable(steps[i].action.op)
  }

  lemma {:induction false} RunInv(steps: seq<Step>)
    requires AllStorable(steps)
    ensures Inv(Run(steps))
  {
    if steps != [] {
      RunInv(steps[..|steps| - 1]);
      NextInv(Run(steps[..|steps| - 1]), steps[|steps| - 1]);
    } else {
      forall pid ensures PcFine(START, pid) {}
    }
  }

  // --------------------------------------------------------- main results

  /** The file store linearises to the map store: in every interleaving, each
    * operation takes effect at one step between its call and its return, where
    * it does and answers exactly what the map store would, and the abstract
    * store changes at no other step. */
  lemma FilesystemRefinesMemory(steps: seq<Step>, e: Entry)
    requires AllStorable(steps) && e in Run(steps).log
    ensures Linearised(Run(steps), e)
    ensures EntryTracked(steps, e)
    ensures forall t: nat :: t < Now(Run(steps)) ==> Accounted(Run(steps), t)
  {
    RunInv(steps);
    RunTracked(steps);
    var s := Run(steps);
    var i :| 0 <= i < |s.log| && s.log[i] == e;
    assert EntryTracked(steps, s.log[i]);
  }

  /** What lies on disk after any run: each ticket and the active session, ended by a
    * newline; while a purge runs, some ticket files may already be gone. */
  lemma FilesHoldTheStore(steps: seq<Step>)
    requires AllStorable(steps)
    ensures var s := Run(steps);
            && (forall sid :: sid in s.disk.tickets ==>
                  sid in s.abs.tickets && s.disk.tickets[sid] == s.abs.tickets[sid] + "\n")
            && (forall sid :: sid in s.abs.tickets && !PurgeRunning(s) ==> sid in s.disk.tickets)
            && s.disk.session == if s.abs.active == "" then None else Some(s.abs.active + "\n")
  {
    RunInv(steps);
  }

  /** The linearisation respects real time: what was noted before another call
    * began comes before it. */
  lemma RealTimeOrder(steps: seq<Step>, e: Entry, f: Entry)
    requires AllStorable(steps) && e in Run(steps).log && f in Run(steps).log && e.noted < f.inv
    ensures e.lin < f.lin
  {
    FilesystemRefinesMemory(steps, e);
    FilesystemRefinesMemory(steps, f);
  }

  // ------------------------------------------------- calls and entries

  ghost predicate Answered(log: seq<Entry>, inv: nat)
  {
    exists k :: 0 <= k < |log| && log[k].inv == inv
  }

  /** A process inside a call knows the step that began it; the call has an entry
    * exactly when it is finished. */
  ghost predicate PcTracked(s: Sys, steps: seq<Step>, pid: nat)
  {
    var pc := PcOf(s, pid);
    !pc.Idle? ==>
      && pc.inv < |steps| && steps[pc.inv] == Step(pid, Invoke(pc.op))
      && (Answered(s.log, pc.inv) <==> pc.Finished?)
      && (pc.Unlocked? ==> pc.checked < |steps| && steps[pc.checked].pid == pid)
  }

  /** The entry belongs to a call of its process, took effect at a step of that
    * process and was noted at one. */
  ghost predicate EntryTracked(steps: seq<Step>, e: Entry)
  {
    && e.inv <= e.noted < |steps| && e.lin < |steps|
    && steps[e.inv] == Step(e.pid, Invoke(e.op)) && steps[e.lin].pid == steps[e.noted].pid == e.pid
  }

  ghost predicate Tracked(s: Sys, steps: seq<Step>)
  {
    && Now(s) == |steps|
    && (forall pid :: PcTracked(s, steps, pid))
    && (forall k :: 0 <= k < |s.log| ==> EntryTracked(steps, s.log[k]))
    && forall k, l :: 0 <= k < l < |s.log| ==> s.log[k].inv != s.log[l].inv
  }

  /** What one step can have done to its process when no entry was added. */
  ghost predicate SilentStep(s: Sys, step: Step, pc': Pc)
  {
    var pc := PcOf(s, step.pid);
    || pc' == pc
    || (SameCall(pc, pc') && !pc.Finished? && !pc'.Finished? && (pc'.Unlocked? ==> pc'.checked == Now(s)))
    || (!pc.Idle? && pc'.Idle? && (pc.Finished? || step.action.Crash?))
    || (pc.Idle? && pc'.Opening? && step.action == Invoke(pc'.op) && pc'.inv == Now(s))
  }

  /** And when the entry was. */
  ghost predicate EntryStep(s: Sys, step: Step, pc': Pc, e: Entry)
  {
    var pc := PcOf(s, step.pid);
    && e.pid == step.pid && e.noted == Now(s)
    && (e.lin == Now(s) || (pc.Unlocked? && e.lin == pc.checked))
    && (|| (pc.Idle? && pc'.Idle? && step.action == Invoke(e.op) && e.inv == Now(s))
        || (!pc.Idle? && !pc.Finished? && e.op == pc.op && e.inv == pc.inv
            && (pc'.Idle? || (SameCall(pc, pc') && pc'.Finished?))))
  }

  predicate SameCall(pc: Pc, pc': Pc)
  {
    !pc.Idle? && !pc'.Idle? && pc'.op == pc.op && pc'.inv == pc.inv
  }

  ghost predicate Shape(s: Sys, step: Step, s': Sys)
  {
    var pc' := PcOf(s', step.pid);
    && s'.past == s.past + [s.abs] && s'.pcs == s.pcs[step.pid := pc']
    && ((s'.log == s.log && SilentStep(s, step, pc'))
        || (|s'.log| == |s.log| + 1 && s.log <= s'.log && EntryStep(s, step, pc', s'.log[|s.log|])))
  }

  lemma NextShape(s: Sys, step: Step)
    ensures Shape(s, step, Next(s, step))
  {
    if step.action.Rename? || step.action.Remove? || step.action.EndPurge? {
      EffectShape(s, step);
    }
  }

  lemma EffectShape(s: Sys, step: Step)
    requires step.action.Rename? || step.action.Remove? || step.action.EndPurge?
    ensures Shape(s, step, Next(s, step))
  {
  }

  lemma OtherTracked(s: Sys, steps: seq<Step>, step: Step, s': Sys, pid: nat)
    requires Tracked(s, steps) && Shape(s, step, s') && pid != step.pid
    ensures PcTracked(s', steps + [step], pid)
  {
    var pc := PcOf(s, pid);
    assert PcTracked(s, steps, pid) && PcTracked(s, steps, step.pid);
    assert PcOf(s', pid) == pc;
    if !pc.Idle? { AnsweredGrows(s, s', pc.inv); }
  }

  lemma AnsweredGrows(s: Sys, s': Sys, inv: nat)
    requires s.log <= s'.log && |s'.log| <= |s.log| + 1
    ensures Answered(s'.log, inv) <==>
              Answered(s.log, inv) || (|s'.log| > |s.log| && s'.log[|s.log|].inv == inv)
  {
    if Answered(s.log, inv) {
      var k :| 0 <= k < |s.log| && s.log[k].inv == inv;
      assert s'.log[k].inv == inv;
    }
  }

  lemma NotYetAnswered(s: Sys, steps: seq<Step>)
    requires Tracked(s, steps)
    ensures !Answered(s.log, |steps|)
  {
    forall k | 0 <= k < |s.log| ensures s.log[k].inv < |steps| { assert EntryTracked(steps, s.log[k]); }
  }

  lemma SelfTracked(s: Sys, steps: seq<Step>, step: Step, s': Sys)
    requires Tracked(s, steps) && Shape(s, step, s')
    ensures PcTracked(s', steps + [step], step.pid)
  {
    var pc' := PcOf(s', step.pid);
    assert PcTracked(s, steps, step.pid);
    if !pc'.Idle? {
      AnsweredGrows(s, s', pc'.inv);
      NotYetAnswered(s, steps);
    }
  }

  lemma EntriesTracked(s: Sys, steps: seq<Step>, step: Step, s': Sys)
    requires Tracked(s, steps) && Shape(s, step, s')
    ensures forall k :: 0 <= k < |s'.log| ==> EntryTracked(steps + [step], s'.log[k])
    ensures forall k, l :: 0 <= k < l < |s'.log| ==> s'.log[k].inv != s'.log[l].inv
  {
    assert PcTracked(s, steps, step.pid);
    forall k | 0 <= k < |s'.log| ensures EntryTracked(steps + [step], s'.log[k]) {
      if k < |s.log| { assert EntryTracked(steps, s.log[k]); }
    }
    if |s'.log| > |s.log| {
      var e := s'.log[|s.log|];
      forall k | 0 <= k < |s.log| ensures s'.log[k].inv != e.inv {
        assert EntryTracked(steps, s.log[k]);
        assert s.log[k].inv == e.inv ==> Answered(s.log, e.inv);
      }
    }
  }

  lemma NextTracked(s: Sys, steps: seq<Step>, step: Step)
    requires Tracked(s, steps)
    ensures Tracked(Next(s, step), steps + [step])
  {
    var s' := Next(s, step);
    NextShape(s, step);
    forall pid ensures PcTracked(s', steps + [step], pid) {
      if pid != step.pid { OtherTracked(s, steps, step, s', pid); } else { SelfTracked(s, steps, step, s'); }
    }
    EntriesTracked(s, steps, step, s');
  }

  lemma {:induction false} RunTracked(steps: seq<Step>)
    ensures Tracked(Run(steps), steps)
  {
    if steps != [] {
      RunTracked(steps[..|steps| - 1]);
      NextTracked(Run(steps[..|steps| - 1]), steps[..|steps| - 1], steps[|steps| - 1]);
      assert steps[..|steps| - 1] + [steps[|steps| - 1]] == steps;
    }
  }

  /** Where the process stands before step i. */
  ghost function PcAt(steps: seq<Step>, i: nat, pid: nat): Pc
    requires i <= |steps|
  {
    PcOf(Run(steps[..i]), pid)
  }

  /** Step i calls the store: an invocation by a process that is in no call. */
  ghost predicate Called(steps: seq<Step>, i: nat)
  {
    i < |steps| && steps[i].action.Invoke? && PcAt(steps, i, steps[i].pid).Idle?
  }

  /** The call made at step i returned at step t: until then its process was inside
    * it, and it did not crash. */
  ghost predicate Returned(steps: seq<Step>, i: nat, t: nat)
  {
    && Called(steps, i) && i <= t < |steps| && !steps[t].action.Crash?
    && (forall j :: i < j <= t ==> !PcAt(steps, j, steps[i].pid).Idle?)
    && PcAt(steps, t + 1, steps[i].pid).Idle?
  }

  lemma RunStep(steps: seq<Step>, i: nat)
    requires i < |steps|
    ensures Run(steps[..i + 1]) == Next(Run(steps[..i]), steps[i])
  {
    assert steps[..i + 1][..i] == steps[..i];
  }

  /** Throughout a call the process knows the step that began it. */
  lemma InsideCall(steps: seq<Step>, i: nat, t: nat)
    requires Called(steps, i) && i < t <= |steps|
    requires forall j :: i < j <= t ==> !PcAt(steps, j, steps[i].pid).Idle?
    ensures PcAt(steps, t, steps[i].pid).inv == i
  {
    BeginsAt(steps, i);
    for j := i + 1 to t
      invariant PcAt(steps, j, steps[i].pid).inv == i
    {
      GoesOnAt(steps, j, steps[i].pid);
    }
  }

  lemma BeginsAt(steps: seq<Step>, i: nat)
    requires Called(steps, i) && !PcAt(steps, i + 1, steps[i].pid).Idle?
    ensures PcAt(steps, i + 1, steps[i].pid).inv == i
  {
    RunStep(steps, i);
    RunTracked(steps[..i]);
    CallBegins(Run(steps[..i]), steps[i]);
  }

  lemma GoesOnAt(steps: seq<Step>, j: nat, pid: nat)
    requires j < |steps| && !PcAt(steps, j, pid).Idle? && !PcAt(steps, j + 1, pid).Idle?
    ensures PcAt(steps, j + 1, pid).inv == PcAt(steps, j, pid).inv
  {
    RunStep(steps, j);
    CallGoesOn(Run(steps[..j]), steps[j], pid);
  }

  lemma CallBegins(s: Sys, step: Step)
    requires step.action.Invoke? && PcOf(s, step.pid).Idle? && !PcOf(Next(s, step), step.pid).Idle?
    ensures PcOf(Next(s, step), step.pid).inv == Now(s)
  {
  }

  lemma CallGoesOn(s: Sys, step: Step, pid: nat)
    requires !PcOf(s, pid).Idle? && !PcOf(Next(s, step), pid).Idle?
    ensures PcOf(Next(s, step), pid).inv == PcOf(s, pid).inv
  {
    NextShape(s, step);
  }

  /** When a call returns, its entry is in the log. */
  lemma ReturnAnswered(steps: seq<Step>, i: nat, t: nat)
    requires Returned(steps, i, t)
    ensures Answered(Run(steps[..t + 1]).log, i)
  {
    RunStep(steps, t);
    RunTracked(steps[..t]);
    var s, s', pid := Run(steps[..t]), Run(steps[..t + 1]), steps[i].pid;
    NextShape(s, steps[t]);
    assert PcTracked(s, steps[..t], pid);
    if i < t { InsideCall(steps, i, t); }
    if |s'.log| > |s.log| { assert s'.log[|s.log|].inv == i; }
    AnsweredGrows(s, s', i);
  }

  lemma {:induction false} LogGrows(steps: seq<Step>, t: nat)
    requires t <= |steps|
    ensures Run(steps[..t]).log <= Run(steps).log
    decreases |steps|
  {
    if t < |steps| {
      var front := steps[..|steps| - 1];
      LogGrows(front, t);
      assert front[..t] == steps[..t];
      NextShape(Run(front), steps[|steps| - 1]);
    } else {
      assert steps[..t] == steps;
    }
  }

  /** The call made at step i has exactly one entry, k, and what it did lies
    * between the call and step t. */
  ghost predicate EntryOfCall(steps: seq<Step>, i: nat, t: nat, k: nat)
    requires i < |steps| && steps[i].action.Invoke?
  {
    var s := Run(steps);
    && k < |s.log| && (forall l :: 0 <= l < |s.log| && s.log[l].inv == i ==> l == k)
    && s.log[k].pid == steps[i].pid && s.log[k].op == steps[i].action.op
    && i == s.log[k].inv <= s.log[k].lin <= s.log[k].noted <= t
    && Linearised(s, s.log[k])
  }

  /** Every call that returned has exactly one entry: it took effect at one step
    * between its call and its return, as the map store would. */
  lemma ReturnedCallsLinearise(steps: seq<Step>, i: nat, t: nat)
    requires AllStorable(steps) && Returned(steps, i, t)
    ensures exists k :: EntryOfCall(steps, i, t, k)
  {
    ReturnAnswered(steps, i, t);
    LogGrows(steps, t + 1);
    RunTracked(steps[..t + 1]);
    RunTracked(steps);
    RunInv(steps);
    var before, s := Run(steps[..t + 1]), Run(steps);
    var k :| 0 <= k < |before.log| && before.log[k].inv == i;
    assert EntryTracked(steps[..t + 1], before.log[k]) && EntryTracked(steps, s.log[k]);
    assert Linearised(s, s.log[k]);
    assert EntryOfCall(steps, i, t, k);
  }

  /** Real time, in terms of steps: a call that returned before another was made
    * took effect before it. */
  lemma ReturnedFirstTakesEffectFirst(steps: seq<Step>, i: nat, t: nat, e: Entry, f: Entry)
    requires AllStorable(steps) && Returned(steps, i, t) && e in Run(steps).log && f in Run(steps).log
    requires e.inv == i && t < f.inv
    ensures e.lin < f.lin
  {
    ReturnedCallsLinearise(steps, i, t);
    RealTimeOrder(steps, e, f);
  }

  /** While another process has the lock for writing, until it releases it, nobody
    * gets it; and a process may stop at any point but inside a purge. */
  lemma LockMakesWait(s: Sys, pid: nat, q: nat)
    requires q in s.pcs && q != pid
    requires var pc := s.pcs[q];
             (pc.Holding? || pc.Writing? || pc.Removing? || pc.Finished?) && !pc.op.Get? && !pc.op.GetActive?
    ensures PcOf(Next(s, Step(pid, Acquire)), pid) == PcOf(s, pid)
    ensures !PcOf(s, pid).Removing? ==> PcOf(Next(s, Step(pid, Crash)), pid) == Idle
    ensures Next(s, Step(pid, Crash)).disk == s.disk
  {
  }

  // ------------------------------------------------ a call left to itself

  /** The run goes on from s. */
  ghost function After(s: Sys, steps: seq<Step>): Sys
    decreases |steps|
  {
    if steps == [] then s else After(Next(s, steps[0]), steps[1..])
  }

  ghost predicate AllBy(steps: seq<Step>, pid: nat)
  {
    forall i :: 0 <= i < |steps| ==> steps[i].pid == pid
  }

  /** Steps of pid alone lead from s to s'. */
  ghost predicate Leads(s: Sys, pid: nat, s': Sys)
  {
    exists steps :: AllBy(steps, pid) && After(s, steps) == s'
  }

  lemma {:induction false} AfterConcat(s: Sys, a: seq<Step>, b: seq<Step>)
    ensures After(s, a + b) == After(After(s, a), b)
    decreases |a|
  {
    if a == [] {
      assert a + b == b;
    } else {
      var s1 := FirstStep(s, a[0]);
      AfterConcat(s1, a[1..], b);
      assert a == [a[0]] + a[1..] && a + b == [a[0]] + (a[1..] + b);
    }
  }

  lemma FirstStep(s: Sys, first: Step) returns (s1: Sys)
    ensures forall steps :: After(s, [first] + steps) == After(s1, steps)
  {
    s1 := Next(s, first);
    forall steps ensures After(s, [first] + steps) == After(s1, steps) { assert ([first] + steps)[1..] == steps; }
  }

  lemma OneStepLeads(s: Sys, pid: nat, action: Action)
    ensures Leads(s, pid, Next(s, Step(pid, action)))
  {
    var steps := [Step(pid, action)];
    assert steps[1..] == [];
    assert AllBy(steps, pid) && After(s, steps) == Next(s, Step(pid, action));
  }

  lemma LeadsOn(s: Sys, pid: nat, s1: Sys, s2: Sys)
    requires Leads(s, pid, s1) && Leads(s1, pid, s2)
    ensures Leads(s, pid, s2)
  {
    var a :| AllBy(a, pid) && After(s, a) == s1;
    var b :| AllBy(b, pid) && After(s1, b) == s2;
    AfterConcat(s, a, b);
    assert AllBy(a + b, pid) && After(s, a + b) == s2;
  }

  lemma StepOn(s: Sys, pid: nat, s1: Sys, action: Action)
    requires Leads(s, pid, s1)
    ensures Leads(s, pid, Next(s1, Step(pid, action)))
  {
    OneStepLeads(s1, pid, action);
    LeadsOn(s, pid, s1, Next(s1, Step(pid, action)));
  }

  /** The process has moved on inside its call, and only the lock file may have come. */
  ghost predicate MovedOn(s: Sys, pid: nat, s': Sys, pc: Pc)
  {
    && s'.pcs == s.pcs[pid := pc] && s'.abs == s.abs && s'.log == s.log
    && s'.disk.tickets == s.disk.tickets && s'.disk.session == s.disk.session
  }

  /** No other process holds the lock. */
  ghost predicate LockFree(s: Sys, pid: nat)
  {
    forall q :: q in s.pcs && q != pid ==> !HoldsLock(s.pcs[q])
  }

  /** The call has returned: the store is what the map store makes of it, and one
    * entry says what was answered. */
  ghost predicate Completed(s: Sys, pid: nat, op: Op, s': Sys)
  {
    && PcOf(s', pid).Idle? && s'.abs == Apply(s.abs, op).0
    && |s'.log| == |s.log| + 1 && s.log <= s'.log
    && var e := s'.log[|s.log|]; e.pid == pid && e.op == op && e.result == Apply(s.abs, op).1
  }

  lemma Opens(s: Sys, pid: nat, op: Op) returns (s': Sys)
    requires PcOf(s, pid).Idle? && (TakesID(op) ==> ValidID(op.sid))
    ensures Leads(s, pid, s')
    ensures IsWriter(op) || s.disk.lockFile ==> MovedOn(s, pid, s', Waiting(op, Now(s)))
    ensures !IsWriter(op) && !s.disk.lockFile ==> MovedOn(s, pid, s', Unlocked(op, Now(s), Now(s) + 1))
  {
    var s1 := Next(s, Step(pid, Invoke(op)));
    OneStepLeads(s, pid, Invoke(op));
    assert MovedOn(s, pid, s1, Opening(op, Now(s)));
    s' := Next(s1, Step(pid, Open));
    StepOn(s, pid, s1, Open);
  }

  lemma Acquires(s: Sys, pid: nat, op: Op) returns (s': Sys)
    requires PcOf(s, pid).Idle? && (TakesID(op) ==> ValidID(op.sid)) && LockFree(s, pid)
    requires IsWriter(op) || s.disk.lockFile
    ensures Leads(s, pid, s') && MovedOn(s, pid, s', Holding(op, Now(s)))
  {
    var s1 := Opens(s, pid, op);
    s' := Next(s1, Step(pid, Acquire));
    StepOn(s, pid, s1, Acquire);
    assert FlockFree(s1, pid, IsWriter(op));
  }

  lemma Releases(s: Sys, pid: nat, op: Op, s1: Sys, inv: nat) returns (s': Sys)
    requires Leads(s, pid, s1) && PcOf(s1, pid) == Finished(op, inv)
    requires s1.abs == Apply(s.abs, op).0 && |s1.log| == |s.log| + 1 && s.log <= s1.log
    requires var e := s1.log[|s.log|]; e.pid == pid && e.op == op && e.result == Apply(s.abs, op).1
    ensures Leads(s, pid, s') && Completed(s, pid, op, s')
  {
    s' := Next(s1, Step(pid, Release));
    StepOn(s, pid, s1, Release);
  }

  lemma PutAlone(s: Sys, pid: nat, op: Op) returns (s': Sys)
    requires (op.Put? || op.PutActive?) && PcOf(s, pid).Idle? && ValidID(op.sid) && LockFree(s, pid)
    ensures Leads(s, pid, s') && Completed(s, pid, op, s')
  {
    var s1 := Acquires(s, pid, op);
    var s2 := Next(s1, Step(pid, CreateTemp));
    StepOn(s, pid, s1, CreateTemp);
    assert MovedOn(s, pid, s2, Writing(op, Now(s), ""));
    var s3 := Next(s2, Step(pid, WriteMore(|Payload(op)|)));
    StepOn(s, pid, s2, WriteMore(|Payload(op)|));
    WholePayload(s, pid, s2, op, Now(s));
    var s4 := Next(s3, Step(pid, Rename));
    StepOn(s, pid, s3, Rename);
    s' := Releases(s, pid, op, s4, Now(s));
  }

  lemma WholePayload(s: Sys, pid: nat, s2: Sys, op: Op, inv: nat)
    requires MovedOn(s, pid, s2, Writing(op, inv, "")) && (op.Put? || op.PutActive?)
    ensures MovedOn(s, pid, Next(s2, Step(pid, WriteMore(|Payload(op)|))), Writing(op, inv, Payload(op)))
  {
    assert Payload(op)[..|Payload(op)|] == Payload(op);
  }

  lemma RemoveAlone(s: Sys, pid: nat, op: Op) returns (s': Sys)
    requires PcOf(s, pid).Idle? && (TakesID(op) ==> ValidID(op.sid)) && LockFree(s, pid)
    requires op.Delete? || op.ClearActive?
    ensures Leads(s, pid, s') && Completed(s, pid, op, s')
  {
    var s1 := Acquires(s, pid, op);
    var s2 := Next(s1, Step(pid, Remove));
    StepOn(s, pid, s1, Remove);
    s' := Releases(s, pid, op, s2, Now(s));
  }

  lemma ReadAlone(s: Sys, pid: nat, op: Op) returns (s': Sys)
    requires Inv(s) && PcOf(s, pid).Idle? && (TakesID(op) ==> ValidID(op.sid)) && LockFree(s, pid) && !IsWriter(op)
    ensures Leads(s, pid, s') && Completed(s, pid, op, s')
  {
    NoPurge(s, pid);
    ReadAgrees(s, op);
    if s.disk.lockFile {
      var s1 := Acquires(s, pid, op);
      var s2 := Next(s1, Step(pid, ReadLocked));
      StepOn(s, pid, s1, ReadLocked);
      s' := Releases(s, pid, op, s2, Now(s));
    } else {
      var s1 := Opens(s, pid, op);
      s' := Next(s1, Step(pid, ReadUnlocked));
      StepOn(s, pid, s1, ReadUnlocked);
    }
  }

  lemma NoPurge(s: Sys, pid: nat)
    requires LockFree(s, pid) && PcOf(s, pid).Idle?
    ensures !PurgeRunning(s)
  {
  }

  /** A purge takes the files away one by one. */
  lemma {:induction false} PurgeAlone(s: Sys, pid: nat, s1: Sys, pc: Pc) returns (s': Sys)
    requires Leads(s, pid, s1) && pc.Removing? && PcOf(s1, pid) == pc && s1.abs == s.abs && s1.log == s.log
    ensures Leads(s, pid, s') && PcOf(s', pid) == pc && s'.abs == s.abs && s'.log == s.log
    ensures s'.disk.tickets == map[]
    decreases s1.disk.tickets.Keys
  {
    if s1.disk.tickets == map[] {
      s' := s1;
    } else {
      var key :| key in s1.disk.tickets;
      var s2 := Next(s1, Step(pid, PurgeOne(key)));
      StepOn(s, pid, s1, PurgeOne(key));
      s' := PurgeAlone(s, pid, s2, pc);
    }
  }

  lemma ResetAlone(s: Sys, pid: nat) returns (s': Sys)
    requires PcOf(s, pid).Idle? && LockFree(s, pid)
    ensures Leads(s, pid, s') && Completed(s, pid, Reset, s')
  {
    var s1 := Acquires(s, pid, Reset);
    var s2 := Next(s1, Step(pid, StartPurge));
    StepOn(s, pid, s1, StartPurge);
    var s3 := PurgeAlone(s, pid, s2, Removing(Reset, Now(s)));
    var s4 := Next(s3, Step(pid, EndPurge));
    StepOn(s, pid, s3, EndPurge);
    s' := Releases(s, pid, Reset, s4, Now(s));
  }

  /** Every call can finish: whatever happened before, when no other process holds the
    * lock, the call's own steps bring it to its return, with the answer and the
    * effect of the map store. */
  lemma CallAloneCompletes(steps: seq<Step>, pid: nat, op: Op)
    requires AllStorable(steps) && PcOf(Run(steps), pid).Idle? && LockFree(Run(steps), pid)
    ensures exists s' :: Leads(Run(steps), pid, s') && Completed(Run(steps), pid, op, s')
  {
    var s := Run(steps);
    RunInv(steps);
    var s': Sys;
    if TakesID(op) && !ValidID(op.sid) {
      s' := Next(s, Step(pid, Invoke(op)));
      OneStepLeads(s, pid, Invoke(op));
    } else if op.Put? || op.PutActive? {
      s' := PutAlone(s, pid, op);
    } else if op.Reset? {
      s' := ResetAlone(s, pid);
    } else if op.Delete? || op.ClearActive? {
      s' := RemoveAlone(s, pid, op);
    } else {
      s' := ReadAlone(s, pid, op);
    }
    assert Leads(s, pid, s') && Completed(s, pid, op, s');
  }

  /** A value was written whole: some put of it took effect. */
  ghost predicate PutEarlier(log: seq<Entry>, t: nat, sid: string, v: string)
  {
    exists i :: 0 <= i < |log| && log[i].op == Put(sid, v) && log[i].result == Done && log[i].lin < t
  }

  ghost predicate ActiveEarlier(log: seq<Entry>, t: nat, v: string)
  {
    exists i :: 0 <= i < |log| && log[i].op == PutActive(v) && log[i].result == Done && log[i].lin < t
  }

  ghost predicate Sourced(s: Sys, t: nat)
  {
    && (forall sid :: sid in At(s, t).tickets ==> PutEarlier(s.log, t, sid, At(s, t).tickets[sid]))
    && (At(s, t).active != "" ==> ActiveEarlier(s.log, t, At(s, t).active))
  }

  lemma {:induction false} EveryValueSourced(s: Sys, t: nat)
    requires Inv(s) && At(s, 0) == EMPTY && t <= Now(s)
    ensures Sourced(s, t)
  {
    if t > 0 {
      EveryValueSourced(s, t - 1);
      assert Accounted(s, t - 1);
      if At(s, t - 1) != At(s, t) {
        var i :| 0 <= i < |s.log| && s.log[i].lin == t - 1;
        assert Linearised(s, s.log[i]);
        SourcedStep(s, t, i);
      } else {
        forall sid | sid in At(s, t).tickets ensures PutEarlier(s.log, t, sid, At(s, t).tickets[sid]) {
          assert PutEarlier(s.log, t - 1, sid, At(s, t).tickets[sid]);
        }
      }
    }
  }

  lemma SourcedStep(s: Sys, t: nat, i: nat)
    requires t > 0 && i < |s.log| && s.log[i].lin == t - 1 && Linearised(s, s.log[i]) && Sourced(s, t - 1)
    ensures Sourced(s, t)
  {
    var e, before, after := s.log[i], At(s, t - 1), At(s, t);
    forall sid | sid in after.tickets ensures PutEarlier(s.log, t, sid, after.tickets[sid]) {
      if sid in before.tickets && before.tickets[sid] == after.tickets[sid] {
        assert PutEarlier(s.log, t - 1, sid, after.tickets[sid]);
      } else {
        assert s.log[i].op == Put(sid, after.tickets[sid]);
      }
    }
    if after.active != "" && after.active != before.active {
      assert s.log[i].op == PutActive(after.active);
    }
  }

  lemma {:induction false} RunStartsEmpty(steps: seq<Step>)
    ensures At(Run(steps), 0) == EMPTY
  {
    if steps != [] { RunStartsEmpty(steps[..|steps| - 1]); }
  }

  /** No torn read: in every interleaving each Get and GetActive answers
    * not-found, or a value some earlier put wrote whole under that key. */
  lemma ReadsAreWhole(steps: seq<Step>, e: Entry)
    requires AllStorable(steps) && e in Run(steps).log
    ensures e.op.Get? && e.result != Invalid ==>
              e.result == NotFound || (e.result.Found? && PutEarlier(Run(steps).log, e.lin, e.op.sid, e.result.value))
    ensures e.op.GetActive? ==>
              e.result == NotFound || (e.result.Found? && ActiveEarlier(Run(steps).log, e.lin, e.result.value))
  {
    FilesystemRefinesMemory(steps, e);
    RunInv(steps);
    RunStartsEmpty(steps);
    EveryValueSourced(Run(steps), e.lin);
  }
}
