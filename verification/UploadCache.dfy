/** The MCP server's skill uploads (adapters/claudecode/mcpserver/main.go):
  * content-hash cache, scan of the skill roots, and the lock with one
  * registration retry, against a server that may restart and a network that
  * may lose requests. */
module UploadCache {
  import opened Text
  import opened PlanGraph
  import opened Scope
  import opened Skills

  /** A skill package found on disk: its front-matter name and its two files. */
  datatype Package = Package(name: string, md: string, rego: string)

  /** What happens to one request: the server may restart before it, and the
    * request or its reply may be lost. */
  datatype Outcome = Delivered | RequestLost | ReplyLost
  datatype Fate = Fate(restart: bool, outcome: Outcome)

  datatype Env = Env(
    compile: (string, string) -> Compiled,
    hash: string -> string,
    fate: nat -> Fate,
    printable: char -> bool)

  /** A lock reply as the client reads it: a rejection and a conflict answer both
    * carry their violations. */
  datatype Reply = Malformed | Rejected(violations: seq<Violation>) | Locked

  /** The server's registry, the client's cache, and the requests so far. */
  datatype World = World(registry: Registry, seen: map<string, string>, requests: nat, locks: nat)

  // ------------------------------------------------------ quoted names

  /** `strconv.Quote`, as fmt's %q prints a string. */
  function Quote(printable: char -> bool, s: string): string
  {
    "\"" + QuoteBody(printable, s) + "\""
  }

  function QuoteBody(printable: char -> bool, s: string): string
  {
    if s == "" then "" else QuoteChar(printable, s[0]) + QuoteBody(printable, s[1..])
  }

  function QuoteChar(printable: char -> bool, c: char): (q: string)
    ensures q == [c] || |q| >= 2
    ensures q == [c] <==> c != '"' && c != '\\' && printable(c)
    ensures c != '"' ==> '"' !in q
  {
    if c == '"' then "\\\""
    else if c == '\\' then "\\\\"
    else if printable(c) then [c]
    else if c == '\U{7}' then "\\a"
    else if c == '\U{8}' then "\\b"
    else if c == '\t' then "\\t"
    else if c == '\n' then "\\n"
    else if c == '\U{B}' then "\\v"
    else if c == '\U{C}' then "\\f"
    else if c == '\r' then "\\r"
    else if c < ' ' || c == '\U{7F}' then "\\x" + Hex(c as int, 2)
    else if c < '\U{10000}' then "\\u" + Hex(c as int, 4)
    else "\\U" + Hex(c as int, 8)
  }

  function Hex(n: nat, width: nat): (h: string)
    ensures '"' !in h
  {
    if width == 0 then "" else Hex(n / 16, width - 1) + ["0123456789abcdef"[n % 16]]
  }

  const LEAD := "plan declares skill_id "
  const MIDDLE := " but no published skill with that name is registered with the validation server for session "
  const TAIL := " (register it via POST /register_skill, "
                + "or start ppg with -skills pointing at the published skills directory)"

  /** The linter's message for an unknown skill. */
  function UnknownMessage(printable: char -> bool, sid: string, skillID: string): string
  {
    LEAD + Quote(printable, skillID) + MIDDLE + Quote(printable, sid) + TAIL
  }

  function MessageOf(printable: char -> bool): (string, string) -> string
  {
    (sid, skillID) => UnknownMessage(printable, sid, skillID)
  }

  /** The text between the first two double quotes, or "". */
  function FirstQuoted(msg: string): string
  {
    var parts := Split(msg, '"');
    if |parts| >= 3 then parts[1] else ""
  }

  /** `quotedName`. */
  method QuotedName(msg: string) returns (name: string)
    ensures name == FirstQuoted(msg)
  {
    var start := -1;
    for i := 0 to |msg|
      invariant -1 <= start <= i
      invariant start < 0 ==> '"' !in msg[..i]
      invariant start >= 0 ==> start > 0 && msg[start - 1] == '"' && '"' !in msg[..start - 1] && '"' !in msg[start..i]
    {
      if msg[i] != '"' {
        assert msg[..i + 1] == msg[..i] + [msg[i]];
        if start >= 0 { assert msg[start..i + 1] == msg[start..i] + [msg[i]]; }
        continue;
      }
      if start < 0 {
        start := i + 1;
        continue;
      }
      TwoQuotes(msg[..start - 1], msg[start..i], msg[i + 1..]);
      assert msg == msg[..start - 1] + ['"'] + msg[start..i] + ['"'] + msg[i + 1..];
      return msg[start..i];
    }
    assert msg[..|msg|] == msg;
    FewQuotes(msg, start);
    return "";
  }

  lemma TwoQuotes(a: string, b: string, c: string)
    requires '"' !in a && '"' !in b
    ensures FirstQuoted(a + ['"'] + b + ['"'] + c) == b
  {
    SplitNoSeparator(a, '"');
    SplitNoSeparator(b, '"');
    assert a + ['"'] + b + ['"'] + c == a + ['"'] + (b + ['"'] + c);
    SplitConcat(a, '"', b + ['"'] + c);
    SplitConcat(b, '"', c);
  }

  lemma FewQuotes(msg: string, start: int)
    requires start < 0 ==> '"' !in msg
    requires start >= 0 ==>
               0 < start <= |msg| && msg[start - 1] == '"' && '"' !in msg[..start - 1] && '"' !in msg[start..]
    ensures FirstQuoted(msg) == ""
  {
    if start < 0 {
      SplitNoSeparator(msg, '"');
    } else {
      var a, b := msg[..start - 1], msg[start..];
      assert msg == a + ['"'] + b;
      SplitConcat(a, '"', b);
      SplitNoSeparator(a, '"');
      SplitNoSeparator(b, '"');
    }
  }

  /** A name %q prints without escapes. */
  ghost predicate Plain(printable: char -> bool, name: string)
  {
    forall i :: 0 <= i < |name| ==> name[i] != '"' && name[i] != '\\' && printable(name[i])
  }

  lemma {:induction false} QuoteBodyFacts(printable: char -> bool, s: string)
    ensures '"' !in s ==> '"' !in QuoteBody(printable, s)
    ensures |QuoteBody(printable, s)| >= |s|
    ensures Plain(printable, s) ==> QuoteBody(printable, s) == s
    ensures !Plain(printable, s) ==> |QuoteBody(printable, s)| > |s|
  {
    if s != "" {
      QuoteBodyFacts(printable, s[1..]);
      assert s == [s[0]] + s[1..];
    }
  }

  lemma NameRecovered(printable: char -> bool, lead: string, name: string, rest: string)
    requires '"' !in lead
    ensures FirstQuoted(lead + Quote(printable, name) + rest) == name <==> Plain(printable, name)
  {
    var body := QuoteBody(printable, name);
    var msg := lead + Quote(printable, name) + rest;
    QuoteBodyFacts(printable, name);
    if '"' in name {
      SplitPartsClean(msg, '"');
      assert '"' !in FirstQuoted(msg);
    } else {
      assert msg == lead + ['"'] + body + ['"'] + rest;
      TwoQuotes(lead, body, rest);
    }
  }

  lemma Regroup(a: string, b: string, c: string, d: string, e: string)
    ensures a + b + c + d + e == a + b + (c + d + e)
  {
  }

  /** The client recovers the skill name from the message exactly when the name
    * needs no escaping. */
  lemma NameRecoveredIff(printable: char -> bool, sid: string, name: string)
    ensures FirstQuoted(UnknownMessage(printable, sid, name)) == name <==> Plain(printable, name)
  {
    Regroup(LEAD, Quote(printable, name), MIDDLE, Quote(printable, sid), TAIL);
    NameRecovered(printable, LEAD, name, MIDDLE + Quote(printable, sid) + TAIL);
  }

  // --------------------------------------------------------- the server

  /** `handleRegisterSkill`: blank names are refused, and so is a module that
    * does not compile; an accepted upload replaces the session's previous one. */
  function CompanionOf(env: Env, sid: string, p: Package): Option<Companion>
  {
    if TrimSpace(sid) == "" || TrimSpace(p.name) == "" then None
    else if p.rego == "" then Some(None)
    else match env.compile(p.name, p.rego)
      case Compiles(ev) => Some(Some(ev))
      case CompileError(_) => None
  }

  ghost predicate Accepted(env: Env, sid: string, p: Package)
  {
    CompanionOf(env, sid, p).Some?
  }

  function Posted(env: Env, r: Registry, sid: string, p: Package): Registry
  {
    match CompanionOf(env, sid, p)
    case Some(companion) => Registered(r, sid, p.name, companion)
    case None => r
  }

  function AtRequest(env: Env, w: World): Registry
  {
    if env.fate(w.requests).restart then w.registry.(sessions := map[]) else w.registry
  }

  /** `handleLockInPlan`, as far as the client's retry can see. */
  ghost function LockReply(env: Env, r: Registry, p: Plan): Reply
  {
    if !WellStructured(p) then Malformed
    else
      var vs := PlanVerdict(r, MessageOf(env.printable), p);
      if vs == [] then Locked else Rejected(vs)
  }

  // ----------------------------------------------------- uploads, as values

  function Key(sid: string, name: string): string
  {
    sid + "|" + name
  }

  function Digest(env: Env, p: Package): string
  {
    env.hash(p.md + p.rego)
  }

  /** One package of a scan: skip it if the cache has its digest, else cache the
    * digest and POST. The cache is written before the outcome is known. */
  function Upload(env: Env, w: World, sid: string, p: Package): World
  {
    var key := Key(sid, p.name);
    if key in w.seen && w.seen[key] == Digest(env, p) then w
    else
      var r := AtRequest(env, w);
      World(if env.fate(w.requests).outcome == RequestLost then r else Posted(env, r, sid, p),
            w.seen[key := Digest(env, p)], w.requests + 1, w.locks)
  }

  function UploadAll(env: Env, w: World, sid: string, ps: seq<Package>): World
  {
    if ps == [] then w else Upload(env, UploadAll(env, w, sid, ps[..|ps| - 1]), sid, ps[|ps| - 1])
  }

  /** All packages in scan order: root after root, ascending precedence. */
  function AllPackages(roots: seq<seq<Package>>): seq<Package>
  {
    if roots == [] then [] else AllPackages(roots[..|roots| - 1]) + roots[|roots| - 1]
  }

  /** The uncached pass: POST everything, every time. */
  function PostAll(env: Env, r: Registry, sid: string, ps: seq<Package>): Registry
  {
    if ps == [] then r else Posted(env, PostAll(env, r, sid, ps[..|ps| - 1]), sid, ps[|ps| - 1])
  }

  function Forgotten(seen: map<string, string>, sid: string, name: string): map<string, string>
  {
    if name != "" then seen - {Key(sid, name)}
    else map k | k in seen && !HasPrefix(k, sid + "|") :: seen[k]
  }

  function ForgottenAll(seen: map<string, string>, sid: string, names: seq<string>): map<string, string>
  {
    if names == [] then seen else Forgotten(ForgottenAll(seen, sid, names[..|names| - 1]), sid, names[|names| - 1])
  }

  function UnknownIn(violations: seq<Violation>): seq<string>
  {
    if violations == [] then []
    else
      var v := violations[|violations| - 1];
      UnknownIn(violations[..|violations| - 1]) + if v.policyID == UNKNOWN_SKILL then [FirstQuoted(v.message)] else []
  }

  function UnknownNames(reply: Reply): seq<string>
  {
    if reply.Rejected? then UnknownIn(reply.violations) else []
  }

  /** One lock request; None is a transport error. */
  ghost function LockSent(env: Env, w: World, p: Plan): (World, Option<Reply>)
  {
    var r := AtRequest(env, w);
    (w.(registry := r, requests := w.requests + 1, locks := w.locks + 1),
     if env.fate(w.requests).outcome == Delivered then Some(LockReply(env, r, p)) else None)
  }

  /** `lockWithRegistrationRetry`. */
  ghost function LockWithRetry(env: Env, w: World, roots: seq<seq<Package>>, p: Plan): (World, Option<Reply>)
  {
    var sid, ps := p.sessionID, AllPackages(roots);
    var w1 := if sid != "" then UploadAll(env, w, sid, ps) else w;
    var (w2, reply) := LockSent(env, w1, p);
    if reply.None? || sid == "" || UnknownNames(reply.value) == [] then (w2, reply)
    else
      var w3 := w2.(seen := ForgottenAll(w2.seen, sid, UnknownNames(reply.value)));
      LockSent(env, UploadAll(env, w3, sid, ps), p)
  }

  /** What forgetting drops: one entry, or for an empty name all of the session. */
  lemma ForgottenIs(seen: map<string, string>, sid: string, name: string, k: string)
    ensures var kept := Forgotten(seen, sid, name);
            && (k in kept <==> k in seen && k != sid + "|" + name && (name == "" ==> !(sid + "|" <= k)))
            && (k in kept ==> kept[k] == seen[k])
  {
  }

  // ----------------------------------------------------------- the objects

  /** The server's side of a lock request. */
  method HandleLock(env: Env, r: Registry, p: Plan) returns (reply: Reply)
    ensures reply == LockReply(env, r, p)
  {
    var structure := ValidateStructure(p);
    if structure.Some? { return Malformed; }
    var violations := PlanVerdict(r, MessageOf(env.printable), p);
    if violations == [] { return Locked; }
    return Rejected(violations);
  }

  class SkillRegistrationCache {
    var seen: map<string, string>

    constructor ()
      ensures seen == map[]
    {
      seen := map[];
    }

    method ShouldSkip(sid: string, name: string, digest: string) returns (skip: bool)
      modifies this
      ensures skip <==> Key(sid, name) in old(seen) && old(seen)[Key(sid, name)] == digest
      ensures seen == if skip then old(seen) else old(seen)[Key(sid, name) := digest]
    {
      var key := Key(sid, name);
      if key in seen && seen[key] == digest { return true; }
      seen := seen[key := digest];
      return false;
    }

    /** `forget`: an empty name drops every entry of the session. */
    method Forget(sid: string, name: string)
      modifies this
      ensures seen == Forgotten(old(seen), sid, name)
    {
      if name != "" {
        seen := seen - {Key(sid, name)};
        return;
      }
      var prefix := sid + "|";
      ghost var before := seen;
      var todo := seen.Keys;
      while todo != {}
        invariant todo <= before.Keys
        invariant seen.Keys == set k | k in before && (k in todo || !HasPrefix(k, prefix))
        invariant forall k :: k in seen ==> seen[k] == before[k]
        decreases todo
      {
        var k :| k in todo;
        todo := todo - {k};
        if HasPrefix(k, prefix) { seen := seen - {k}; }
      }
      assert seen == Forgotten(before, sid, name);
    }
  }

  /** The validation server behind the network. */
  class Gateway {
    const env: Env
    var registry: Registry
    var requests: nat
    var locks: nat

    constructor (env: Env, registry: Registry)
      ensures this.env == env && this.registry == registry && requests == 0 && locks == 0
    {
      this.env, this.registry, requests, locks := env, registry, 0, 0;
    }

    method Arrive() returns (fate: Fate)
      modifies this
      ensures fate == env.fate(old(requests)) && requests == old(requests) + 1 && locks == old(locks)
      ensures registry == if fate.restart then old(registry).(sessions := map[]) else old(registry)
    {
      fate := env.fate(requests);
      requests := requests + 1;
      if fate.restart { registry := registry.(sessions := map[]); }
    }
  }

  class Client {
    const gateway: Gateway
    const cache: SkillRegistrationCache

    constructor (gateway: Gateway)
      ensures this.gateway == gateway && fresh(cache) && cache.seen == map[]
    {
      this.gateway := gateway;
      cache := new SkillRegistrationCache();
    }

    ghost function Now(): World
      reads gateway, cache
    {
      World(gateway.registry, cache.seen, gateway.requests, gateway.locks)
    }

    /** The loop of `scanSkillDir` over one root. */
    method ScanSkillDir(sid: string, packages: seq<Package>)
      modifies gateway, cache
      ensures Now() == UploadAll(gateway.env, old(Now()), sid, packages)
    {
      for i := 0 to |packages|
        invariant Now() == UploadAll(gateway.env, old(Now()), sid, packages[..i])
      {
        var p := packages[i];
        assert packages[..i + 1][..i] == packages[..i];
        var skip := cache.ShouldSkip(sid, p.name, Digest(gateway.env, p));
        if skip { continue; }
        var fate := gateway.Arrive();
        if fate.outcome == RequestLost { continue; }
        gateway.registry := Posted(gateway.env, gateway.registry, sid, p);
      }
      assert packages[..|packages|] == packages;
    }

    method RegisterLocalSkills(sid: string, roots: seq<seq<Package>>)
      modifies gateway, cache
      ensures Now() == UploadAll(gateway.env, old(Now()), sid, AllPackages(roots))
    {
      for i := 0 to |roots|
        invariant Now() == UploadAll(gateway.env, old(Now()), sid, AllPackages(roots[..i]))
      {
        assert roots[..i + 1][..i] == roots[..i];
        UploadAllConcat(gateway.env, old(Now()), sid, AllPackages(roots[..i]), roots[i]);
        ScanSkillDir(sid, roots[i]);
      }
      assert roots[..|roots|] == roots;
    }

    /** `forwardOnce` to /lock_in_plan. */
    method ForwardLock(p: Plan) returns (reply: Option<Reply>)
      modifies gateway
      ensures (Now(), reply) == LockSent(gateway.env, old(Now()), p)
    {
      ghost var was := Now();
      var fate := gateway.Arrive();
      gateway.locks := gateway.locks + 1;
      assert Now() == LockSent(gateway.env, was, p).0;
      var answer := HandleLock(gateway.env, gateway.registry, p);
      if fate.outcome != Delivered { return None; }
      return Some(answer);
    }

    method UnknownSkillsIn(reply: Reply) returns (names: seq<string>)
      ensures names == UnknownNames(reply)
    {
      names := [];
      if !reply.Rejected? { return; }
      var vs := reply.violations;
      for i := 0 to |vs|
        invariant names == UnknownIn(vs[..i])
      {
        assert vs[..i + 1][..i] == vs[..i];
        if vs[i].policyID != UNKNOWN_SKILL { continue; }
        var name := QuotedName(vs[i].message);
        names := names + [name];
      }
      assert vs[..|vs|] == vs;
    }

    method ForgetUnknown(sid: string, names: seq<string>)
      modifies cache
      ensures cache.seen == ForgottenAll(old(cache.seen), sid, names)
    {
      for i := 0 to |names|
        invariant cache.seen == ForgottenAll(old(cache.seen), sid, names[..i])
      {
        assert names[..i + 1][..i] == names[..i];
        cache.Forget(sid, names[i]);
      }
      assert names[..|names|] == names;
    }

    method LockWithRegistrationRetry(roots: seq<seq<Package>>, p: Plan) returns (reply: Option<Reply>)
      modifies gateway, cache
      ensures (Now(), reply) == LockWithRetry(gateway.env, old(Now()), roots, p)
    {
      var sid := p.sessionID;
      if sid != "" { RegisterLocalSkills(sid, roots); }
      reply := ForwardLock(p);
      if reply.None? || sid == "" { return; }
      var unknown := UnknownSkillsIn(reply.value);
      if |unknown| == 0 { return; }
      ForgetUnknown(sid, unknown);
      RegisterLocalSkills(sid, roots);
      reply := ForwardLock(p);
    }
  }

  lemma {:induction false} UploadAllConcat(env: Env, w: World, sid: string, a: seq<Package>, b: seq<Package>)
    ensures UploadAll(env, w, sid, a + b) == UploadAll(env, UploadAll(env, w, sid, a), sid, b)
  {
    if b == [] {
      assert a + b == a;
    } else {
      UploadAllConcat(env, w, sid, a, b[..|b| - 1]);
      assert (a + b)[..|a + b| - 1] == a + b[..|b| - 1] && (a + b)[|a + b| - 1] == b[|b| - 1];
    }
  }
}
