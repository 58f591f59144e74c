/** What the upload cache and the registration retry guarantee
  * (adapters/claudecode/mcpserver/main.go). */
module SelfHeal {
  import opened Text
  import opened PlanGraph
  import opened Scope
  import opened Skills
  import opened UploadCache

  // ------------------------------------------- cached equals uncached

  /** Request k reaches a server that has not restarted, and its reply returns. */
  ghost predicate Fine(env: Env, k: nat)
  {
    env.fate(k) == Fate(false, Delivered)
  }

  ghost predicate FineBetween(env: Env, from: nat, to: nat)
  {
    forall k :: from <= k < to ==> Fine(env, k)
  }

  /** On these packages, an equal hash of both files means an equal policy. */
  ghost predicate DigestDetermined(env: Env, known: set<Package>)
  {
    forall p, q :: p in known && q in known && p.name == q.name && p.rego != q.rego ==>
      env.hash(p.md + p.rego) != env.hash(q.md + q.rego)
  }

  /** The cache entry of (sid, p) carries the digest of p. */
  ghost predicate Cached(env: Env, seen: map<string, string>, sid: string, p: Package)
  {
    Key(sid, p.name) in seen && seen[Key(sid, p.name)] == Digest(env, p)
  }

  /** Neither session id is the other followed by a bar: then their cache keys
    * cannot meet. */
  predicate Apart(sid: string, sid': string)
  {
    sid == sid' || !(sid + "|" <= sid' || sid' + "|" <= sid)
  }

  ghost predicate AllApart(sids: set<string>)
  {
    forall sid, sid' :: sid in sids && sid' in sids ==> Apart(sid, sid')
  }

  /** Whatever the cache would skip, posting it again would change nothing. */
  ghost predicate CacheFaithful(env: Env, seen: map<string, string>, r: Registry, sids: set<string>,
                                known: set<Package>)
  {
    forall sid, p :: sid in sids && p in known && Cached(env, seen, sid, p) ==> Posted(env, r, sid, p) == r
  }

  /** The cache keys of two sessions can meet exactly when they are not apart. */
  lemma KeysMeetIff(sid: string, sid': string)
    ensures Apart(sid, sid') <==>
              forall name, name' :: Key(sid, name) == Key(sid', name') ==> sid == sid' && name == name'
  {
    if Apart(sid, sid') {
      forall name, name' | Key(sid, name) == Key(sid', name') ensures sid == sid' && name == name' {
        KeysDiffer(sid, name, sid', name');
      }
    } else if sid + "|" <= sid' {
      LongerSession(sid, sid', "");
      assert Key(sid, sid'[|sid| + 1..] + "|") == Key(sid', "");
    } else {
      LongerSession(sid', sid, "");
      assert Key(sid', sid[|sid'| + 1..] + "|") == Key(sid, "");
    }
  }

  lemma KeysDiffer(sid: string, name: string, sid': string, name': string)
    requires Apart(sid, sid') && Key(sid, name) == Key(sid', name')
    ensures sid == sid' && name == name'
  {
    var k := Key(sid, name);
    assert k[|sid| + 1..] == name && k[|sid'| + 1..] == name';
    assert sid == k[..|sid|] && sid' == k[..|sid'|];
    assert sid + "|" == k[..|sid| + 1] && sid' + "|" == k[..|sid'| + 1];
  }

  /** A session continuing another past a bar shares the key of a longer name. */
  lemma LongerSession(sid: string, longer: string, name: string)
    requires sid + "|" <= longer
    ensures Key(sid, longer[|sid| + 1..] + "|" + name) == Key(longer, name)
  {
    assert longer == sid + "|" + longer[|sid| + 1..];
    assert sid + "|" + (longer[|sid| + 1..] + "|" + name) == (sid + "|" + longer[|sid| + 1..]) + "|" + name;
  }

  lemma BarFreeApart(sid: string, sid': string)
    requires '|' !in sid && '|' !in sid'
    ensures Apart(sid, sid')
  {
    assert (sid + "|")[|sid|] == '|' && (sid' + "|")[|sid'|] == '|';
  }

  /** The entry an upload leaves, and exactly when it matters: a scan of p, with the
    * entry of a scan of q under its name in the cache, sends a request if and only
    * if the hashes of both files, taken whole, differ. */
  lemma SendsIffContentDiffers(env: Env, w: World, v: World, sid: string, q: Package, p: Package)
    requires Key(sid, p.name) in w.seen && p.name == q.name
    requires w.seen[Key(sid, p.name)] == Upload(env, v, sid, q).seen[Key(sid, q.name)]
    ensures var w' := Upload(env, w, sid, p);
            if env.hash(p.md + p.rego) == env.hash(q.md + q.rego) then w' == w
            else w'.requests == w.requests + 1 && w'.locks == w.locks
                 && w'.seen == w.seen[Key(sid, p.name) := env.hash(p.md + p.rego)]
  {
  }

  /** What a request does to the server: a restart empties the sessions first; an
    * upload that arrives registers the policy compiled from the package if the
    * names are not blank and it compiles, even when the reply is lost. */
  lemma UploadRegistersPolicy(env: Env, w: World, sid: string, p: Package)
    requires !Cached(env, w.seen, sid, p)
    ensures var w', fate := Upload(env, w, sid, p), env.fate(w.requests);
            var r := if fate.restart then w.registry.(sessions := map[]) else w.registry;
            var takes := TrimSpace(sid) != "" && TrimSpace(p.name) != ""
                         && (p.rego == "" || env.compile(p.name, p.rego).Compiles?);
            w'.registry ==
              if fate.outcome == RequestLost || !takes then r
              else Registered(r, sid, p.name,
                              if p.rego == "" then None else Some(env.compile(p.name, p.rego).evaluator))
  {
  }

  /** Moving text between the two files keeps the digest: such an edit is never
    * uploaded. */
  lemma MovedTextIsSkipped(env: Env, w: World, sid: string, p: Package, q: Package)
    requires p.name == q.name && p.md + p.rego == q.md + q.rego
    ensures Upload(env, Upload(env, w, sid, p), sid, q) == Upload(env, w, sid, p)
  {
  }

  lemma SamePolicySamePost(env: Env, r: Registry, sid: string, p: Package, q: Package)
    requires p.name == q.name && p.rego == q.rego
    ensures Posted(env, Posted(env, r, sid, p), sid, q) == Posted(env, r, sid, p)
  {
    if Accepted(env, sid, p) {
      PostIdempotent(r, sid, p.name, CompanionOf(env, sid, p).value);
    }
  }

  lemma PostIdempotent(r: Registry, sid: string, name: string, c: Companion)
    ensures Registered(Registered(r, sid, name, c), sid, name, c) == Registered(r, sid, name, c)
  {
    var once := Registered(r, sid, name, c);
    assert Uploads(once, sid) == Uploads(r, sid)[name := c];
    assert Uploads(once, sid)[name := c] == Uploads(once, sid);
    assert once.sessions[sid := Uploads(once, sid)] == once.sessions;
  }

  lemma RegisteredStays(r: Registry, sid: string, name: string, c: Companion, sid': string, name': string,
                        c': Companion)
    requires Registered(r, sid', name', c') == r
    requires sid != sid' || name != name'
    ensures Registered(Registered(r, sid, name, c), sid', name', c') == Registered(r, sid, name, c)
  {
    var after := Registered(r, sid, name, c);
    assert sid' in r.sessions && name' in r.sessions[sid'] && r.sessions[sid'][name'] == c';
    assert sid' in after.sessions && name' in after.sessions[sid'] && after.sessions[sid'][name'] == c';
    assert after.sessions[sid'][name' := c'] == after.sessions[sid'];
    assert after.sessions[sid' := after.sessions[sid']] == after.sessions;
  }

  lemma OtherPostStays(env: Env, r: Registry, sid: string, p: Package, sid': string, q: Package)
    requires Posted(env, r, sid', q) == r
    requires sid != sid' || p.name != q.name
    ensures Posted(env, Posted(env, r, sid, p), sid', q) == Posted(env, r, sid, p)
  {
    if Accepted(env, sid, p) && Accepted(env, sid', q) {
      RegisteredStays(r, sid, p.name, CompanionOf(env, sid, p).value, sid', q.name, CompanionOf(env, sid', q).value);
    }
  }

  lemma UploadRefines(env: Env, w: World, sid: string, p: Package, sids: set<string>, known: set<Package>)
    requires AllApart(sids) && sid in sids && p in known && DigestDetermined(env, known)
    requires CacheFaithful(env, w.seen, w.registry, sids, known)
    requires Upload(env, w, sid, p).requests > w.requests ==> Fine(env, w.requests)
    ensures Upload(env, w, sid, p).registry == Posted(env, w.registry, sid, p)
    ensures CacheFaithful(env, Upload(env, w, sid, p).seen, Upload(env, w, sid, p).registry, sids, known)
  {
    var w' := Upload(env, w, sid, p);
    if !Cached(env, w.seen, sid, p) {
      forall sid', q | sid' in sids && q in known && Cached(env, w'.seen, sid', q)
        ensures Posted(env, w'.registry, sid', q) == w'.registry
      {
        KeysMeetIff(sid, sid');
        if sid == sid' && p.name == q.name {
          SamePolicySamePost(env, w.registry, sid, p, q);
        } else {
          assert Cached(env, w.seen, sid', q);
          OtherPostStays(env, w.registry, sid, p, sid', q);
        }
      }
    }
  }

  lemma {:induction false} PassRefines(env: Env, w: World, sid: string, ps: seq<Package>, sids: set<string>,
                                       known: set<Package>)
    requires AllApart(sids) && sid in sids && Elements(ps) <= known && DigestDetermined(env, known)
    requires CacheFaithful(env, w.seen, w.registry, sids, known)
    requires forall k :: w.requests <= k < UploadAll(env, w, sid, ps).requests ==> Fine(env, k)
    ensures UploadAll(env, w, sid, ps).registry == PostAll(env, w.registry, sid, ps)
    ensures CacheFaithful(env, UploadAll(env, w, sid, ps).seen, UploadAll(env, w, sid, ps).registry, sids, known)
    ensures w.requests <= UploadAll(env, w, sid, ps).requests
  {
    if ps != [] {
      var front, last := ps[..|ps| - 1], ps[|ps| - 1];
      assert last in ps && Elements(front) <= known;
      RequestsGrow(env, w, sid, front);
      PassRefines(env, w, sid, front, sids, known);
      UploadRefines(env, UploadAll(env, w, sid, front), sid, last, sids, known);
    }
  }

  lemma {:induction false} RequestsGrow(env: Env, w: World, sid: string, ps: seq<Package>)
    ensures w.requests <= UploadAll(env, w, sid, ps).requests && UploadAll(env, w, sid, ps).locks == w.locks
  {
    if ps != [] { RequestsGrow(env, w, sid, ps[..|ps| - 1]); }
  }

  /** A run of scan passes, each for a session over the packages on disk then. */
  datatype Pass = Pass(sid: string, packages: seq<Package>)

  function Passes(env: Env, w: World, passes: seq<Pass>): World
  {
    if passes == [] then w
    else
      var last := passes[|passes| - 1];
      UploadAll(env, Passes(env, w, passes[..|passes| - 1]), last.sid, last.packages)
  }

  function PlainPasses(env: Env, r: Registry, passes: seq<Pass>): Registry
  {
    if passes == [] then r
    else
      var last := passes[|passes| - 1];
      PostAll(env, PlainPasses(env, r, passes[..|passes| - 1]), last.sid, last.packages)
  }

  /** From a fresh client, over any run of passes with no restart and no lost
    * request, for sessions whose keys cannot meet, the cache leaves the server exactly as uploading everything on
    * every pass would. */
  lemma {:induction false} CachedEqualsUncached(env: Env, w: World, passes: seq<Pass>, sids: set<string>,
                                                known: set<Package>)
    requires w.seen == map[] && AllApart(sids) && DigestDetermined(env, known)
    requires forall i :: 0 <= i < |passes| ==> passes[i].sid in sids && Elements(passes[i].packages) <= known
    requires forall k :: w.requests <= k < Passes(env, w, passes).requests ==> Fine(env, k)
    ensures Passes(env, w, passes).registry == PlainPasses(env, w.registry, passes)
    ensures CacheFaithful(env, Passes(env, w, passes).seen, Passes(env, w, passes).registry, sids, known)
    ensures w.requests <= Passes(env, w, passes).requests
  {
    if passes != [] {
      var front, last := passes[..|passes| - 1], passes[|passes| - 1];
      var before := Passes(env, w, front);
      RequestsGrow(env, before, last.sid, last.packages);
      CachedEqualsUncached(env, w, front, sids, known);
      PassRefines(env, before, last.sid, last.packages, sids, known);
    }
  }

  /** And the sessions must be apart: when one continues another past a bar, a
    * package of the first can hide one of the second with the same contents, which
    * is then never uploaded. */
  lemma MeetingKeysLoseAnUpload(env: Env, w: World, sid: string, longer: string, q: Package)
    requires sid + "|" <= longer && w.seen == map[] && Fine(env, w.requests)
    requires Accepted(env, longer, q) && q.name !in Uploads(w.registry, longer)
    ensures var p := q.(name := longer[|sid| + 1..] + "|" + q.name);
            var passes := [Pass(sid, [p]), Pass(longer, [q])];
            && q.name !in Uploads(Passes(env, w, passes).registry, longer)
            && q.name in Uploads(PlainPasses(env, w.registry, passes), longer)
  {
    var p := q.(name := longer[|sid| + 1..] + "|" + q.name);
    var passes := [Pass(sid, [p]), Pass(longer, [q])];
    LongerSession(sid, longer, q.name);
    assert passes[..1] == [Pass(sid, [p])] && passes[..1][..0] == [];
    OnePackage(env, w, sid, p);
    var w1 := Upload(env, w, sid, p);
    assert Passes(env, w, passes[..1]) == w1;
    OnePackage(env, w1, longer, q);
    assert Passes(env, w, passes) == w1;
  }

  lemma OnePackage(env: Env, w: World, sid: string, p: Package)
    ensures UploadAll(env, w, sid, [p]) == Upload(env, w, sid, p)
    ensures PostAll(env, w.registry, sid, [p]) == Posted(env, w.registry, sid, p)
  {
    assert [p][..0] == [];
  }

  /** Highest precedence wins: after a pass, a name maps to its last accepted
    * package in scan order. */
  lemma {:induction false} LastRootWins(env: Env, r: Registry, sid: string, ps: seq<Package>, i: nat)
    requires i < |ps| && Accepted(env, sid, ps[i])
    requires forall j :: i < j < |ps| && ps[j].name == ps[i].name ==> !Accepted(env, sid, ps[j])
    ensures ps[i].name in Uploads(PostAll(env, r, sid, ps), sid)
    ensures Uploads(PostAll(env, r, sid, ps), sid)[ps[i].name] == CompanionOf(env, sid, ps[i]).value
  {
    var last := ps[|ps| - 1];
    if i < |ps| - 1 {
      assert ps[..|ps| - 1][i] == ps[i];
      LastRootWins(env, r, sid, ps[..|ps| - 1], i);
    }
  }

  /** Between roots: packages of a later root come after those of an earlier one. */
  lemma {:induction false} LaterRootLater(roots: seq<seq<Package>>, i: nat, k: nat) returns (n: nat)
    requires i < |roots| && k < |roots[i]|
    ensures n < |AllPackages(roots)| && AllPackages(roots)[n] == roots[i][k]
    ensures forall m :: n < m < |AllPackages(roots)| ==>
                          AllPackages(roots)[m] in roots[i][k + 1..] || InLater(roots, i, AllPackages(roots)[m])
  {
    var last := |roots| - 1;
    var front := AllPackages(roots[..last]);
    if i == last {
      n := |front| + k;
      forall m | n < m < |AllPackages(roots)| ensures AllPackages(roots)[m] in roots[i][k + 1..] {
        assert AllPackages(roots)[m] == roots[i][k + 1..][m - n - 1];
      }
    } else {
      n := LaterRootLater(roots[..last], i, k);
      forall m | n < m < |AllPackages(roots)|
        ensures AllPackages(roots)[m] in roots[i][k + 1..] || InLater(roots, i, AllPackages(roots)[m])
      {
        if m >= |front| { assert roots[last][m - |front|] == AllPackages(roots)[m]; }
      }
    }
  }

  ghost predicate InLater(roots: seq<seq<Package>>, i: nat, p: Package)
  {
    exists j :: i < j < |roots| && p in roots[j]
  }

  /** So a project's own skill wins over a user-wide one of its name: after a pass the
    * name maps to its last accepted package in the last root that has one. */
  lemma HigherRootWins(env: Env, r: Registry, sid: string, roots: seq<seq<Package>>, i: nat, k: nat)
    requires i < |roots| && k < |roots[i]| && Accepted(env, sid, roots[i][k])
    requires forall q: Package :: q.name == roots[i][k].name && (q in roots[i][k + 1..] || InLater(roots, i, q)) ==>
                           !Accepted(env, sid, q)
    ensures var name := roots[i][k].name; var uploads := Uploads(PostAll(env, r, sid, AllPackages(roots)), sid);
            name in uploads && uploads[name] == CompanionOf(env, sid, roots[i][k]).value
  {
    var n := LaterRootLater(roots, i, k);
    LastRootWins(env, r, sid, AllPackages(roots), n);
  }

  /** A pass touches nothing but the names it uploads for its session. */
  lemma {:induction false} PassTouchesOnlyItsNames(env: Env, r: Registry, sid: string, ps: seq<Package>, other: string,
                                                   name: string)
    requires other != sid || forall p :: p in ps ==> p.name != name || !Accepted(env, sid, p)
    ensures name in Uploads(PostAll(env, r, sid, ps), other) <==> name in Uploads(r, other)
    ensures name in Uploads(r, other) ==> Uploads(PostAll(env, r, sid, ps), other)[name] == Uploads(r, other)[name]
  {
    if ps != [] {
      assert ps[|ps| - 1] in ps;
      PassTouchesOnlyItsNames(env, r, sid, ps[..|ps| - 1], other, name);
    }
  }

  // ------------------------------------------------------------ self-heal

  /** What a lock request does: a restart empties the sessions first, the registry is
    * otherwise untouched, and the client has an answer exactly when request and reply
    * arrive. */
  lemma LockRequestIs(env: Env, w: World, p: Plan)
    ensures var (w', reply) := LockSent(env, w, p); var fate := env.fate(w.requests);
            && w'.registry == (if fate.restart then w.registry.(sessions := map[]) else w.registry)
            && w'.seen == w.seen && w'.requests == w.requests + 1 && w'.locks == w.locks + 1
            && (reply.Some? <==> fate.outcome == Delivered)
            && (reply.Some? ==>
                  var clean := PlanVerdict(w'.registry, MessageOf(env.printable), p) == [];
                  && reply.value.Malformed? == !WellStructured(p)
                  && reply.value.Locked? == (WellStructured(p) && clean))
  {
  }

  /** Exactly when there is a second attempt: the plan has a session, the first lock
    * was answered, and the answer names an unknown skill. Without a session nothing
    * is scanned. */
  lemma SecondAttemptIff(env: Env, w: World, roots: seq<seq<Package>>, p: Plan)
    ensures var w1 := if p.sessionID == "" then w else UploadAll(env, w, p.sessionID, AllPackages(roots));
            var (w2, first) := LockSent(env, w1, p);
            var (w', reply) := LockWithRetry(env, w, roots, p);
            var again := p.sessionID != "" && first.Some? && UnknownNames(first.value) != [];
            && w'.locks == w.locks + (if again then 2 else 1)
            && (!again ==> w' == w2 && reply == first)
  {
    AtMostTwoLocks(env, w, roots, p);
    RequestsGrow(env, w, p.sessionID, AllPackages(roots));
    var w1 := if p.sessionID == "" then w else UploadAll(env, w, p.sessionID, AllPackages(roots));
    var w2, first := LockSent(env, w1, p).0, LockSent(env, w1, p).1;
    if first.Some? {
      RequestsGrow(env, w2.(seen := ForgottenAll(w2.seen, p.sessionID, UnknownNames(first.value))), p.sessionID,
        AllPackages(roots));
    }
  }

  /** Never more than two lock requests. */
  lemma AtMostTwoLocks(env: Env, w: World, roots: seq<seq<Package>>, p: Plan)
    ensures w.locks + 1 <= LockWithRetry(env, w, roots, p).0.locks <= w.locks + 2
  {
    var sid, ps := p.sessionID, AllPackages(roots);
    RequestsGrow(env, w, sid, ps);
    var w1 := if sid != "" then UploadAll(env, w, sid, ps) else w;
    var (w2, reply) := LockSent(env, w1, p);
    if reply.Some? {
      RequestsGrow(env, w2.(seen := ForgottenAll(w2.seen, sid, UnknownNames(reply.value))), sid, ps);
    }
  }

  /** The names under which a policy itself reports the linter's unknown_skill id
    * for this plan. */
  ghost function Claimed(companion: Companion, p: Plan): seq<string>
  {
    if companion.None? then [] else UnknownIn(Evaluated(companion.value, PlanView(p), ""))
  }

  /** No policy that the linter runs on this plan reports its unknown_skill id: not
    * the corpus, not the one registered under the declared skill's name, and, unless
    * an operator skill shadows it, none that a known package of that name holds. */
  ghost predicate Honest(env: Env, r: Registry, p: Plan, known: set<Package>)
  {
    && Claimed(Some(r.corpus), p) == []
    && (p.skillID in Merged(r, p.sessionID) ==> Claimed(Merged(r, p.sessionID)[p.skillID], p) == [])
    && (p.skillID !in r.operator ==>
          forall q :: q in known && q.name == p.skillID && Accepted(env, p.sessionID, q) ==>
            Claimed(CompanionOf(env, p.sessionID, q).value, p) == [])
  }

  lemma {:induction false} UnknownInConcat(a: seq<Violation>, b: seq<Violation>)
    ensures UnknownIn(a + b) == UnknownIn(a) + UnknownIn(b)
  {
    if b == [] {
      assert a + b == a;
    } else {
      UnknownInConcat(a, b[..|b| - 1]);
      assert (a + b)[..|a + b| - 1] == a + b[..|b| - 1];
    }
  }

  lemma {:induction false} WideInClaimsNothing(step: string, targets: seq<string>)
    ensures UnknownIn(WideIn(step, targets)) == []
  {
    if targets != [] {
      var n := |targets| - 1;
      WideInClaimsNothing(step, targets[..n]);
      if IsWideTarget(targets[n]) {
        var v := Violation(SCOPE_CAP, WideMessage(step, targets[n]), Amplifier);
        UnknownInConcat(WideIn(step, targets[..n]), [v]);
        UnknownInOne(v);
      } else {
        assert WideIn(step, targets[..n]) + [] == WideIn(step, targets[..n]);
      }
    }
  }

  lemma {:induction false} WideClaimsNothing(steps: seq<Step>)
    ensures UnknownIn(WideScope(steps)) == []
  {
    if steps != [] {
      var front, last := steps[..|steps| - 1], steps[|steps| - 1];
      WideClaimsNothing(front);
      WideInClaimsNothing(last.id, last.targets);
      UnknownInConcat(WideScope(front), WideIn(last.id, last.targets));
    }
  }

  /** What the client reads off the declared skill's pass: its name, as far as it
    * can be recovered, when it is in neither tier. */
  ghost function DeclaredUnknowns(env: Env, r: Registry, p: Plan): seq<string>
  {
    if p.skillID == "" then []
    else if p.skillID in Merged(r, p.sessionID) then Claimed(Merged(r, p.sessionID)[p.skillID], p)
    else [FirstQuoted(UnknownMessage(env.printable, p.sessionID, p.skillID))]
  }

  /** What the client reads off a plan's verdict, in full: the declared skill's
    * name exactly when it is in neither tier, and what policies claim themselves. */
  lemma VerdictUnknowns(env: Env, r: Registry, p: Plan)
    ensures UnknownIn(PlanVerdict(r, MessageOf(env.printable), p)) ==
              DeclaredUnknowns(env, r, p) + Claimed(Some(r.corpus), p)
  {
    var wide := if r.allowWideScope then [] else WideScope(p.steps);
    var declared := DeclaredPass(Merged(r, p.sessionID), MessageOf(env.printable), p.sessionID, p.skillID, PlanView(p));
    WideClaimsNothing(p.steps);
    DeclaredClaims(env, r, p);
    UnknownAfter(wide, declared, Evaluated(r.corpus, PlanView(p), ""));
  }

  lemma DeclaredClaims(env: Env, r: Registry, p: Plan)
    ensures UnknownIn(DeclaredPass(Merged(r, p.sessionID), MessageOf(env.printable), p.sessionID, p.skillID,
                                   PlanView(p)))
            == DeclaredUnknowns(env, r, p)
  {
    UnknownInOne(UnknownSkill(MessageOf(env.printable), p.sessionID, p.skillID));
  }

  lemma UnknownAfter(a: seq<Violation>, b: seq<Violation>, c: seq<Violation>)
    requires UnknownIn(a) == []
    ensures UnknownIn(a + b + c) == UnknownIn(b) + UnknownIn(c)
  {
    UnknownInConcat(a, b);
    UnknownInConcat(a + b, c);
  }

  lemma UnknownInOne(v: Violation)
    ensures UnknownIn([v]) == if v.policyID == UNKNOWN_SKILL then [FirstQuoted(v.message)] else []
  {
    assert [v][..0] == [];
  }

  lemma ReplyUnknowns(env: Env, r: Registry, p: Plan, known: set<Package>)
    requires Honest(env, r, p, known)
    ensures UnknownNames(LockReply(env, r, p)) ==
              if !WellStructured(p) || p.skillID == "" || p.skillID in Merged(r, p.sessionID) then []
              else [FirstQuoted(UnknownMessage(env.printable, p.sessionID, p.skillID))]
  {
    VerdictUnknowns(env, r, p);
  }

  lemma RestartHonest(env: Env, r: Registry, p: Plan, known: set<Package>)
    requires Honest(env, r, p, known)
    ensures Honest(env, r.(sessions := map[]), p, known)
  {
  }

  lemma PostedHonest(env: Env, r: Registry, p: Plan, sid: string, q: Package, known: set<Package>)
    requires Honest(env, r, p, known) && q in known
    ensures Honest(env, Posted(env, r, sid, q), p, known)
  {
  }

  lemma {:induction false} UploadAllHonest(env: Env, w: World, p: Plan, sid: string, ps: seq<Package>,
                                           known: set<Package>)
    requires Honest(env, w.registry, p, known) && Elements(ps) <= known
    ensures Honest(env, UploadAll(env, w, sid, ps).registry, p, known)
  {
    if ps != [] {
      var front, q := ps[..|ps| - 1], ps[|ps| - 1];
      assert q in Elements(ps) && Elements(front) <= Elements(ps);
      var before := UploadAll(env, w, sid, front);
      UploadAllHonest(env, w, p, sid, front, known);
      RestartHonest(env, before.registry, p, known);
      PostedHonest(env, AtRequest(env, before), p, sid, q, known);
    }
  }

  /** Some package of this name is on disk and the server would accept it. */
  ghost predicate OnDisk(env: Env, sid: string, ps: seq<Package>, name: string)
  {
    exists i :: 0 <= i < |ps| && ps[i].name == name && Accepted(env, sid, ps[i])
  }

  /** While the name is not registered, no package of it seen so far was any
    * good, and the cache knows only such packages. */
  ghost predicate NotYet(env: Env, seen: map<string, string>, sid: string, done: seq<Package>, name: string)
  {
    && (forall i :: 0 <= i < |done| && done[i].name == name ==> !Accepted(env, sid, done[i]))
    && (Key(sid, name) in seen ==>
          exists i :: 0 <= i < |done| && done[i].name == name && Digest(env, done[i]) == seen[Key(sid, name)])
  }

  /** A forgotten name is registered again by the next pass that gets through. */
  lemma {:induction false} PassRegisters(env: Env, w: World, sid: string, ps: seq<Package>, name: string)
    requires Key(sid, name) !in w.seen && DigestDetermined(env, Elements(ps))
    requires FineBetween(env, w.requests, UploadAll(env, w, sid, ps).requests)
    ensures var w' := UploadAll(env, w, sid, ps);
            name in Uploads(w'.registry, sid) || NotYet(env, w'.seen, sid, ps, name)
  {
    if ps != [] {
      var front, q := ps[..|ps| - 1], ps[|ps| - 1];
      var before := UploadAll(env, w, sid, front);
      RequestsGrow(env, w, sid, front);
      assert forall x :: x in front ==> x in ps;
      assert before.requests <= UploadAll(env, w, sid, ps).requests;
      PassRegisters(env, w, sid, front, name);
      if name !in Uploads(before.registry, sid) && q.name == name && Cached(env, before.seen, sid, q) {
        var i :| 0 <= i < |front| && front[i].name == name && Digest(env, front[i]) == before.seen[Key(sid, name)];
        assert front[i] in ps && q in ps;
      }
      UploadRegisters(env, before, sid, ps, name);
    }
  }

  lemma UploadRegisters(env: Env, before: World, sid: string, ps: seq<Package>, name: string)
    requires ps != []
    requires Upload(env, before, sid, ps[|ps| - 1]).requests > before.requests ==> Fine(env, before.requests)
    requires name in Uploads(before.registry, sid) || NotYet(env, before.seen, sid, ps[..|ps| - 1], name)
    requires var q := ps[|ps| - 1];
             name !in Uploads(before.registry, sid) && q.name == name && Cached(env, before.seen, sid, q) ==>
               !Accepted(env, sid, q)
    ensures var w' := Upload(env, before, sid, ps[|ps| - 1]);
            name in Uploads(w'.registry, sid) || NotYet(env, w'.seen, sid, ps, name)
  {
    var q, w' := ps[|ps| - 1], Upload(env, before, sid, ps[|ps| - 1]);
    if name !in Uploads(w'.registry, sid) {
      assert name !in Uploads(before.registry, sid);
      assert Key(sid, q.name) == Key(sid, name) <==> q.name == name by { SameSessionKeys(sid, q.name, name); }
      if Key(sid, name) in w'.seen && q.name != name {
        var i :| 0 <= i < |ps| - 1 && ps[..|ps| - 1][i].name == name
          && Digest(env, ps[..|ps| - 1][i]) == before.seen[Key(sid, name)];
        assert ps[i].name == name;
      }
    }
  }

  lemma SameSessionKeys(sid: string, a: string, b: string)
    ensures Key(sid, a) == Key(sid, b) <==> a == b
  {
    assert Key(sid, a)[|sid| + 1..] == a && Key(sid, b)[|sid| + 1..] == b;
  }

  /** After the first lock request of a call, which may itself have met a
    * restarted server. */
  ghost function FirstLocked(env: Env, w: World, roots: seq<seq<Package>>, p: Plan): World
  {
    LockSent(env, UploadAll(env, w, p.sessionID, AllPackages(roots)), p).0
  }

  /** The first lock request is answered, by a restarted server or not; from then
    * to the end of the call nothing is lost and the server does not restart. */
  ghost predicate GetsThrough(env: Env, w: World, roots: seq<seq<Package>>, p: Plan)
  {
    var n := UploadAll(env, w, p.sessionID, AllPackages(roots)).requests;
    env.fate(n).outcome == Delivered && FineBetween(env, n + 1, LockWithRetry(env, w, roots, p).0.requests)
  }

  /** Self-heal: whatever happened to the server before, up to a restart between
    * the scan and the first lock, if the declared skill is on disk and acceptable,
    * its name needs no escaping and the rest of the call gets through, the call
    * ends with a reply free of unknown_skill. */
  lemma SelfHeals(env: Env, w: World, roots: seq<seq<Package>>, p: Plan)
    requires p.sessionID != "" && Plain(env.printable, p.skillID)
    requires OnDisk(env, p.sessionID, AllPackages(roots), p.skillID)
    requires DigestDetermined(env, Elements(AllPackages(roots)))
    requires Honest(env, w.registry, p, Elements(AllPackages(roots))) && GetsThrough(env, w, roots, p)
    ensures var (_, reply) := LockWithRetry(env, w, roots, p);
            reply.Some? && UnknownNames(reply.value) == []
  {
    var sid, ps := p.sessionID, AllPackages(roots);
    var w1 := UploadAll(env, w, sid, ps);
    UploadAllHonest(env, w, p, sid, ps, Elements(ps));
    FirstReply(env, w1, p, Elements(ps));
    var w2, first := LockSent(env, w1, p).0, LockSent(env, w1, p).1;
    if UnknownNames(first.value) != [] {
      NameRecoveredIff(env.printable, sid, p.skillID);
      OneForgotten(w2.seen, sid, p.skillID);
      SecondAttempt(env, w2.(seen := Forgotten(w2.seen, sid, p.skillID)), sid, ps, p);
    }
  }

  /** What the client reads off a lock reply, in terms of the server's registry
    * when the request arrived. */
  lemma FirstReply(env: Env, w: World, p: Plan, known: set<Package>)
    requires Honest(env, w.registry, p, known)
    ensures var (w', reply) := LockSent(env, w, p);
            && Honest(env, w'.registry, p, known)
            && (reply.Some? ==>
                  UnknownNames(reply.value) ==
                    if !WellStructured(p) || p.skillID == "" || p.skillID in Merged(w'.registry, p.sessionID) then []
                    else [FirstQuoted(UnknownMessage(env.printable, p.sessionID, p.skillID))])
  {
    RestartHonest(env, w.registry, p, known);
    ReplyUnknowns(env, AtRequest(env, w), p, known);
  }

  /** The skill ends registered, with no assumption on the policies: whatever
    * happened to the server before, a call that gets through leaves it with the
    * declared skill, and the reply names as unknown only what policies claim. */
  lemma SkillEndsRegistered(env: Env, w: World, roots: seq<seq<Package>>, p: Plan)
    requires p.sessionID != "" && Plain(env.printable, p.skillID) && WellStructured(p)
    requires OnDisk(env, p.sessionID, AllPackages(roots), p.skillID)
    requires DigestDetermined(env, Elements(AllPackages(roots))) && GetsThrough(env, w, roots, p)
    ensures var (w', reply) := LockWithRetry(env, w, roots, p);
            && p.skillID in Merged(w'.registry, p.sessionID)
            && reply.Some?
            && UnknownNames(reply.value) ==
               Claimed(Merged(w'.registry, p.sessionID)[p.skillID], p) + Claimed(Some(w'.registry.corpus), p)
  {
    var sid, ps := p.sessionID, AllPackages(roots);
    var w1 := UploadAll(env, w, sid, ps);
    var w2, first := LockSent(env, w1, p).0, LockSent(env, w1, p).1;
    ReplyNames(env, w1, p);
    if UnknownNames(first.value) != [] {
      var names := UnknownNames(first.value);
      var w3 := w2.(seen := ForgottenAll(w2.seen, sid, names));
      var w4 := UploadAll(env, w3, sid, ps);
      RequestsGrow(env, w3, sid, ps);
      MissingIsNamed(env, w2.registry, p);
      SecondScan(env, w2, sid, ps, names, p.skillID);
      assert Fine(env, w4.requests);
      ReplyNames(env, w4, p);
    } else {
      MissingIsNamed(env, w2.registry, p);
    }
  }

  /** What the client reads off the reply to a well-formed plan. */
  lemma ReplyNames(env: Env, w: World, p: Plan)
    requires WellStructured(p)
    ensures var (w', reply) := LockSent(env, w, p);
            reply.Some? ==>
              UnknownNames(reply.value) == DeclaredUnknowns(env, w'.registry, p) + Claimed(Some(w'.registry.corpus), p)
  {
    VerdictUnknowns(env, AtRequest(env, w), p);
  }

  lemma MissingIsNamed(env: Env, r: Registry, p: Plan)
    requires Plain(env.printable, p.skillID) && p.skillID != ""
    ensures p.skillID in Merged(r, p.sessionID)
            || p.skillID in DeclaredUnknowns(env, r, p) + Claimed(Some(r.corpus), p)
  {
    NameRecoveredIff(env.printable, p.sessionID, p.skillID);
  }

  /** A scan that gets through, after forgetting some names: a skill that was
    * registered stays so, one that was forgotten is registered again. */
  lemma SecondScan(env: Env, w: World, sid: string, ps: seq<Package>, names: seq<string>, name: string)
    requires name in Merged(w.registry, sid) || name in names
    requires OnDisk(env, sid, ps, name) && DigestDetermined(env, Elements(ps))
    requires var w' := w.(seen := ForgottenAll(w.seen, sid, names));
             FineBetween(env, w.requests, UploadAll(env, w', sid, ps).requests)
    ensures var w' := w.(seen := ForgottenAll(w.seen, sid, names));
            name in Merged(UploadAll(env, w', sid, ps).registry, sid)
  {
    var w' := w.(seen := ForgottenAll(w.seen, sid, names));
    if name in Merged(w.registry, sid) {
      RegisteredSurvives(env, w', sid, ps, name);
    } else {
      ForgottenIsGone(w.seen, sid, names, name);
      PassRegisters(env, w', sid, ps, name);
    }
  }

  lemma {:induction false} ForgottenIsGone(seen: map<string, string>, sid: string, names: seq<string>, name: string)
    requires name in names && name != ""
    ensures Key(sid, name) !in ForgottenAll(seen, sid, names)
  {
    if names[|names| - 1] != name { ForgottenIsGone(seen, sid, names[..|names| - 1], name); }
  }

  lemma UploadKeeps(env: Env, w: World, sid: string, q: Package, name: string)
    requires name in Merged(w.registry, sid)
    requires Upload(env, w, sid, q).requests > w.requests ==> Fine(env, w.requests)
    ensures name in Merged(Upload(env, w, sid, q).registry, sid)
  {
  }

  lemma {:induction false} RegisteredSurvives(env: Env, w: World, sid: string, ps: seq<Package>, name: string)
    requires name in Merged(w.registry, sid)
    requires FineBetween(env, w.requests, UploadAll(env, w, sid, ps).requests)
    ensures name in Merged(UploadAll(env, w, sid, ps).registry, sid)
  {
    if ps != [] {
      var front := ps[..|ps| - 1];
      RequestsGrow(env, w, sid, front);
      var before := UploadAll(env, w, sid, front);
      assert before.requests <= UploadAll(env, w, sid, ps).requests;
      RegisteredSurvives(env, w, sid, front, name);
      UploadKeeps(env, before, sid, ps[|ps| - 1], name);
    }
  }

  lemma OneForgotten(seen: map<string, string>, sid: string, name: string)
    ensures ForgottenAll(seen, sid, [name]) == Forgotten(seen, sid, name)
  {
    assert [name][..0] == [];
  }

  lemma SecondAttempt(env: Env, w: World, sid: string, ps: seq<Package>, p: Plan)
    requires sid == p.sessionID && Key(sid, p.skillID) !in w.seen
    requires OnDisk(env, sid, ps, p.skillID) && DigestDetermined(env, Elements(ps))
    requires Honest(env, w.registry, p, Elements(ps))
    requires FineBetween(env, w.requests, UploadAll(env, w, sid, ps).requests + 1)
    ensures var (_, reply) := LockSent(env, UploadAll(env, w, sid, ps), p);
            reply.Some? && UnknownNames(reply.value) == []
  {
    PassRegisters(env, w, sid, ps, p.skillID);
    RegisteredIsKnown(env, w, sid, ps, p);
  }

  /** A lock right after a pass that registered the skill names no unknown one. */
  lemma RegisteredIsKnown(env: Env, w: World, sid: string, ps: seq<Package>, p: Plan)
    requires sid == p.sessionID && Honest(env, w.registry, p, Elements(ps))
    requires FineBetween(env, w.requests, UploadAll(env, w, sid, ps).requests + 1)
    requires p.skillID in Uploads(UploadAll(env, w, sid, ps).registry, sid)
    ensures var (_, reply) := LockSent(env, UploadAll(env, w, sid, ps), p);
            reply.Some? && UnknownNames(reply.value) == []
  {
    RequestsGrow(env, w, sid, ps);
    UploadAllHonest(env, w, p, sid, ps, Elements(ps));
    var w' := UploadAll(env, w, sid, ps);
    assert Fine(env, w'.requests);
    FirstReply(env, w', p, Elements(ps));
  }

  // ----------------------------------------- when it cannot heal

  lemma {:induction false} FirstPartEmptyIff(s: string, c: char)
    ensures Split(s, c)[0] == "" <==> s == "" || s[0] == c
  {
  }

  lemma RecoveredNotEmpty(printable: char -> bool, lead: string, name: string, rest: string)
    requires '"' !in lead && name != ""
    ensures FirstQuoted(lead + Quote(printable, name) + rest) != ""
  {
    var body := QuoteBody(printable, name);
    var tail := body + ['"'] + rest;
    assert lead + Quote(printable, name) + rest == lead + ['"'] + tail;
    SplitNoSeparator(lead, '"');
    SplitConcat(lead, '"', tail);
    SplitConcat(body, '"', rest);
    FirstPartEmptyIff(body, '"');
    assert body[0] == QuoteChar(printable, name[0])[0];
  }

  /** All packages of the name carry the same digest. */
  ghost predicate OneContent(env: Env, ps: seq<Package>, name: string)
  {
    forall q, r :: q in ps && r in ps && q.name == name && r.name == name ==> Digest(env, q) == Digest(env, r)
  }

  ghost predicate AllCached(env: Env, seen: map<string, string>, sid: string, ps: seq<Package>, name: string)
  {
    forall q :: q in ps && q.name == name ==> Cached(env, seen, sid, q)
  }

  /** Every scan of the packages leaves the digest of the name's last one in the
    * cache. */
  lemma ScanCachesLast(env: Env, w: World, v: World, sid: string, ps: seq<Package>, name: string) returns (i: nat)
    requires exists q :: q in ps && q.name == name
    ensures i < |ps| && ps[i].name == name
    ensures Cached(env, UploadAll(env, w, sid, ps).seen, sid, ps[i])
            && Cached(env, UploadAll(env, v, sid, ps).seen, sid, ps[i])
  {
    var n := |ps| - 1;
    SameSessionKeys(sid, ps[n].name, name);
    if ps[n].name == name {
      i := n;
    } else {
      assert ps == ps[..n] + [ps[n]];
      i := ScanCachesLast(env, w, v, sid, ps[..n], name);
    }
  }

  /** With every package of the name cached, a scan neither registers the name
    * nor touches its cache entry, whatever the fates of its requests. */
  lemma {:induction false} SkippedStaysOut(env: Env, w: World, sid: string, ps: seq<Package>, all: seq<Package>,
                                           name: string)
    requires name !in Merged(w.registry, sid)
    requires Elements(ps) <= Elements(all) && AllCached(env, w.seen, sid, all, name)
    ensures name !in Merged(UploadAll(env, w, sid, ps).registry, sid)
    ensures AllCached(env, UploadAll(env, w, sid, ps).seen, sid, all, name)
  {
    if ps != [] {
      var front, q := ps[..|ps| - 1], ps[|ps| - 1];
      assert q in Elements(ps) && Elements(front) <= Elements(ps);
      SkippedStaysOut(env, w, sid, front, all, name);
      SkippedStep(env, UploadAll(env, w, sid, front), sid, q, all, name);
    }
  }

  lemma SkippedStep(env: Env, w: World, sid: string, q: Package, all: seq<Package>, name: string)
    requires name !in Merged(w.registry, sid) && q in all && AllCached(env, w.seen, sid, all, name)
    ensures name !in Merged(Upload(env, w, sid, q).registry, sid)
    ensures AllCached(env, Upload(env, w, sid, q).seen, sid, all, name)
  {
    SameSessionKeys(sid, q.name, name);
  }

  /** When the first lock finds the skill missing, its name needs escaping and the
    * disk has one content for it, the retry forgets some other name, skips the
    * upload again and reports the skill as unknown, whatever the fates of the
    * requests. */
  lemma EscapedNameNeverHeals(env: Env, w: World, roots: seq<seq<Package>>, p: Plan)
    requires p.sessionID != "" && p.skillID != "" && WellStructured(p)
    requires Honest(env, w.registry, p, Elements(AllPackages(roots)))
    requires !Plain(env.printable, p.skillID) && OneContent(env, AllPackages(roots), p.skillID)
    requires p.skillID !in Merged(FirstLocked(env, w, roots, p).registry, p.sessionID)
    ensures var (_, reply) := LockWithRetry(env, w, roots, p);
            reply.Some? ==> UnknownNames(reply.value) != []
  {
    var sid, ps, name := p.sessionID, AllPackages(roots), p.skillID;
    var w1 := UploadAll(env, w, sid, ps);
    UploadAllHonest(env, w, p, sid, ps, Elements(ps));
    FirstReply(env, w1, p, Elements(ps));
    var w2, first := LockSent(env, w1, p).0, LockSent(env, w1, p).1;
    if first.Some? {
      var wrong := FirstQuoted(UnknownMessage(env.printable, sid, name));
      OneForgotten(w2.seen, sid, wrong);
      StillCached(env, w, w2.seen, sid, ps, name);
      SecondSkip(env, w2.(seen := Forgotten(w2.seen, sid, wrong)), sid, ps, p);
    }
  }

  /** Forgetting the misread name leaves the packages of the name cached. */
  lemma StillCached(env: Env, w: World, seen: map<string, string>, sid: string, ps: seq<Package>, name: string)
    requires seen == UploadAll(env, w, sid, ps).seen && OneContent(env, ps, name)
    requires name != "" && !Plain(env.printable, name)
    ensures AllCached(env, Forgotten(seen, sid, FirstQuoted(UnknownMessage(env.printable, sid, name))), sid, ps, name)
  {
    var wrong := FirstQuoted(UnknownMessage(env.printable, sid, name));
    WrongName(env.printable, sid, name);
    SameSessionKeys(sid, wrong, name);
    if exists q :: q in ps && q.name == name {
      var i := ScanCachesLast(env, w, w, sid, ps, name);
      assert ps[i] in ps;
    }
  }

  lemma SecondSkip(env: Env, w: World, sid: string, ps: seq<Package>, p: Plan)
    requires sid == p.sessionID && p.skillID != "" && WellStructured(p) && Honest(env, w.registry, p, Elements(ps))
    requires p.skillID !in Merged(w.registry, sid) && AllCached(env, w.seen, sid, ps, p.skillID)
    ensures var (_, reply) := LockSent(env, UploadAll(env, w, sid, ps), p);
            reply.Some? ==> UnknownNames(reply.value) != []
  {
    SkippedStaysOut(env, w, sid, ps, ps, p.skillID);
    UploadAllHonest(env, w, p, sid, ps, Elements(ps));
    FirstReply(env, UploadAll(env, w, sid, ps), p, Elements(ps));
  }

  lemma WrongName(printable: char -> bool, sid: string, name: string)
    requires name != "" && !Plain(printable, name)
    ensures FirstQuoted(UnknownMessage(printable, sid, name)) !in {"", name}
  {
    NameRecoveredIff(printable, sid, name);
    SomeName(printable, sid, name);
  }

  lemma SomeName(printable: char -> bool, sid: string, name: string)
    requires name != ""
    ensures FirstQuoted(UnknownMessage(printable, sid, name)) != ""
  {
    Regroup(LEAD, Quote(printable, name), MIDDLE, Quote(printable, sid), TAIL);
    RecoveredNotEmpty(printable, LEAD, name, MIDDLE + Quote(printable, sid) + TAIL);
  }

  // ----------------------------------------- exactly when it heals

  /** While the name is not registered, nothing acceptable of another content than
    * the cached one was met; what the cache holds is that content, or that of a
    * package the server refuses. */
  ghost predicate Unchanged(env: Env, seen: map<string, string>, sid: string, done: seq<Package>, name: string,
                            digest: string)
  {
    && Key(sid, name) in seen
    && (forall q :: q in done && q.name == name && Accepted(env, sid, q) ==> Digest(env, q) == digest)
    && ((seen[Key(sid, name)] == digest && forall q :: q in done && q.name == name ==> Digest(env, q) == digest)
        || exists q :: q in done && q.name == name && !Accepted(env, sid, q) && Digest(env, q) == seen[Key(sid, name)])
  }

  /** A pass over packages of differing content registers the name again, even
    * with its entry still cached. */
  lemma {:induction false} PassReplaces(env: Env, w: World, sid: string, ps: seq<Package>, name: string,
                                        known: set<Package>)
    requires Key(sid, name) in w.seen && DigestDetermined(env, known) && Elements(ps) <= known
    requires FineBetween(env, w.requests, UploadAll(env, w, sid, ps).requests)
    ensures var w' := UploadAll(env, w, sid, ps);
            name in Uploads(w'.registry, sid) || Unchanged(env, w'.seen, sid, ps, name, w.seen[Key(sid, name)])
  {
    if ps != [] {
      var front, q := ps[..|ps| - 1], ps[|ps| - 1];
      assert q in Elements(ps) && Elements(front) <= Elements(ps);
      RequestsGrow(env, w, sid, front);
      var before := UploadAll(env, w, sid, front);
      assert before.requests <= UploadAll(env, w, sid, ps).requests;
      PassReplaces(env, w, sid, front, name, known);
      UploadReplaces(env, before, sid, front, q, name, w.seen[Key(sid, name)], known);
      assert ps == front + [q];
    }
  }

  lemma UploadReplaces(env: Env, w: World, sid: string, done: seq<Package>, q: Package, name: string, digest: string,
                       known: set<Package>)
    requires DigestDetermined(env, known) && q in known && Elements(done) <= known
    requires Upload(env, w, sid, q).requests > w.requests ==> Fine(env, w.requests)
    requires name in Uploads(w.registry, sid) || Unchanged(env, w.seen, sid, done, name, digest)
    ensures var w' := Upload(env, w, sid, q);
            name in Uploads(w'.registry, sid) || Unchanged(env, w'.seen, sid, done + [q], name, digest)
  {
    var w', more := Upload(env, w, sid, q), done + [q];
    SameSessionKeys(sid, q.name, name);
    if name !in Uploads(w'.registry, sid) {
      assert name !in Uploads(w.registry, sid);
      assert forall x :: x in more <==> x in done || x == q;
      if exists x :: x in done && x.name == name && !Accepted(env, sid, x) && Digest(env, x) == w.seen[Key(sid, name)] {
        var x :| x in done && x.name == name && !Accepted(env, sid, x) && Digest(env, x) == w.seen[Key(sid, name)];
        assert x in Elements(done) && x in more;
        if q.name == name && Cached(env, w.seen, sid, q) { assert !Accepted(env, sid, q); }
      }
    }
  }

  /** With differing contents on disk the second scan uploads the skill, whatever
    * name was forgotten. */
  lemma DifferingHeals(env: Env, w: World, w3: World, sid: string, ps: seq<Package>, name: string)
    requires Key(sid, name) in w3.seen && Key(sid, name) in UploadAll(env, w, sid, ps).seen
    requires w3.seen[Key(sid, name)] == UploadAll(env, w, sid, ps).seen[Key(sid, name)]
    requires OnDisk(env, sid, ps, name) && DigestDetermined(env, Elements(ps)) && !OneContent(env, ps, name)
    requires FineBetween(env, w3.requests, UploadAll(env, w3, sid, ps).requests)
    ensures name in Uploads(UploadAll(env, w3, sid, ps).registry, sid)
  {
    PassReplaces(env, w3, sid, ps, name, Elements(ps));
    var a :| 0 <= a < |ps| && ps[a].name == name;
    assert ps[a] in ps;
    var i := ScanCachesLast(env, w, w3, sid, ps, name);
    var seen := UploadAll(env, w3, sid, ps).seen;
    assert seen[Key(sid, name)] == w3.seen[Key(sid, name)];
    if Unchanged(env, seen, sid, ps, name, w3.seen[Key(sid, name)]) {
      UnchangedIsOneContent(env, seen, sid, ps, name);
    }
  }

  lemma UnchangedIsOneContent(env: Env, seen: map<string, string>, sid: string, ps: seq<Package>, name: string)
    requires Key(sid, name) in seen && Unchanged(env, seen, sid, ps, name, seen[Key(sid, name)])
    requires OnDisk(env, sid, ps, name) && DigestDetermined(env, Elements(ps))
    ensures OneContent(env, ps, name)
  {
    var a :| 0 <= a < |ps| && ps[a].name == name && Accepted(env, sid, ps[a]);
    assert ps[a] in Elements(ps) && Digest(env, ps[a]) == seen[Key(sid, name)];
    assert forall q :: q in ps ==> q in Elements(ps);
  }

  /** Exactly when a call that gets through heals: the first lock found the skill,
    * or its name needs no escaping, or the disk has several contents for it, so
    * that the second scan uploads it whatever was forgotten. */
  lemma HealsIff(env: Env, w: World, roots: seq<seq<Package>>, p: Plan)
    requires p.sessionID != "" && p.skillID != "" && WellStructured(p)
    requires Honest(env, w.registry, p, Elements(AllPackages(roots)))
    requires OnDisk(env, p.sessionID, AllPackages(roots), p.skillID)
    requires DigestDetermined(env, Elements(AllPackages(roots))) && GetsThrough(env, w, roots, p)
    ensures var (_, reply) := LockWithRetry(env, w, roots, p);
            (reply.Some? && UnknownNames(reply.value) == []) <==>
              p.skillID in Merged(FirstLocked(env, w, roots, p).registry, p.sessionID)
              || Plain(env.printable, p.skillID) || !OneContent(env, AllPackages(roots), p.skillID)
  {
    if Plain(env.printable, p.skillID) {
      SelfHeals(env, w, roots, p);
    } else if p.skillID in Merged(FirstLocked(env, w, roots, p).registry, p.sessionID) {
      var ps := AllPackages(roots);
      UploadAllHonest(env, w, p, p.sessionID, ps, Elements(ps));
      FirstReply(env, UploadAll(env, w, p.sessionID, ps), p, Elements(ps));
    } else if OneContent(env, AllPackages(roots), p.skillID) {
      EscapedNameNeverHeals(env, w, roots, p);
    } else {
      EscapedNameHeals(env, w, roots, p);
    }
  }

  lemma EscapedNameHeals(env: Env, w: World, roots: seq<seq<Package>>, p: Plan)
    requires p.sessionID != "" && p.skillID != "" && WellStructured(p)
    requires Honest(env, w.registry, p, Elements(AllPackages(roots)))
    requires OnDisk(env, p.sessionID, AllPackages(roots), p.skillID)
    requires DigestDetermined(env, Elements(AllPackages(roots))) && GetsThrough(env, w, roots, p)
    requires !Plain(env.printable, p.skillID) && !OneContent(env, AllPackages(roots), p.skillID)
    requires p.skillID !in Merged(FirstLocked(env, w, roots, p).registry, p.sessionID)
    ensures var (_, reply) := LockWithRetry(env, w, roots, p);
            reply.Some? && UnknownNames(reply.value) == []
  {
    var sid, ps, name := p.sessionID, AllPackages(roots), p.skillID;
    var w1 := UploadAll(env, w, sid, ps);
    UploadAllHonest(env, w, p, sid, ps, Elements(ps));
    FirstReply(env, w1, p, Elements(ps));
    var w2, first := LockSent(env, w1, p).0, LockSent(env, w1, p).1;
    var wrong := FirstQuoted(UnknownMessage(env.printable, sid, name));
    OneForgotten(w2.seen, sid, wrong);
    var w3 := w2.(seen := Forgotten(w2.seen, sid, wrong));
    assert UnknownNames(first.value) == [wrong];
    EscapedSecond(env, w, w3, sid, ps, p);
  }

  /** The second attempt, after forgetting the misread name. */
  lemma EscapedSecond(env: Env, w: World, w3: World, sid: string, ps: seq<Package>, p: Plan)
    requires sid == p.sessionID && p.skillID != "" && Honest(env, w3.registry, p, Elements(ps))
    requires OnDisk(env, sid, ps, p.skillID) && DigestDetermined(env, Elements(ps))
    requires !Plain(env.printable, p.skillID) && !OneContent(env, ps, p.skillID)
    requires var wrong := FirstQuoted(UnknownMessage(env.printable, sid, p.skillID));
             w3.seen == Forgotten(UploadAll(env, w, sid, ps).seen, sid, wrong)
    requires FineBetween(env, w3.requests, UploadAll(env, w3, sid, ps).requests + 1)
    ensures var (_, reply) := LockSent(env, UploadAll(env, w3, sid, ps), p);
            reply.Some? && UnknownNames(reply.value) == []
  {
    KeptByWrongName(env, w, UploadAll(env, w, sid, ps).seen, sid, ps, p.skillID);
    DifferingHeals(env, w, w3, sid, ps, p.skillID);
    RegisteredIsKnown(env, w3, sid, ps, p);
  }

  lemma KeptByWrongName(env: Env, w: World, seen: map<string, string>, sid: string, ps: seq<Package>, name: string)
    requires seen == UploadAll(env, w, sid, ps).seen && name != "" && !Plain(env.printable, name)
    requires OnDisk(env, sid, ps, name)
    ensures var kept := Forgotten(seen, sid, FirstQuoted(UnknownMessage(env.printable, sid, name)));
            Key(sid, name) in seen && Key(sid, name) in kept && kept[Key(sid, name)] == seen[Key(sid, name)]
  {
    var wrong := FirstQuoted(UnknownMessage(env.printable, sid, name));
    WrongName(env.printable, sid, name);
    SameSessionKeys(sid, wrong, name);
    var a :| 0 <= a < |ps| && ps[a].name == name;
    assert ps[a] in ps;
    var _ := ScanCachesLast(env, w, w, sid, ps, name);
  }
}
