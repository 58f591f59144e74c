/** Tickets (internal/ticket/ticket.go), the in-tool scope check
  * (internal/smarttools/smarttools.go) and the decision of the two guards
  * (adapters/claudecode/guard, adapters/copilot/guard). A ticket is an ideal
  * signed record: only the holder of the key makes one. */
module Guard {
  import opened Text
  import opened Paths
  import opened PlanGraph
  import opened Scope

  // ------------------------------------------------------------- tickets

  /** Times are in nanoseconds; numeric dates are whole seconds. */
  const SECOND: int := 1000000000
  const DEFAULT_TTL: int := 8 * 3600 * SECOND

  /** The plan fingerprint is ideal: it is the plan. */
  datatype Claims = Claims(sessionID: string, planHash: Plan, skillID: string, scope: TicketScope, issuedAt: int,
    expiresAt: int)

  datatype Token<K> = Signed(claims: Claims, key: K) | NotATicket(text: string)

  function ToSeconds(t: int): int
  {
    t - t % SECOND
  }

  /** `IssueWithTTL`. */
  function Issue<K>(p: Plan, ttl: int, now: int, key: K): Token<K>
  {
    var life := if ttl <= 0 then DEFAULT_TTL else ttl;
    Signed(Claims(p.sessionID, p, p.skillID, ScopeOf(p), ToSeconds(now), ToSeconds(now + life)), key)
  }

  /** `Verify`: the signature, then the expiry: section 4.1.4 of RFC 7519 asks
    * that the current time be before it. */
  function Verify<K(==)>(token: Token<K>, key: K, now: int): Option<Claims>
  {
    if token.Signed? && token.key == key && now < token.claims.expiresAt then Some(token.claims) else None
  }

  /** A ticket is good for its lifetime and no longer: whole seconds may cost it
    * less than one second at the end. Only its key opens it. */
  lemma TicketLifetime<K>(p: Plan, ttl: int, issued: int, key: K, used: K, now: int)
    ensures var life := if ttl > 0 then ttl else 28800_000_000_000;
            && (Verify(Issue(p, ttl, issued, key), used, now).Some? ==> key == used && now < issued + life)
            && (key == used && now <= issued + life - 1_000_000_000 ==>
                  Verify(Issue(p, ttl, issued, key), used, now).Some?)
    ensures Verify(Issue(p, ttl, issued, key), used, now).Some? ==>
              Verify(Issue(p, ttl, issued, key), used, now).value.sessionID == p.sessionID
  {
  }

  /** What an issued ticket says: the plan's session, skill and fingerprint, its
    * derived scope, and whole-second dates not after those asked for. */
  lemma IssuedTicketSays<K>(p: Plan, ttl: int, issued: int, key: K)
    ensures var t := Issue(p, ttl, issued, key);
            && t.Signed? && t.key == key && t.claims.scope == ScopeOf(p)
            && t.claims.sessionID == p.sessionID && t.claims.skillID == p.skillID && t.claims.planHash == p
            && t.claims.issuedAt % 1_000_000_000 == 0 && issued - 1_000_000_000 < t.claims.issuedAt <= issued
            && t.claims.expiresAt % 1_000_000_000 == 0
  {
  }

  // --------------------------------------------------------- scope guards

  datatype ScopeError = InvalidTicket | ToolNotInPlan(tool: string) | OutOfScope(attempted: string)
  datatype GuardResult = Granted(claims: Claims) | Refused(error: ScopeError)

  function FirstOutside(targets: seq<string>, allowed: seq<string>): Option<string>
  {
    if targets == [] then None
    else if !TargetAllowed(targets[0], allowed) then Some(targets[0])
    else FirstOutside(targets[1..], allowed)
  }

  /** `GuardTargets`. */
  function GuardTargets<K(==)>(token: Token<K>, key: K, now: int, targets: seq<string>): GuardResult
  {
    match Verify(token, key, now)
    case None => Refused(InvalidTicket)
    case Some(claims) =>
      match FirstOutside(targets, claims.scope.allowModify)
      case Some(t) => Refused(OutOfScope(t))
      case None => Granted(claims)
  }

  /** `Guard`, at the entry of every platform tool. */
  function GuardTool<K(==)>(token: Token<K>, key: K, now: int, tool: string, targets: seq<string>): GuardResult
  {
    var r := GuardTargets(token, key, now, targets);
    if r.Granted? && tool !in r.claims.scope.allowTool then Refused(ToolNotInPlan(tool)) else r
  }

  ghost predicate CoveredBy(target: string, entries: seq<string>)
  {
    exists i :: 0 <= i < |entries| && Covers(Norm(TrimSuffixStar(entries[i])), Norm(target))
  }

  lemma {:induction false} FirstOutsideNoneIff(targets: seq<string>, allowed: seq<string>)
    ensures FirstOutside(targets, allowed).None? <==> forall t :: t in targets ==> CoveredBy(t, allowed)
  {
    if targets != [] {
      TargetAllowedIff(targets[0], allowed);
      assert TargetAllowed(targets[0], allowed) <==> CoveredBy(targets[0], allowed);
      FirstOutsideNoneIff(targets[1..], allowed);
      assert forall t :: t in targets <==> t == targets[0] || t in targets[1..];
    }
  }

  /** t is the first target not covered. */
  ghost predicate FirstUncovered(targets: seq<string>, allowed: seq<string>, t: string)
  {
    exists i :: 0 <= i < |targets| && targets[i] == t && !CoveredBy(t, allowed)
                && forall j :: 0 <= j < i ==> CoveredBy(targets[j], allowed)
  }

  lemma {:induction false} FirstOutsideFirst(targets: seq<string>, allowed: seq<string>)
    ensures FirstOutside(targets, allowed).Some? ==>
              FirstUncovered(targets, allowed, FirstOutside(targets, allowed).value)
  {
    if targets != [] {
      TargetAllowedIff(targets[0], allowed);
      assert TargetAllowed(targets[0], allowed) <==> CoveredBy(targets[0], allowed);
      if TargetAllowed(targets[0], allowed) {
        FirstOutsideFirst(targets[1..], allowed);
        if t :| FirstOutside(targets[1..], allowed) == Some(t) {
          var i :| 0 <= i < |targets[1..]| && targets[1..][i] == t && !CoveredBy(t, allowed)
            && forall j :: 0 <= j < i ==> CoveredBy(targets[1..][j], allowed);
          assert targets[i + 1] == t;
          forall j | 0 <= j < i + 1 ensures CoveredBy(targets[j], allowed) {
            if j > 0 { assert targets[1..][j - 1] == targets[j]; }
          }
        }
      }
    }
  }

  /** The guards' check in full: any ticket, any targets. */
  lemma GuardTargetsIs<K>(token: Token<K>, key: K, now: int, targets: seq<string>)
    ensures var r := GuardTargets(token, key, now, targets);
            if !token.Signed? || token.key != key || now >= token.claims.expiresAt then r == Refused(InvalidTicket)
            else if forall t :: t in targets ==> CoveredBy(t, token.claims.scope.allowModify)
            then r == Granted(token.claims)
            else r.Refused? && r.error.OutOfScope?
                 && FirstUncovered(targets, token.claims.scope.allowModify, r.error.attempted)
  {
    if token.Signed? {
      FirstOutsideNoneIff(targets, token.claims.scope.allowModify);
      FirstOutsideFirst(targets, token.claims.scope.allowModify);
    }
  }

  /** And the check at a tool's entry: the tool is looked at after the targets. */
  lemma GuardToolIs<K>(token: Token<K>, key: K, now: int, tool: string, targets: seq<string>)
    ensures var r, checked := GuardTool(token, key, now, tool, targets), GuardTargets(token, key, now, targets);
            if checked.Refused? then r == checked
            else if token.Signed? && tool in token.claims.scope.allowTool then r == Granted(token.claims)
            else r == Refused(ToolNotInPlan(tool))
  {
  }

  /** A tool call is granted on a ticket issued for a plan exactly when the key is
    * right, the ticket unexpired, the tool named by some step, and every target
    * covered by some target of the plan. */
  lemma IssuedTicketGrantsIff<K>(p: Plan, ttl: int, issued: int, key: K, used: K, now: int, tool: string,
                                 targets: seq<string>)
    ensures GuardTool(Issue(p, ttl, issued, key), used, now, tool, targets).Granted? <==>
              && key == used && now < Issue(p, ttl, issued, key).claims.expiresAt
              && (exists i :: 0 <= i < |p.steps| && p.steps[i].tool == tool)
              && forall t :: t in targets ==> CoveredBy(t, AllTargets(p.steps))
  {
    FirstOutsideNoneIff(targets, ScopeOf(p).allowModify);
    FirstSeenFacts(AllTools(p.steps));
    ToolsListed(p.steps, tool);
    forall t ensures CoveredBy(t, ScopeOf(p).allowModify) <==> CoveredBy(t, AllTargets(p.steps)) {
      SameEntriesSameCover(t, AllTargets(p.steps));
    }
  }

  /** The scope check of one target, on a ticket issued for a plan. */
  lemma GuardOneTarget<K>(p: Plan, ttl: int, issued: int, key: K, now: int, t: string)
    ensures var ticket := Issue(p, ttl, issued, key);
            GuardTargets(ticket, key, now, [t]) ==
              if now >= ticket.claims.expiresAt then Refused(InvalidTicket)
              else if CoveredBy(t, AllTargets(p.steps)) then Granted(ticket.claims)
              else Refused(OutOfScope(t))
  {
    FirstOutsideNoneIff([t], ScopeOf(p).allowModify);
    assert t in [t];
    SameEntriesSameCover(t, AllTargets(p.steps));
    assert [t][1..] == [];
  }

  lemma SameEntriesSameCover(t: string, entries: seq<string>)
    ensures CoveredBy(t, FirstSeen(entries)) <==> CoveredBy(t, entries)
  {
    FirstSeenFacts(entries);
    var once := FirstSeen(entries);
    if i :| 0 <= i < |once| && Covers(Norm(TrimSuffixStar(once[i])), Norm(t)) {
      assert once[i] in entries;
      var j :| 0 <= j < |entries| && entries[j] == once[i];
    }
    if i :| 0 <= i < |entries| && Covers(Norm(TrimSuffixStar(entries[i])), Norm(t)) {
      assert entries[i] in once;
      var j :| 0 <= j < |once| && once[j] == entries[i];
    }
  }

  // ------------------------------------------------------ relative target

  function CommonPrefix(a: seq<string>, b: seq<string>): (k: nat)
    ensures k <= |a| && k <= |b| && a[..k] == b[..k]
    ensures k < |a| && k < |b| ==> a[k] != b[k]
    ensures a <= b ==> k == |a|
  {
    if a == [] || b == [] || a[0] != b[0] then 0
    else
      var k := CommonPrefix(a[1..], b[1..]);
      assert a[..k + 1] == [a[0]] + a[1..][..k] && b[..k + 1] == [b[0]] + b[1..][..k];
      k + 1
  }

  function Ups(n: nat): seq<string>
  {
    if n == 0 then [] else [".."] + Ups(n - 1)
  }

  /** A relative path that starts by leaving its base. */
  predicate Climbs(rel: string)
  {
    rel == ".." || HasPrefix(rel, "../")
  }

  function RelSegs(b: seq<string>, t: seq<string>): CleanPath
  {
    var k := CommonPrefix(b, t);
    CleanPath(false, Ups(|b| - k) + t[k..])
  }

  /** `filepath.Rel`: an error between a rooted and a relative path, or when the
    * base climbs where the target does not. */
  function Rel(base: string, target: string): Option<string>
  {
    var b, t := Norm(base), Norm(target);
    var k := CommonPrefix(b.segs, t.segs);
    if b.rooted != t.rooted || (!b.rooted && k < |b.segs| && b.segs[k] == "..") then None
    else Some(Render(RelSegs(b.segs, t.segs)))
  }

  /** `relativeTarget`, the same in both guards. */
  function RelativeTarget(filePath: string, cwd: string): string
  {
    if cwd == "" || !IsAbs(filePath) then Clean(filePath)
    else
      var rel := Rel(cwd, filePath);
      if rel.None? || HasPrefix(rel.value, "..") then Clean(filePath) else rel.value
  }

  /** The file a path names when used from a directory. */
  ghost function From(dir: CleanPath, path: string): CleanPath
  {
    if IsAbs(path) then Norm(path) else CleanPath(true, Fold(true, dir.segs, Split(path, '/')))
  }

  /** Cleaning the relative part first changes nothing. */
  lemma {:induction false} FoldThroughClean(stack: seq<string>, acc: seq<string>, segs: seq<string>)
    requires Normal(CleanPath(true, stack)) && Normal(CleanPath(false, acc))
    requires forall s :: s in segs ==> '/' !in s
    ensures Fold(true, stack, Fold(false, acc, segs)) == Fold(true, Fold(true, stack, acc), segs)
    decreases |segs|
  {
    if segs != [] {
      assert segs[0] in segs;
      var next := Push(false, acc, segs[0]);
      PushKeepsNormal(acc, segs[0]);
      PushThroughClean(stack, acc, segs[0]);
      FoldThroughClean(stack, next, segs[1..]);
    }
  }

  lemma PushKeepsNormal(acc: seq<string>, seg: string)
    requires Normal(CleanPath(false, acc)) && '/' !in seg
    ensures Normal(CleanPath(false, Push(false, acc, seg)))
  {
    FoldNormal(false, acc, [seg]);
    assert [seg][1..] == [];
  }

  lemma PushThroughClean(stack: seq<string>, acc: seq<string>, seg: string)
    requires Normal(CleanPath(true, stack)) && Normal(CleanPath(false, acc)) && '/' !in seg
    ensures Fold(true, stack, Push(false, acc, seg)) == Push(true, Fold(true, stack, acc), seg)
  {
    FoldConcat(true, stack, acc, [seg]);
    assert [seg][1..] == [];
    if seg == ".." && acc != [] && acc[|acc| - 1] != ".." {
      PopThroughClean(stack, acc);
    }
  }

  lemma PopThroughClean(stack: seq<string>, acc: seq<string>)
    requires acc != [] && Name(acc[|acc| - 1])
    ensures Push(true, Fold(true, stack, acc), "..") == Fold(true, stack, acc[..|acc| - 1])
  {
    var n := |acc| - 1;
    assert acc == acc[..n] + [acc[n]];
    FoldConcat(true, stack, acc[..n], [acc[n]]);
    assert [acc[n]][1..] == [];
    var inner := Fold(true, stack, acc[..n]);
    assert (inner + [acc[n]])[..|inner|] == inner;
  }

  lemma CleanKeepsFile(dir: CleanPath, path: string)
    requires dir.rooted && Normal(dir)
    ensures From(dir, Clean(path)) == From(dir, path)
  {
    CleanIdempotent(path);
    NormIsNormal(path);
    RenderedStart(Norm(path));
    if !IsAbs(path) {
      SplitPartsClean(path, '/');
      SplitPartsClean(Clean(path), '/');
      FoldThroughClean(dir.segs, [], Split(path, '/'));
      FoldThroughClean(dir.segs, [], Split(Clean(path), '/'));
    }
  }

  lemma UpsClimb(n: nat, segs: seq<string>)
    ensures n > 0 ==> Climbs(Render(CleanPath(false, Ups(n) + segs)))
    ensures n > 0 ==> HasPrefix(Render(CleanPath(false, Ups(n) + segs)), "..")
  {
    if n > 0 {
      var all := Ups(n) + segs;
      assert all[0] == ".." && all[1..] == Ups(n - 1) + segs;
      if |all| > 1 { assert Join(all, "/") == "../" + Join(all[1..], "/") by { assert ".." + "/" == "../"; } }
    }
  }

  lemma RelInside(cwd: string, filePath: string)
    requires IsAbs(cwd) && IsAbs(filePath)
    requires !HasPrefix(Rel(cwd, filePath).value, "..")
    ensures var b, t := Norm(cwd), Norm(filePath);
            b.segs <= t.segs && Rel(cwd, filePath).value == Render(CleanPath(false, t.segs[|b.segs|..]))
  {
    var b, t := Norm(cwd), Norm(filePath);
    var k := CommonPrefix(b.segs, t.segs);
    UpsClimb(|b.segs| - k, t.segs[k..]);
    assert [] + t.segs[k..] == t.segs[k..];
    assert b.segs[..|b.segs|] == b.segs;
  }

  /** The scope is checked on the path the tool was asked to edit: from an
    * absolute working directory, the relative target names the same file. */
  lemma RelativeTargetKeepsFile(filePath: string, cwd: string)
    requires IsAbs(cwd)
    ensures From(Norm(cwd), RelativeTarget(filePath, cwd)) == From(Norm(cwd), filePath)
  {
    var b, t := Norm(cwd), Norm(filePath);
    NormIsNormal(cwd);
    NormIsNormal(filePath);
    CleanKeepsFile(b, filePath);
    if IsAbs(filePath) && !HasPrefix(Rel(cwd, filePath).value, "..") {
      RelInside(cwd, filePath);
      var rest := t.segs[|b.segs|..];
      assert b.segs + rest == t.segs;
      var c := CleanPath(false, rest);
      forall i | 0 <= i < |rest| ensures Name(rest[i]) { assert rest[i] == t.segs[|b.segs| + i]; }
      NormRender(c);
      RenderedStart(c);
      FoldKeepsNormal(true, b.segs, rest);
      SplitPartsClean(Render(c), '/');
      FoldThroughClean(b.segs, [], Split(Render(c), '/'));
    }
  }

  /** What is left of the file's path below the directory. */
  ghost predicate BelowPlainly(dir: CleanPath, file: CleanPath)
  {
    dir.segs <= file.segs && (|file.segs| > |dir.segs| ==> !HasPrefix(file.segs[|dir.segs|], ".."))
  }

  /** The relative target in full: below the directory, unless the first name there
    * starts with two dots, the names that are left; otherwise the cleaned path. */
  lemma RelativeTargetIs(filePath: string, cwd: string)
    ensures RelativeTarget(filePath, cwd) ==
              if IsAbs(cwd) && IsAbs(filePath) && BelowPlainly(Norm(cwd), Norm(filePath))
              then Render(CleanPath(false, Norm(filePath).segs[|Norm(cwd).segs|..]))
              else Clean(filePath)
  {
    if IsAbs(cwd) && IsAbs(filePath) {
      var b, t := Norm(cwd), Norm(filePath);
      var k := CommonPrefix(b.segs, t.segs);
      NormIsNormal(filePath);
      UpsClimb(|b.segs| - k, t.segs[k..]);
      if b.segs <= t.segs {
        assert Ups(0) + t.segs[k..] == t.segs[k..];
        DotsInFirst(t, k);
      } else {
        assert k < |b.segs| by { assert b.segs[..|b.segs|] == b.segs; }
      }
    }
  }

  lemma DotsInFirst(t: CleanPath, k: nat)
    requires Normal(t) && t.rooted && k <= |t.segs|
    ensures HasPrefix(Render(CleanPath(false, t.segs[k..])), "..") <==> k < |t.segs| && HasPrefix(t.segs[k], "..")
  {
    if k < |t.segs| {
      assert Name(t.segs[k]) && t.segs[k..][0] == t.segs[k];
      var text := Render(CleanPath(false, t.segs[k..]));
      assert t.segs[k] <= text;
      if |t.segs[k]| == 1 && |text| > 1 { assert text[1] == '/'; }
    }
  }

  /** Without an absolute working directory the target is only cleaned. */
  lemma RelativeTargetCleans(filePath: string, cwd: string)
    requires !IsAbs(cwd)
    ensures Norm(RelativeTarget(filePath, cwd)) == Norm(filePath)
  {
    CleanIdempotent(filePath);
  }

  lemma FromRelative(dir: CleanPath, path: string)
    requires dir.rooted && Normal(dir) && !IsAbs(path)
    ensures From(dir, path).segs == Fold(true, dir.segs, Norm(path).segs)
    ensures Normal(From(dir, path))
  {
    SplitPartsClean(path, '/');
    FoldThroughClean(dir.segs, [], Split(path, '/'));
    FoldNormal(true, dir.segs, Split(path, '/'));
  }

  /** After a name, a cleaned path has names only. */
  lemma NamesFollow(c: CleanPath, k: nat)
    requires Normal(c) && k <= |c.segs| && (k == 0 ==> c.segs == [] || c.segs[0] != "..")
    requires k > 0 ==> c.segs[k - 1] != ".."
    ensures forall i :: 0 <= i < |c.segs[k..]| ==> Name(c.segs[k..][i])
  {
    forall i | 0 <= i < |c.segs[k..]| ensures Name(c.segs[k..][i]) {
      assert c.segs[k..][i] == c.segs[k + i];
    }
  }

  lemma EndsInName(c: CleanPath)
    requires Normal(c) && !AllUp(c.segs)
    ensures c.segs != [] && c.segs[|c.segs| - 1] != ".."
  {
  }

  /** From a rooted directory, names are added as they are. */
  lemma FoldNames(dir: seq<string>, names: seq<string>)
    requires Normal(CleanPath(true, dir)) && forall i :: 0 <= i < |names| ==> Name(names[i])
    ensures Fold(true, dir, names) == dir + names
  {
    FoldKeepsNormal(true, dir, names);
  }

  /** Coverage by an entry that does not only climb means lying at or under the
    * entry's file, from any absolute directory. */
  lemma CoveredIsUnder(cwd: string, entry: string, target: string)
    requires IsAbs(cwd) && !AllUp(Norm(entry).segs) && Covers(Norm(entry), Norm(target))
    ensures From(Norm(cwd), entry).segs <= From(Norm(cwd), target).segs
  {
    var dir, e, t := Norm(cwd), Norm(entry), Norm(target);
    NormIsNormal(cwd);
    NormIsNormal(entry);
    NormIsNormal(target);
    if !e.rooted {
      EndsInName(e);
      var more := t.segs[|e.segs|..];
      NamesFollow(t, |e.segs|);
      assert t.segs == e.segs + more;
      FromRelative(dir, entry);
      FromRelative(dir, target);
      FoldConcat(true, dir.segs, e.segs, more);
      FoldNames(From(dir, entry).segs, more);
    }
  }

  /** The file lies at or under the file of some target of the plan. */
  ghost predicate UnderATarget(p: Plan, cwd: string, filePath: string)
  {
    exists t :: t in AllTargets(p.steps) && UnderEntry(t, cwd, filePath)
  }

  ghost predicate UnderEntry(entry: string, cwd: string, filePath: string)
  {
    From(Norm(cwd), TrimSuffixStar(entry)).segs <= From(Norm(cwd), filePath).segs
  }

  /** Within the cap, a covered edit from an absolute working directory touches a
    * file at or under a target of the plan. */
  lemma CoveredEditIsUnder(p: Plan, cwd: string, filePath: string)
    requires WithinCap(p) && IsAbs(cwd) && CoveredBy(RelativeTarget(filePath, cwd), AllTargets(p.steps))
    ensures UnderATarget(p, cwd, filePath)
  {
    var targets, rel := AllTargets(p.steps), RelativeTarget(filePath, cwd);
    var i :| 0 <= i < |targets| && Covers(Norm(TrimSuffixStar(targets[i])), Norm(rel));
    var t := targets[i];
    assert t in targets && !IsWideTarget(t);
    if AllUp(Norm(TrimSuffixStar(t)).segs) { UpwardTargetIsWide(t); }
    CoveredIsUnder(cwd, TrimSuffixStar(t), rel);
    RelativeTargetKeepsFile(filePath, cwd);
    assert UnderEntry(t, cwd, filePath);
  }

  // ---------------------------------------------- staying in the project

  ghost predicate InProject(cwd: string, filePath: string)
  {
    Norm(cwd).segs <= From(Norm(cwd), filePath).segs
  }

  /** Every edit the targets cover from this directory touches a file of it. */
  ghost predicate StaysInside(cwd: string, targets: seq<string>)
  {
    forall filePath :: CoveredBy(RelativeTarget(filePath, cwd), targets) ==> InProject(cwd, filePath)
  }

  /** Exactly when the edits of a plan within the cap stay in a given directory: the
    * file each target names from there lies in it. */
  lemma StaysInsideIff(p: Plan, cwd: string)
    requires WithinCap(p) && IsAbs(cwd)
    ensures StaysInside(cwd, AllTargets(p.steps))
            <==> forall t :: t in AllTargets(p.steps) ==> InProject(cwd, TrimSuffixStar(t))
  {
    var targets := AllTargets(p.steps);
    forall t | t in targets && !InProject(cwd, TrimSuffixStar(t)) ensures !StaysInside(cwd, targets) {
      CoversOwnFile(targets, t, cwd);
    }
    if forall t :: t in targets ==> InProject(cwd, TrimSuffixStar(t)) {
      forall filePath | CoveredBy(RelativeTarget(filePath, cwd), targets) ensures InProject(cwd, filePath) {
        CoveredEditIsUnder(p, cwd, filePath);
        var t :| t in targets && UnderEntry(t, cwd, filePath);
      }
    }
  }

  /** A target that names a file outside the directory covers that file. */
  lemma CoversOwnFile(targets: seq<string>, t: string, cwd: string)
    requires t in targets && !IsWideTarget(t) && IsAbs(cwd) && !InProject(cwd, TrimSuffixStar(t))
    ensures var file := Clean(TrimSuffixStar(t));
            CoveredBy(RelativeTarget(file, cwd), targets) && !InProject(cwd, file)
  {
    var u := TrimSuffixStar(t);
    var i :| 0 <= i < |targets| && targets[i] == t;
    if AllUp(Norm(u).segs) { UpwardTargetIsWide(t); }
    NormIsNormal(cwd);
    CleanKeepsFile(Norm(cwd), u);
    OutsideIsKept(Clean(u), cwd);
    CleanIdempotent(u);
    assert Covers(Norm(TrimSuffixStar(targets[i])), Norm(RelativeTarget(Clean(u), cwd)));
  }

  /** A path to a file outside the directory is judged as it stands. */
  lemma OutsideIsKept(file: string, cwd: string)
    requires IsAbs(cwd) && !InProject(cwd, file)
    ensures Norm(RelativeTarget(file, cwd)) == Norm(file)
  {
    CleanIdempotent(file);
    if IsAbs(file) && !HasPrefix(Rel(cwd, file).value, "..") { RelInside(cwd, file); }
  }

  /** Exactly when they stay in whatever directory the edits are made from: no target
    * is an absolute path, and none escapes the cap behind white space. */
  lemma StaysInsideEverywhereIff(p: Plan)
    requires WithinCap(p)
    ensures (forall cwd :: IsAbs(cwd) ==> StaysInside(cwd, AllTargets(p.steps)))
            <==> forall t :: t in AllTargets(p.steps) ==> !IsAbs(t) && !Escapes(t)
  {
    var targets := AllTargets(p.steps);
    forall t | t in targets && (IsAbs(t) || Escapes(t))
      ensures exists cwd :: IsAbs(cwd) && !StaysInside(cwd, targets)
    {
      var cwd := LeavesFromSomewhere(t);
      StaysInsideIff(p, cwd);
    }
    if forall t :: t in targets ==> !IsAbs(t) && !Escapes(t) {
      forall cwd | IsAbs(cwd) ensures StaysInside(cwd, targets) {
        forall t | t in targets ensures InProject(cwd, TrimSuffixStar(t)) { InwardEntry(t, cwd); }
        StaysInsideIff(p, cwd);
      }
    }
  }

  lemma InwardEntry(t: string, cwd: string)
    requires IsAbs(cwd) && !IsWideTarget(t) && !IsAbs(t) && !Escapes(t)
    ensures InProject(cwd, TrimSuffixStar(t))
  {
    var u, dir := TrimSuffixStar(t), Norm(cwd);
    ReachesOutIff(t);
    NormIsNormal(cwd);
    NormIsNormal(u);
    NamesFollow(Norm(u), 0);
    assert Norm(u).segs[0..] == Norm(u).segs;
    FromRelative(dir, u);
    FoldNames(dir.segs, Norm(u).segs);
  }

  /** A directory other than the one the path starts in, seen from the root. */
  function Elsewhere(c: CleanPath): string
  {
    var fromRoot := Fold(true, [], c.segs);
    if fromRoot == [] then "x" else fromRoot[0] + "x"
  }

  lemma ElsewhereIsDirectory(c: CleanPath)
    requires Normal(c)
    ensures Name(Elsewhere(c)) && Normal(CleanPath(true, [Elsewhere(c)]))
    ensures !([Elsewhere(c)] <= Fold(true, [], c.segs))
  {
    SlashFree(c);
    FoldNormal(true, [], c.segs);
    var r, other := Fold(true, [], c.segs), Elsewhere(c);
    if r != [] {
      assert Name(CleanPath(true, r).segs[0]);
      assert |other| == |r[0]| + 1 && other[|r[0]|] == 'x';
    }
  }

  /** An absolute or escaping entry names a file outside some directory. */
  lemma LeavesFromSomewhere(t: string) returns (cwd: string)
    requires !IsWideTarget(t) && (IsAbs(t) || Escapes(t))
    ensures IsAbs(cwd) && !InProject(cwd, TrimSuffixStar(t))
  {
    var u := TrimSuffixStar(t);
    var c := Norm(u);
    NormIsNormal(u);
    OutwardEntry(t);
    ElsewhereIsDirectory(c);
    var dir := CleanPath(true, [Elsewhere(c)]);
    NormRender(dir);
    RenderedStart(dir);
    cwd := Render(dir);
    if c.rooted {
      FoldNames([], c.segs);
      assert [] + c.segs == c.segs;
    } else {
      FromRelative(dir, u);
      ClimbedElsewhere(c, dir);
    }
  }

  lemma OutwardEntry(t: string)
    requires !IsWideTarget(t) && (IsAbs(t) || Escapes(t))
    ensures var c := Norm(TrimSuffixStar(t)); c.segs != [] && (c.rooted || c.segs[0] == "..")
  {
    if AllUp(Norm(TrimSuffixStar(t)).segs) { UpwardTargetIsWide(t); }
    if !IsAbs(t) { ReachesOutIff(t); }
  }

  /** The first step up leaves a directory one level below the root. */
  lemma ClimbedElsewhere(c: CleanPath, dir: CleanPath)
    requires c.segs != [] && c.segs[0] == ".." && |dir.segs| == 1 && dir.segs[0] != ".."
    ensures Fold(true, dir.segs, c.segs) == Fold(true, [], c.segs)
  {
    assert dir.segs[..0] == [];
  }

  // ------------------------------------------------------------- decide

  datatype HookInput = HookInput(
    toolName: string, sessionID: string, cwd: string,
    path: string, filePath: string, notebookPath: string,
    newStr: string, newString: string, content: string)

  datatype Adapter = ClaudeCode | Copilot

  function FirstNonEmpty(a: string, b: string, c: string): string
  {
    if a != "" then a else if b != "" then b else c
  }

  function TargetPath(adapter: Adapter, h: HookInput): string
  {
    match adapter
    case ClaudeCode => FirstNonEmpty(h.filePath, h.path, h.notebookPath)
    case Copilot => FirstNonEmpty(h.path, h.filePath, h.notebookPath)
  }

  function EditedContent(adapter: Adapter, h: HookInput): string
  {
    match adapter
    case ClaudeCode => FirstNonEmpty(h.newString, h.newStr, h.content)
    case Copilot => FirstNonEmpty(h.newStr, h.newString, h.content)
  }

  predicate Contains(s: string, sub: string)
  {
    sub <= s || (s != "" && Contains(s[1..], sub))
  }

  predicate IsWriteTool(name: string)
  {
    || name in {"Edit", "Write", "MultiEdit", "NotebookEdit", "Update",
                "create_file", "edit_file", "editFiles", "str_replace_editor", "apply_patch"}
    || Contains(name, "Edit") || Contains(name, "Write")
  }

  /** `IsHarnessMetadata`, for the home directory (empty when unknown). */
  predicate IsHarnessMetadata(home: string, file: string)
  {
    file != "" && home != "" &&
    var rel := Rel(home + "/.claude/plans", Clean(file));
    rel.Some? && !Climbs(rel.value)
  }

  datatype Verdict =
    | Ungated | Allowed
    | GuardError | NoTicket | OutOfPlanScope | TicketRejected | SessionMismatch | InvariantViolation

  /** The content check: an error, or the violation messages. */
  datatype Check = CheckFailed | Checked(violations: seq<string>)

  /** What `decide` settles without the content check: a final verdict, or the
    * relative target to check. */
  datatype Local = Final(verdict: Verdict) | NeedsContent(target: string, claims: Claims)

  /** The ticket part of `decide`, on the relative target. */
  function DecideTicket<K(==)>(rel: string, sid: string, ticket: Option<Token<K>>, key: K, now: int): Local
  {
    if ticket.None? then Final(NoTicket)
    else
      match GuardTargets(ticket.value, key, now, [rel])
      case Refused(OutOfScope(_)) => Final(OutOfPlanScope)
      case Refused(_) => Final(TicketRejected)
      case Granted(claims) =>
        if sid != "" && claims.sessionID != sid then Final(SessionMismatch)
        else NeedsContent(rel, claims)
  }

  /** `decide` up to the content check; None is an unreadable payload. */
  function DecideLocal<K(==)>(adapter: Adapter, payload: Option<HookInput>, home: string, ticket: Option<Token<K>>,
                         key: K, now: int): Local
  {
    if payload.None? then Final(GuardError)
    else
      var h := payload.value;
      var target := TargetPath(adapter, h);
      if !IsWriteTool(h.toolName) then Final(Ungated)
      else if target == "" then Final(GuardError)
      else if IsHarnessMetadata(home, target) then Final(Ungated)
      else DecideTicket(RelativeTarget(target, h.cwd), h.sessionID, ticket, key, now)
  }

  /** The rest of `decide`; None is a guard without a verifier. */
  function DecideContent(check: Option<Check>): Verdict
  {
    if check.None? then Allowed
    else if check.value.CheckFailed? then GuardError
    else if check.value.violations != [] then InvariantViolation
    else Allowed
  }

  /** The ticket part lets through exactly a valid unexpired ticket of the same
    * session whose plan covers the path. */
  lemma DecideTicketIff<K>(rel: string, sid: string, p: Plan, ttl: int, issued: int, key: K, now: int)
    ensures var ticket := Issue(p, ttl, issued, key);
            DecideTicket(rel, sid, Some(ticket), key, now).NeedsContent?
            <==>
              && now < ticket.claims.expiresAt && CoveredBy(rel, AllTargets(p.steps))
              && (sid == "" || sid == p.sessionID)
  {
    GuardOneTarget(p, ttl, issued, key, now, rel);
  }

  /** The content check is reached exactly by a write of a real project path on a
    * ticket that lets it through. */
  lemma ContentReachedIff<K>(adapter: Adapter, h: HookInput, home: string, p: Plan, ttl: int, issued: int, key: K,
                             now: int)
    ensures var target := TargetPath(adapter, h);
            var ticket := Issue(p, ttl, issued, key);
            DecideLocal(adapter, Some(h), home, Some(ticket), key, now).NeedsContent?
            <==>
              && IsWriteTool(h.toolName) && target != "" && !IsHarnessMetadata(home, target)
              && now < ticket.claims.expiresAt
              && CoveredBy(RelativeTarget(target, h.cwd), AllTargets(p.steps))
              && (h.sessionID == "" || h.sessionID == p.sessionID)
  {
    DecideTicketIff(RelativeTarget(TargetPath(adapter, h), h.cwd), h.sessionID, p, ttl, issued, key, now);
  }

  /** The plans directory, as the guards find it from the home directory. */
  ghost function PlansDirectory(home: string): CleanPath
  {
    Norm(home + "/.claude/plans")
  }

  /** Harness metadata is exactly what lies at or under the plans directory of the
    * home: a path climbing out of it, or a sibling, stays guarded. */
  lemma HarnessMetadataIff(home: string, file: string)
    ensures IsHarnessMetadata(home, file) <==>
              home != "" && IsAbs(file) == IsAbs(home) && PlansDirectory(home).segs <= Norm(file).segs
  {
    var root := home + "/.claude/plans";
    if home != "" {
      PlansDirectoryEnds(home);
      if file == "" { assert Norm(file).segs == [] by { assert Split("", '/') == [""]; assert [""][1..] == []; } }
      CleanIdempotent(file);
      NormIsNormal(file);
      if Norm(file).rooted == Norm(root).rooted { SimpleRelIff(Norm(root).segs, Norm(file)); }
    }
  }

  /** It ends in a name, and is absolute exactly when the home is. */
  lemma PlansDirectoryEnds(home: string)
    requires home != ""
    ensures IsAbs(home + "/.claude/plans") == IsAbs(home)
    ensures var p := PlansDirectory(home).segs; p != [] && p[|p| - 1] == "plans"
  {
    var root := home + "/.claude/plans";
    assert root[0] == home[0];
    assert root == home + ['/'] + ".claude" + ['/'] + "plans";
    SplitConcat(home + ['/'] + ".claude", '/', "plans");
    SplitNoSeparator("plans", '/');
    var before := Split(home + ['/'] + ".claude", '/');
    FoldConcat(IsAbs(root), [], before, ["plans"]);
    assert ["plans"][1..] == [];
  }

  /** The relative path stays inside exactly when the base, which ends in a name,
    * is a segment prefix of the target. */
  lemma SimpleRelIff(b: seq<string>, c: CleanPath)
    requires Normal(c) && b != [] && b[|b| - 1] != ".."
    ensures !Climbs(Render(RelSegs(b, c.segs))) <==> b <= c.segs
  {
    var k := CommonPrefix(b, c.segs);
    if k < |b| {
      UpsClimb(|b| - k, c.segs[k..]);
    } else {
      RelInsidePrefix(b, c);
    }
  }

  lemma RelInsidePrefix(b: seq<string>, c: CleanPath)
    requires Normal(c) && b != [] && b[|b| - 1] != ".." && CommonPrefix(b, c.segs) == |b|
    ensures b <= c.segs && !Climbs(Render(RelSegs(b, c.segs)))
  {
    assert b[..|b|] == b;
    NamesFollow(c, |b|);
    assert RelSegs(b, c.segs) == CleanPath(false, c.segs[|b|..]) by {
      assert Ups(0) + c.segs[|b|..] == c.segs[|b|..];
    }
    NotUpwards(CleanPath(false, c.segs[|b|..]));
  }

  lemma NotUpwards(c: CleanPath)
    requires !c.rooted && forall i :: 0 <= i < |c.segs| ==> Name(c.segs[i])
    ensures !Climbs(Render(c))
  {
    var up := CleanPath(false, [".."]);
    NormRender(c);
    NormRender(up);
    PrefixOfRendered(up, c);
    assert ".." + "/" == "../";
  }
}
