/** Capability scope: matching a target against scope entries
  * (internal/smarttools/smarttools.go), the cap on scope breadth
  * (internal/linter/linter.go), the scope derived from a plan
  * (internal/ticket/ticket.go) and the guards' project-relative target. */
module Scope {
  import opened Text
  import opened Paths
  import opened PlanGraph

  // ----------------------------------------------------------- matching

  function TrimSuffixStar(s: string): string
  {
    if s != "" && s[|s| - 1] == '*' then s[..|s| - 1] else s
  }

  /** One turn of the loop of `targetAllowed`, on a cleaned target. */
  predicate EntryAllows(ct: string, entry: string)
  {
    var base := Clean(TrimSuffixStar(entry));
    base == "." || ct == base || HasPrefix(ct, base + "/")
  }

  /** `targetAllowed`. */
  predicate TargetAllowed(target: string, allowed: seq<string>)
  {
    allowed != [] && (EntryAllows(Clean(target), allowed[0]) || TargetAllowed(target, allowed[1..]))
  }

  /** The relation the matcher is meant to be: the entry is the project root, or
    * its segments begin the target's; the file-system root covers only itself. */
  ghost predicate Covers(base: CleanPath, target: CleanPath)
  {
    || base == HERE
    || (base.rooted == target.rooted && base.segs <= target.segs && (base.segs == [] ==> target == base))
  }

  lemma EntryAllowsIff(target: string, entry: string)
    ensures EntryAllows(Clean(target), entry) <==> Covers(Norm(TrimSuffixStar(entry)), Norm(target))
  {
    var e := TrimSuffixStar(entry);
    var b, t := Norm(e), Norm(target);
    NormIsNormal(e);
    NormIsNormal(target);
    CleanEqualIff(e, target);
    NormRender(b);
    NormRender(t);
    NormRender(HERE);
    assert Render(b) == "." <==> b == HERE;
    if b != HERE { PrefixOfRendered(b, t); }
  }

  lemma SlashFree(c: CleanPath)
    requires Normal(c)
    ensures forall s :: s in c.segs ==> '/' !in s
    ensures c.segs != [] ==> c.segs[0] != "" && '/' !in c.segs[0]
  {
    forall s | s in c.segs ensures '/' !in s && s != "" {
      var i :| 0 <= i < |c.segs| && c.segs[i] == s;
      assert Name(c.segs[i]) || c.segs[i] == "..";
    }
    if c.segs != [] { assert c.segs[0] in c.segs; }
  }

  lemma RenderedStart(c: CleanPath)
    requires Normal(c)
    ensures Render(c) != "" && (Render(c)[0] == '/' <==> c.rooted)
    ensures c.rooted && |Render(c)| > 1 ==> Render(c)[1] != '/'
  {
    SlashFree(c);
    if c.segs != [] { JoinStart(c.segs); }
  }

  lemma PrefixOfRendered(b: CleanPath, t: CleanPath)
    requires Normal(b) && Normal(t) && b != HERE
    ensures HasPrefix(Render(t), Render(b) + "/")
            <==> b.rooted == t.rooted && b.segs != [] && b.segs < t.segs
  {
    RenderedStart(b);
    RenderedStart(t);
    SlashFree(b);
    SlashFree(t);
    var rb, rt := Render(b), Render(t);
    if b.rooted != t.rooted {
      assert (rb + "/")[0] == rb[0];
    } else if b.segs == [] {
      assert rb + "/" == "//";
    } else if t.segs == [] {
      assert |rt| == 1 && |rb + "/"| >= 2;
    } else {
      assert forall s :: s in b.segs + t.segs ==> s in b.segs || s in t.segs;
      JoinPrefix(b.segs, t.segs);
      if b.rooted {
        var jb, jt := Join(b.segs, "/"), Join(t.segs, "/");
        assert rb + "/" == "/" + (jb + "/");
        PrefixCons('/', jb + "/", jt);
      }
    }
  }

  lemma PrefixCons(c: char, a: string, b: string)
    ensures [c] + a <= [c] + b <==> a <= b
  {
    assert ([c] + b)[1..] == b && ([c] + a)[1..] == a;
    if [c] + a <= [c] + b {
      forall i | 0 <= i < |a| ensures a[i] == b[i] {
        assert ([c] + a)[i + 1] == ([c] + b)[i + 1];
      }
    }
  }

  /** `targetAllowed` is exactly segment-prefix coverage by some entry. */
  lemma {:induction false} TargetAllowedIff(target: string, allowed: seq<string>)
    ensures TargetAllowed(target, allowed)
            <==> exists i :: 0 <= i < |allowed| && Covers(Norm(TrimSuffixStar(allowed[i])), Norm(target))
  {
    if allowed != [] {
      EntryAllowsIff(target, allowed[0]);
      TargetAllowedIff(target, allowed[1..]);
      var rest := allowed[1..];
      if TargetAllowed(target, rest) {
        var i :| 0 <= i < |rest| && Covers(Norm(TrimSuffixStar(rest[i])), Norm(target));
        assert allowed[i + 1] == rest[i];
      }
      if i :| 0 <= i < |allowed| && Covers(Norm(TrimSuffixStar(allowed[i])), Norm(target)) {
        if i > 0 { assert rest[i - 1] == allowed[i]; }
      }
    }
  }

  lemma CoversTransitive(a: CleanPath, b: CleanPath, t: CleanPath)
    requires Covers(a, b) && Covers(b, t)
    ensures Covers(a, t)
  {
  }

  /** What a scope allows, taken as a nested star-free scope, allows no more. */
  lemma NestedScopeComposes(scope: seq<string>, inner: string, target: string)
    requires TrimSuffixStar(inner) == inner
    requires TargetAllowed(inner, scope) && TargetAllowed(target, [inner])
    ensures TargetAllowed(target, scope)
  {
    TargetAllowedIff(inner, scope);
    TargetAllowedIff(target, [inner]);
    TargetAllowedIff(target, scope);
    var i :| 0 <= i < |scope| && Covers(Norm(TrimSuffixStar(scope[i])), Norm(inner));
    CoversTransitive(Norm(TrimSuffixStar(scope[i])), Norm(inner), Norm(target));
  }

  /** A sibling sharing only a character prefix with an entry's last segment is
    * never allowed by it. */
  lemma SiblingRefused(entry: string, target: string, more: string)
    requires var b, t := Norm(TrimSuffixStar(entry)), Norm(target);
             var last := |b.segs| - 1;
             b.segs != [] && more != "" && last < |t.segs| && t.segs[last] == b.segs[last] + more
    ensures !TargetAllowed(target, [entry])
  {
    TargetAllowedIff(target, [entry]);
  }

  // ------------------------------------------------------ the breadth cap

  /** `unicode.IsSpace`. */
  predicate IsSpace(c: char)
  {
    || '\t' <= c <= '\r' || c == ' ' || c == '\U{85}' || c == '\U{A0}' || c == '\U{1680}'
    || '\U{2000}' <= c <= '\U{200A}' || c == '\U{2028}' || c == '\U{2029}' || c == '\U{202F}'
    || c == '\U{205F}' || c == '\U{3000}'
  }

  function TrimLeftSpace(s: string): string
  {
    if s != "" && IsSpace(s[0]) then TrimLeftSpace(s[1..]) else s
  }

  function TrimRightSpace(s: string): string
  {
    if s != "" && IsSpace(s[|s| - 1]) then TrimRightSpace(s[..|s| - 1]) else s
  }

  function TrimSpace(s: string): string
  {
    TrimRightSpace(TrimLeftSpace(s))
  }

  function TrimRightStars(s: string): string
  {
    if s != "" && s[|s| - 1] == '*' then TrimRightStars(s[..|s| - 1]) else s
  }

  /** Unicode's 25 characters of white space. */
  const WHITE_SPACE: string :=
    "\t\n\U{B}\U{C}\r \U{85}\U{A0}\U{1680}\U{2000}\U{2001}\U{2002}\U{2003}\U{2004}\U{2005}\U{2006}"
    + "\U{2007}\U{2008}\U{2009}\U{200A}\U{2028}\U{2029}\U{202F}\U{205F}\U{3000}"

  lemma IsSpaceIff(c: char)
    ensures IsSpace(c) <==> c in WHITE_SPACE
  {
  }

  ghost predicate AllSpace(s: string)
  {
    forall i :: 0 <= i < |s| ==> IsSpace(s[i])
  }

  /** Trimming takes all white space off both ends and nothing else. */
  lemma TrimSpaceIs(s: string)
    ensures var t := TrimSpace(s);
            && (exists a, b :: AllSpace(a) && AllSpace(b) && s == a + t + b)
            && (t != "" ==> !IsSpace(t[0]) && !IsSpace(t[|t| - 1]))
  {
    var k := TrimLeftFacts(s);
    var l := TrimRightFacts(s[k..]);
    TrimRightEnd(s[k..]);
    TrimLeftOnce(s);
    assert AllSpace(s[..k]) && AllSpace(s[k..][l..]);
    assert s == s[..k] + TrimSpace(s) + s[k..][l..];
  }

  lemma {:induction false} TrimRightEnd(s: string)
    ensures var t := TrimRightSpace(s); t != "" ==> !IsSpace(t[|t| - 1])
  {
    if s != "" && IsSpace(s[|s| - 1]) { TrimRightEnd(s[..|s| - 1]); }
  }

  /** All trailing stars come off, and nothing else. */
  lemma {:induction false} TrimRightStarsIs(s: string)
    ensures var t := TrimRightStars(s);
            && t <= s && (forall i :: |t| <= i < |s| ==> s[i] == '*') && (t != "" ==> t[|t| - 1] != '*')
  {
    if s != "" && s[|s| - 1] == '*' { TrimRightStarsIs(s[..|s| - 1]); }
  }

  /** One trailing star comes off. */
  lemma TrimSuffixStarIs(s: string)
    ensures TrimSuffixStar(s + "*") == s
    ensures (s != "" ==> s[|s| - 1] != '*') ==> TrimSuffixStar(s) == s
  {
  }

  /** `isWideTarget`. */
  predicate IsWideTarget(target: string)
  {
    var t := TrimSpace(target);
    t == "" ||
    var prefix := TrimRightStars(t);
    prefix == "" ||
    var clean := Clean(prefix);
    clean == "." || clean == ".." || clean == "/" || HasPrefix(clean, "../")
  }

  /** The repository root, the file-system root, or anything above the root. */
  ghost predicate Wide(c: CleanPath)
  {
    c.segs == [] || (!c.rooted && c.segs[0] == "..")
  }

  lemma IsWideTargetIff(target: string)
    ensures IsWideTarget(target) <==> Wide(Norm(TrimRightStars(TrimSpace(target))))
  {
    var prefix := TrimRightStars(TrimSpace(target));
    var c := Norm(prefix);
    NormIsNormal(prefix);
    NormRender(c);
    NormRender(HERE);
    NormRender(CleanPath(true, []));
    var up := CleanPath(false, [".."]);
    NormRender(up);
    PrefixOfRendered(up, c);
    assert [""][1..] == [];
    assert Norm("") == HERE;
    assert Render(up) == ".." && Render(CleanPath(true, [])) == "/";
    assert HasPrefix(Clean(prefix), "../") <==> !c.rooted && up.segs < c.segs by { assert ".." + "/" == "../"; }
    assert Clean(prefix) == ".." <==> c == up;
  }

  /** Nothing but steps upwards (possibly none). */
  ghost predicate AllUp(segs: seq<string>)
  {
    forall i :: 0 <= i < |segs| ==> segs[i] == ".."
  }

  ghost predicate Names(segs: seq<string>)
  {
    forall i :: 0 <= i < |segs| ==> segs[i] != "" && segs[i] != "." && segs[i] != ".."
  }

  lemma NormEmpty()
    ensures Norm("") == HERE
  {
    assert [""][1..] == [];
  }

  /** Upward steps come before everything else, as in every cleaned path. */
  ghost predicate Ordered(stack: seq<string>)
  {
    forall i, j :: 0 <= i < j < |stack| && stack[j] == ".." ==> stack[i] == ".."
  }

  /** A relative stack below one more segment: its first upward step, if any,
    * takes that segment away. */
  function Under(x: string, stack: seq<string>): seq<string>
  {
    if stack != [] && stack[0] == ".." then stack[1..] else [x] + stack
  }

  lemma PushUnder(x: string, stack: seq<string>, seg: string)
    requires x != ".." && Ordered(stack)
    ensures Push(false, Under(x, stack), seg) == Under(x, Push(false, stack, seg)) && Ordered(Push(false, stack, seg))
  {
    if seg == ".." && stack != [] && stack[|stack| - 1] != ".." {
      PopUnder(x, stack);
    } else if seg !in {"", "."} {
      AppendUnder(x, stack, seg);
    }
  }

  lemma PopUnder(x: string, stack: seq<string>)
    requires x != ".." && Ordered(stack) && stack != [] && stack[|stack| - 1] != ".."
    ensures Push(false, Under(x, stack), "..") == Under(x, stack[..|stack| - 1])
  {
    var n := |stack| - 1;
    if stack[0] == ".." {
      assert stack[1..][..n - 1] == stack[..n][1..];
    } else {
      assert ([x] + stack)[..n + 1] == [x] + stack[..n];
    }
  }

  lemma AppendUnder(x: string, stack: seq<string>, seg: string)
    requires x != ".." && seg !in {"", "."} && Ordered(stack)
             && (seg == ".." ==> stack == [] || stack[|stack| - 1] == "..")
    ensures Push(false, Under(x, stack), seg) == Under(x, stack + [seg]) && Ordered(stack + [seg])
  {
    var n := |stack|;
    if n > 0 {
      if stack[0] == ".." {
        assert (stack + [seg])[1..] == stack[1..] + [seg];
        if n > 1 { assert stack[1..][n - 2] == stack[n - 1]; }
      } else {
        assert [x] + (stack + [seg]) == ([x] + stack) + [seg];
      }
    }
  }

  lemma {:induction false} FoldUnder(x: string, stack: seq<string>, segs: seq<string>)
    requires x != ".." && Ordered(stack)
    ensures Fold(false, Under(x, stack), segs) == Under(x, Fold(false, stack, segs))
            && Ordered(Fold(false, stack, segs))
    decreases |segs|
  {
    if segs != [] {
      PushUnder(x, stack, segs[0]);
      FoldUnder(x, Push(false, stack, segs[0]), segs[1..]);
    }
  }

  /** One more upward step in front stays in front. */
  lemma {:induction false} FoldAfterUp(stack: seq<string>, segs: seq<string>)
    requires Ordered(stack)
    ensures Fold(false, [".."] + stack, segs) == [".."] + Fold(false, stack, segs)
    decreases |segs|
  {
    if segs != [] {
      var n := |stack|;
      PushUnder("x", stack, segs[0]);
      if n > 0 {
        assert ([".."] + stack)[n] == stack[n - 1];
        assert ([".."] + stack)[..n] == [".."] + stack[..n - 1];
      }
      assert [".."] + (stack + [segs[0]]) == ([".."] + stack) + [segs[0]];
      FoldAfterUp(Push(false, stack, segs[0]), segs[1..]);
    }
  }

  /** What is left of a relative stack when it is read from the root. */
  function DropUps(stack: seq<string>): seq<string>
  {
    if stack != [] && stack[0] == ".." then DropUps(stack[1..]) else stack
  }

  lemma {:induction false} DropUpsAppend(stack: seq<string>, seg: string)
    requires Ordered(stack + [seg])
    ensures DropUps(stack + [seg]) == if seg == ".." then [] else DropUps(stack) + [seg]
    ensures seg == ".." ==> DropUps(stack) == []
  {
    if stack != [] {
      assert (stack + [seg])[0] == stack[0] && (stack + [seg])[|stack|] == seg;
      assert (stack + [seg])[1..] == stack[1..] + [seg];
      if stack[0] == ".." { DropUpsAppend(stack[1..], seg); }
    } else {
      assert [seg][1..] == [];
    }
  }

  lemma PushDropped(stack: seq<string>, seg: string)
    requires Ordered(stack)
    ensures Push(true, DropUps(stack), seg) == DropUps(Push(false, stack, seg))
  {
    var n := |stack|;
    PushUnder("x", stack, seg);
    if n > 0 {
      assert stack == stack[..n - 1] + [stack[n - 1]];
      DropUpsAppend(stack[..n - 1], stack[n - 1]);
    }
    if seg !in {"", "."} && !(seg == ".." && n > 0 && stack[n - 1] != "..") {
      DropUpsAppend(stack, seg);
    }
  }

  lemma {:induction false} FoldDropped(stack: seq<string>, segs: seq<string>)
    requires Ordered(stack)
    ensures Fold(true, DropUps(stack), segs) == DropUps(Fold(false, stack, segs))
    decreases |segs|
  {
    if segs != [] {
      PushUnder("x", stack, segs[0]);
      PushDropped(stack, segs[0]);
      FoldDropped(Push(false, stack, segs[0]), segs[1..]);
    }
  }

  lemma {:induction false} AllUpDropped(stack: seq<string>)
    requires AllUp(stack)
    ensures DropUps(stack) == []
  {
    if stack != [] { AllUpDropped(stack[1..]); }
  }

  lemma FoldLast(rooted: bool, segs: seq<string>)
    requires segs != []
    ensures Fold(rooted, [], segs) == Push(rooted, Fold(rooted, [], segs[..|segs| - 1]), segs[|segs| - 1])
  {
    var n := |segs| - 1;
    assert segs == segs[..n] + [segs[n]];
    FoldConcat(rooted, [], segs[..n], [segs[n]]);
    assert [segs[n]][1..] == [];
  }

  /** The last part of a non-empty path tells its last character. */
  lemma {:induction false} LastPart(u: string)
    requires u != ""
    ensures var parts := Split(u, '/'); var last := parts[|parts| - 1];
            (last == "" ==> u[|u| - 1] == '/') && (last != "" ==> u[|u| - 1] == last[|last| - 1])
  {
    if |u| == 1 {
      assert Split("", '/') == [""];
      assert u == [u[0]];
    } else {
      LastPart(u[1..]);
      var rest := Split(u[1..], '/');
      if u[0] != '/' && |rest| == 1 {
        assert Extend(u[0], rest) == [[u[0]] + rest[0]];
      }
    }
  }

  /** A path ending all the way up ends in a '/' or a '.'. */
  lemma UpEnds(u: string)
    requires u != "" && AllUp(Norm(u).segs)
    ensures u[|u| - 1] == '/' || u[|u| - 1] == '.'
  {
    var parts := Split(u, '/');
    FoldLast(IsAbs(u), parts);
    LastPart(u);
    var last := parts[|parts| - 1];
    var front := Fold(IsAbs(u), [], parts[..|parts| - 1]);
    if last != "" && last != "." && last != ".." {
      assert (front + [last])[|front|] == last;
    }
  }

  /** Stripping leading white space. */
  lemma {:induction false} TrimLeftFacts(u: string) returns (k: nat)
    ensures k <= |u| && TrimLeftSpace(u) == u[k..]
    ensures forall i :: 0 <= i < k ==> IsSpace(u[i])
  {
    if u != "" && IsSpace(u[0]) {
      var j := TrimLeftFacts(u[1..]);
      assert u[1..][j..] == u[j + 1..];
      forall i | 0 <= i < j + 1 ensures IsSpace(u[i]) {
        if i > 0 { assert u[1..][i - 1] == u[i]; }
      }
      k := j + 1;
    } else {
      k := 0;
    }
  }

  lemma {:induction false} SplitWithSpaces(u: string, k: nat)
    requires k <= |u| && forall i :: 0 <= i < k ==> u[i] != '/'
    ensures var rest := Split(u[k..], '/');
            Split(u, '/') == [u[..k] + rest[0]] + rest[1..]
    decreases k
  {
    if k == 0 {
      assert u[..0] == "" && "" + Split(u, '/')[0] == Split(u, '/')[0];
    } else {
      SplitWithSpaces(u[1..], k - 1);
      assert u[1..][k - 1..] == u[k..];
      assert u[..k] == [u[0]] + u[1..][..k - 1];
      var rest := Split(u[k..], '/');
      assert [u[0]] + (u[1..][..k - 1] + rest[0]) == u[..k] + rest[0];
    }
  }

  lemma RootedUp(u: string)
    ensures IsAbs(u) && AllUp(Norm(u).segs) ==> Norm(u).segs == []
  {
    NormIsNormal(u);
    var segs := Norm(u).segs;
    assert IsAbs(u) && segs != [] ==> segs[0] != "..";
  }

  /** The relative reading of what follows the root of a rooted path. */
  function AfterRoot(v: string): seq<string>
    requires IsAbs(v)
  {
    Fold(false, [], Split(v[1..], '/'))
  }

  /** A path that begins with white space, and what trimming makes of it: the
    * first segment, a name, becomes the trimmed path's first segment. */
  lemma SpacedNorm(u: string) returns (x: string, first: string, a: seq<string>)
    requires u != "" && IsSpace(u[0])
    ensures x !in {"", ".", ".."} && Ordered(a) && Norm(u) == CleanPath(false, Under(x, a))
    ensures var v := TrimLeftSpace(u);
            && Norm(v).segs == Fold(IsAbs(v), Push(IsAbs(v), [], first), Split(v, '/')[1..])
            && first == Split(v, '/')[0] && a == Fold(false, [], Split(v, '/')[1..])
            && (IsAbs(v) ==> first == "" && a == AfterRoot(v)) && (first == "" ==> IsAbs(v) || v == "")
  {
    var k := TrimLeftFacts(u);
    var v := u[k..];
    if k == 0 { assert v == u; }
    SplitWithSpaces(u, k);
    var parts := Split(v, '/');
    first, x, a := parts[0], u[..k] + parts[0], Fold(false, [], parts[1..]);
    var none: seq<string> := [];
    assert x[0] == u[0] && u[0] != '/' && Split(u, '/')[0] == x && Split(u, '/')[1..] == parts[1..];
    FoldUnder(x, none, parts[1..]);
    assert Under(x, none) == [x] + none == [x] == none + [x];
    assert Fold(false, none, Split(u, '/')) == Fold(false, Push(false, none, x), parts[1..]);
    FirstPart(v);
  }

  lemma FirstPart(v: string)
    ensures IsAbs(v) ==> Split(v, '/')[0] == "" && Split(v, '/')[1..] == Split(v[1..], '/')
    ensures Split(v, '/')[0] == "" ==> IsAbs(v) || v == ""
  {
  }

  /** When trimming does not make it rooted, a path leaving the project still does. */
  lemma TrimmedStillOut(u: string)
    requires Wide(Norm(u)) && !IsAbs(TrimLeftSpace(u))
    ensures Wide(Norm(TrimLeftSpace(u)))
  {
    if u != "" && IsSpace(u[0]) {
      var x, first, a := SpacedNorm(u);
      var v := TrimLeftSpace(u);
      var rest := Split(v, '/')[1..];
      var none: seq<string> := [];
      if first == "" {
        NormEmpty();
      } else if first == ".." {
        FoldAfterUp(none, rest);
        assert [".."] + none == [".."] == none + [".."];
        assert Norm(v).segs == [".."] + a;
      } else if first != "." {
        FoldUnder(first, none, rest);
        assert Under(first, none) == [first] + none == [first] == none + [first];
      }
    }
  }

  /** When it does, the path left the project exactly if the rooted path, read as
    * a relative one, climbs: by one step to the project root, by two out of it. */
  lemma SpacedRootWideIff(u: string)
    requires u != "" && IsSpace(u[0]) && IsAbs(TrimLeftSpace(u))
    ensures var a := AfterRoot(TrimLeftSpace(u));
            && (Wide(Norm(u)) <==> a != [] && a[0] == ".." && (|a| == 1 || a[1] == ".."))
            && (|a| == 1 && a[0] == ".." ==> AllUp(Norm(u).segs))
            && (|a| >= 2 && a[1] == ".." ==> a[0] == "..")
  {
    var _, _, _ := SpacedNorm(u);
  }

  lemma UnderUp(x: string, a: seq<string>)
    requires x != ".."
    ensures AllUp(Under(x, a)) ==> a != [] && a[0] == ".."
  {
    if a == [] || a[0] != ".." { assert Under(x, a)[0] == x; }
  }

  /** Trimming leading white space leaves a path that ends all the way up wide. */
  lemma TrimmedStillWide(u: string)
    requires AllUp(Norm(u).segs)
    ensures Wide(Norm(TrimLeftSpace(u)))
  {
    var v := TrimLeftSpace(u);
    RootedUp(u);
    if u != "" && IsSpace(u[0]) && IsAbs(v) {
      var x, first, a := SpacedNorm(u);
      assert AllUp(a) by {
        UnderUp(x, a);
        forall i | 0 <= i < |a| ensures a[i] == ".." { if i > 0 { assert a[1..][i - 1] == a[i]; } }
      }
      AllUpDropped(a);
      FoldDropped([], Split(v, '/')[1..]);
    } else if !IsAbs(v) {
      TrimmedStillOut(u);
    }
  }

  lemma LoneStar(target: string)
    requires TrimSuffixStar(target) == ""
    ensures TrimRightStars(TrimSpace(target)) == ""
  {
    assert target == "" || target == "*" by { assert target != "" ==> target == [target[0]]; }
    assert TrimLeftSpace("*") == "*";
    assert TrimRightStars("*") == TrimRightStars("") by { assert "*"[..0] == ""; }
  }

  /** A text ending in '/' or '.', with or without one star after it, loses
    * nothing but its leading white space and that star. */
  lemma PrefixLeft(target: string, u: string)
    requires u == TrimSuffixStar(target) && u != "" && (u[|u| - 1] == '/' || u[|u| - 1] == '.')
    ensures TrimRightStars(TrimSpace(target)) == TrimLeftSpace(u)
  {
    TrimLeftKeepsEnd(u);
    OneStarOff(TrimLeftSpace(u));
    if target != u {
      assert target == u + ['*'];
      TrimLeftAppend(u, '*');
    }
  }

  lemma OneStarOff(v: string)
    requires v != "" && !IsSpace(v[|v| - 1]) && v[|v| - 1] != '*'
    ensures TrimRightStars(TrimRightSpace(v)) == v && TrimRightStars(TrimRightSpace(v + ['*'])) == v
  {
    assert (v + ['*'])[..|v|] == v;
  }

  /** The two ways of trimming meet: an entry that would be allow-all, or point
    * above the root, comes from a target the cap calls wide. */
  lemma UpwardTargetIsWide(target: string)
    requires AllUp(Norm(TrimSuffixStar(target)).segs)
    ensures IsWideTarget(target)
  {
    var u := TrimSuffixStar(target);
    IsWideTargetIff(target);
    if u == "" {
      LoneStar(target);
      NormEmpty();
    } else {
      UpEnds(u);
      TrimmedStillWide(u);
      PrefixLeft(target, u);
    }
  }

  lemma {:induction false} TrimLeftKeepsEnd(u: string)
    requires u != "" && !IsSpace(u[|u| - 1])
    ensures TrimLeftSpace(u) != "" && TrimLeftSpace(u)[|TrimLeftSpace(u)| - 1] == u[|u| - 1]
  {
    if IsSpace(u[0]) { TrimLeftKeepsEnd(u[1..]); }
  }

  lemma {:induction false} TrimLeftAppend(u: string, c: char)
    requires !IsSpace(c)
    ensures TrimLeftSpace(u + [c]) == TrimLeftSpace(u) + [c]
  {
    if u != "" && IsSpace(u[0]) {
      TrimLeftAppend(u[1..], c);
      assert (u + [c])[0] == u[0] && (u + [c])[1..] == u[1..] + [c];
    }
  }

  lemma {:induction false} TrimRightFacts(s: string) returns (k: nat)
    ensures k <= |s| && TrimRightSpace(s) == s[..k]
    ensures forall i :: k <= i < |s| ==> IsSpace(s[i])
    ensures s != "" && !IsSpace(s[|s| - 1]) ==> k == |s|
  {
    if s != "" && IsSpace(s[|s| - 1]) {
      k := TrimRightFacts(s[..|s| - 1]);
      assert s[..|s| - 1][..k] == s[..k];
    } else {
      k := |s|;
    }
  }

  lemma {:induction false} TrimStarsFacts(s: string) returns (k: nat)
    ensures k <= |s| && TrimRightStars(s) == s[..k]
    ensures forall i :: k <= i < |s| ==> s[i] == '*'
    ensures s != "" && s[|s| - 1] == '*' ==> k < |s|
  {
    if s != "" && s[|s| - 1] == '*' {
      k := TrimStarsFacts(s[..|s| - 1]);
      assert s[..|s| - 1][..k] == s[..k];
    } else {
      k := |s|;
    }
  }

  /** What the cap looks at, for a target that does not begin with white space: a
    * prefix of the scope entry, short of white space and stars only. */
  lemma CapPrefix(t: string) returns (v: string, w: string)
    requires t != "" && !IsSpace(t[0])
    ensures v == TrimRightStars(TrimSpace(t)) && TrimSuffixStar(t) == v + w
    ensures forall i :: 0 <= i < |w| ==> IsSpace(w[i]) || w[i] == '*'
  {
    var m := TrimRightFacts(t);
    var k := TrimStarsFacts(t[..m]);
    v := t[..k];
    assert TrimSpace(t) == t[..m] && t[..m][..k] == v;
    var u := TrimSuffixStar(t);
    if EndsWithStar(t) {
      assert m == |t| && t[..m] == t;
    }
    w := u[k..];
    assert u[..k] == v;
    forall i | 0 <= i < |w| ensures IsSpace(w[i]) || w[i] == '*' {
      assert w[i] == t[k + i];
      if k + i < m { assert t[..m][k + i] == '*'; }
    }
  }

  /** A path that climbs still does when its last part is cut short. */
  lemma CutStillClimbs(v: string, w: string)
    requires v != "" && w != "" && '/' !in w && w[|w| - 1] != '.'
    requires !IsAbs(v) && Wide(Norm(v + w)) && Norm(v + w).segs != []
    ensures Wide(Norm(v))
  {
    var parts, longer := Split(v, '/'), Split(v + w, '/');
    var n := |parts| - 1;
    SplitExtended(v, '/', w);
    FoldLast(false, parts);
    FoldLast(false, longer);
    assert (v + w)[0] == v[0];
    assert longer[..|longer| - 1] == parts[..n];
    var front, last := Fold(false, [], parts[..n]), parts[n];
    assert (last + w)[|last + w| - 1] == w[|w| - 1];
    assert Norm(v + w).segs == front + [last + w];
  }

  /** Without white space in front, no target within the cap reaches out. */
  lemma UnspacedKeepsInside(t: string)
    requires !IsWideTarget(t) && !IsSpace(t[0])
    ensures !Wide(Norm(TrimSuffixStar(t)))
  {
    IsWideTargetIff(t);
    var v, w := CapPrefix(t);
    if Wide(Norm(v + w)) {
      assert w == "" ==> v + w == v;
      NormEmpty();
      if v == "" || w == "" {
        assert false;
      } else if AllUp(Norm(v + w).segs) {
        UpwardTargetIsWide(t);
      } else {
        NormIsNormal(v + w);
        assert IsSpace(w[|w| - 1]) || w[|w| - 1] == '*';
        CutStillClimbs(v, w);
      }
    }
  }

  /** White space hides a rooted path that, read as a relative one, climbs two
    * levels: the cap sees the rooted path, the matcher the relative one. */
  predicate Escapes(t: string)
  {
    t != "" && IsSpace(t[0]) &&
    var v := TrimLeftSpace(TrimSuffixStar(t));
    IsAbs(v) && |AfterRoot(v)| >= 2 && AfterRoot(v)[1] == ".."
  }

  /** Exactly which targets within the cap give an entry reaching out of the
    * project (or the whole of it). */
  lemma ReachesOutIff(t: string)
    requires !IsWideTarget(t)
    ensures Wide(Norm(TrimSuffixStar(t))) <==> Escapes(t)
  {
    var u := TrimSuffixStar(t);
    var v := TrimLeftSpace(u);
    if !IsSpace(t[0]) {
      UnspacedKeepsInside(t);
    } else if IsAbs(v) {
      TrimsCommute(t);
      SpacedRootWideIff(u);
      if AllUp(Norm(u).segs) { UpwardTargetIsWide(t); }
    } else {
      TrimsCommute(t);
      TrimLeftOnce(t);
      UnspacedKeepsInside(TrimLeftSpace(t));
      if Wide(Norm(u)) { TrimmedStillOut(u); }
    }
  }

  lemma {:induction false} TrimLeftOnce(t: string)
    ensures TrimLeftSpace(TrimLeftSpace(t)) == TrimLeftSpace(t)
    ensures TrimLeftSpace(t) != "" ==> !IsSpace(TrimLeftSpace(t)[0])
  {
    if t != "" && IsSpace(t[0]) { TrimLeftOnce(t[1..]); }
  }

  lemma TrimsCommute(t: string)
    ensures TrimSuffixStar(TrimLeftSpace(t)) == TrimLeftSpace(TrimSuffixStar(t))
    ensures t != "" && IsSpace(t[0]) ==> TrimSuffixStar(t) != "" && TrimSuffixStar(t)[0] == t[0]
  {
    var u := TrimSuffixStar(t);
    if EndsWithStar(t) {
      assert t == u + ['*'];
      TrimLeftAppend(u, '*');
    } else {
      TrimLeftEnd(t);
    }
  }

  lemma {:induction false} TrimLeftEnd(t: string)
    ensures !EndsWithStar(t) ==> !EndsWithStar(TrimLeftSpace(t))
  {
    if t != "" && IsSpace(t[0]) { TrimLeftEnd(t[1..]); }
  }

  /** A name after two steps up and whatever first part. */
  function UpTwice(first: string, name: string): string
  {
    Join([first, "..", "..", name], "/")
  }

  lemma UpTwiceNorm(first: string, name: string)
    requires '/' !in first && '/' !in name && Names([name]) && (first == "" || Names([first]))
    requires IsAbs(UpTwice(first, name)) == (first == "")
    ensures Norm(UpTwice(first, name)) == if first == "" then CleanPath(true, [name])
            else CleanPath(false, ["..", name])
  {
    var parts := [first, "..", "..", name];
    SplitJoin(parts, '/');
    assert name == [name][0];
    var rooted, none := first == "", [];
    assert Fold(rooted, none, parts) == Fold(rooted, Push(rooted, none, first), ["..", "..", name]) by {
      assert parts[1..] == ["..", "..", name];
    }
    assert Push(rooted, Push(rooted, none, first), "..")
      == none by { assert none + [first] == [first] && [first][..0] == none; }
    assert Fold(rooted, none, ["..", name]) == Fold(rooted, Push(rooted, none, ".."), [name]) by {
      assert ["..", name][1..] == [name];
    }
    FoldName(rooted, Push(rooted, none, ".."), name);
  }

  lemma FoldName(rooted: bool, stack: seq<string>, name: string)
    requires Names([name])
    ensures Fold(rooted, stack, [name]) == stack + [name]
  {
    assert name == [name][0] && [name][1..] == [];
  }

  /** There are such targets: a name two steps up, after the root and a space. */
  lemma LeadingSpaceMatters(name: string)
    requires Names([name]) && '/' !in name
    requires name != "" && !IsSpace(name[|name| - 1]) && name[|name| - 1] != '*'
    ensures var t := UpTwice(" ", name); !IsWideTarget(t) && Escapes(t)
  {
    var rest := UpTwice("", name);
    var t := UpTwice(" ", name);
    UpTwiceText(" ", name);
    UpTwiceText("", name);
    assert t == [' '] + rest;
    UpTwiceNorm(" ", name);
    UpTwiceNorm("", name);
    TrimOneSpace(rest);
    assert TrimSuffixStar(t) == t;
    IsWideTargetIff(t);
    ReachesOutIff(t);
  }

  lemma TrimOneSpace(rest: string)
    requires rest != "" && !IsSpace(rest[0]) && !IsSpace(rest[|rest| - 1]) && rest[|rest| - 1] != '*'
    ensures TrimRightStars(TrimSpace([' '] + rest)) == rest
  {
    var t := [' '] + rest;
    assert t[1..] == rest;
    assert TrimLeftSpace(rest) == rest && TrimLeftSpace(t) == TrimLeftSpace(t[1..]);
  }

  lemma UpTwiceText(first: string, name: string)
    requires name != ""
    ensures UpTwice(first, name) == first + ("/" + Join(["..", "..", name], "/"))
    ensures var s := UpTwice(first, name); s[|s| - 1] == name[|name| - 1]
  {
    var parts := [first, "..", "..", name];
    assert parts[1..] == ["..", "..", name];
    assert ["..", "..", name][1..] == ["..", name] && ["..", name][1..] == [name];
    var last := Join(["..", name], "/");
    assert Join([name], "/") == name;
    assert last == ".." + "/" + name;
    assert Join(["..", "..", name], "/") == ".." + "/" + last;
  }

  // ------------------------------------------------------ derived scope

  function AllTargets(steps: seq<Step>): seq<string>
  {
    if steps == [] then [] else AllTargets(steps[..|steps| - 1]) + steps[|steps| - 1].targets
  }

  function AllTools(steps: seq<Step>): seq<string>
  {
    if steps == [] then [] else AllTools(steps[..|steps| - 1]) + [steps[|steps| - 1].tool]
  }

  datatype TicketScope = TicketScope(allowModify: seq<string>, allowTool: seq<string>)

  function ScopeOf(p: Plan): TicketScope
  {
    TicketScope(FirstSeen(AllTargets(p.steps)), FirstSeen(AllTools(p.steps)))
  }

  lemma {:induction false} TargetsListed(steps: seq<Step>, t: string)
    ensures t in AllTargets(steps) <==> exists i :: 0 <= i < |steps| && t in steps[i].targets
  {
    if steps != [] {
      var front := steps[..|steps| - 1];
      TargetsListed(front, t);
      if i :| 0 <= i < |front| && t in front[i].targets { assert t in steps[i].targets; }
      if i :| 0 <= i < |steps| && t in steps[i].targets {
        if i < |front| { assert t in front[i].targets; }
      }
    }
  }

  /** The derived scope holds each target of a step and each step's tool, once. */
  lemma ScopeOfIs(p: Plan, t: string, tool: string)
    ensures var scope := ScopeOf(p);
            && Distinct(scope.allowModify) && Distinct(scope.allowTool)
            && (t in scope.allowModify <==> exists i :: 0 <= i < |p.steps| && t in p.steps[i].targets)
            && (tool in scope.allowTool <==> exists i :: 0 <= i < |p.steps| && p.steps[i].tool == tool)
  {
    FirstSeenFacts(AllTargets(p.steps));
    FirstSeenFacts(AllTools(p.steps));
    TargetsListed(p.steps, t);
    ToolsListed(p.steps, tool);
  }

  lemma {:induction false} ToolsListed(steps: seq<Step>, tool: string)
    ensures tool in AllTools(steps) <==> exists i :: 0 <= i < |steps| && steps[i].tool == tool
  {
    if steps != [] {
      var front := steps[..|steps| - 1];
      ToolsListed(front, tool);
      if i :| 0 <= i < |front| && front[i].tool == tool { assert steps[i].tool == tool; }
      if i :| 0 <= i < |steps| && steps[i].tool == tool {
        if i < |front| { assert front[i].tool == tool; }
      }
    }
  }

  /** `DeriveScope`. */
  method DeriveScope(p: Plan) returns (scope: TicketScope)
    ensures scope == ScopeOf(p)
  {
    var seenFile: set<string>, seenTool: set<string> := {}, {};
    var files: seq<string>, tools: seq<string> := [], [];
    for i := 0 to |p.steps|
      invariant files == FirstSeen(AllTargets(p.steps[..i])) && tools == FirstSeen(AllTools(p.steps[..i]))
      invariant forall x :: x in seenFile <==> x in files
      invariant forall x :: x in seenTool <==> x in tools
    {
      var s := p.steps[i];
      var before := p.steps[..i];
      assert p.steps[..i + 1][..i] == before;
      tools, seenTool := AddUnseen(tools, seenTool, AllTools(before), s.tool);
      files, seenFile := AddTargets(files, seenFile, AllTargets(before), s.targets);
    }
    assert p.steps[..|p.steps|] == p.steps;
    scope := TicketScope(files, tools);
  }

  /** Appends an element not seen before. */
  method AddUnseen(list: seq<string>, seen: set<string>, ghost before: seq<string>, x: string)
    returns (list': seq<string>, seen': set<string>)
    requires list == FirstSeen(before) && forall y :: y in seen <==> y in list
    ensures list' == FirstSeen(before + [x]) && forall y :: y in seen' <==> y in list'
  {
    FirstSeenSnoc(before, x);
    list', seen' := list, seen;
    if x !in seen {
      seen' := seen + {x};
      list' := list + [x];
    }
  }

  /** The inner loop of `DeriveScope`, over one step's targets. */
  method AddTargets(files: seq<string>, seen: set<string>, ghost before: seq<string>, targets: seq<string>)
    returns (files': seq<string>, seen': set<string>)
    requires files == FirstSeen(before) && forall x :: x in seen <==> x in files
    ensures files' == FirstSeen(before + targets) && forall x :: x in seen' <==> x in files'
  {
    files', seen' := files, seen;
    assert before + [] == before;
    for j := 0 to |targets|
      invariant files' == FirstSeen(before + targets[..j]) && forall x :: x in seen' <==> x in files'
    {
      var t := targets[j];
      assert before + targets[..j + 1] == (before + targets[..j]) + [t];
      files', seen' := AddUnseen(files', seen', before + targets[..j], t);
    }
    assert targets[..|targets|] == targets;
  }

  ghost predicate WithinCap(p: Plan)
  {
    forall t :: t in AllTargets(p.steps) ==> !IsWideTarget(t)
  }

  /** The cap is sound for the matcher: the scope of a plan within it has no
    * allow-all entry and none that reaches the root or above. */
  lemma CapSound(p: Plan)
    requires WithinCap(p)
    ensures forall a :: a in ScopeOf(p).allowModify ==> !AllUp(Norm(TrimSuffixStar(a)).segs)
    ensures forall a :: a in ScopeOf(p).allowModify ==> Clean(TrimSuffixStar(a)) != "."
  {
    FirstSeenFacts(AllTargets(p.steps));
    forall a | a in ScopeOf(p).allowModify
      ensures !AllUp(Norm(TrimSuffixStar(a)).segs) && Clean(TrimSuffixStar(a)) != "."
    {
      if AllUp(Norm(TrimSuffixStar(a)).segs) { UpwardTargetIsWide(a); }
      NormIsNormal(TrimSuffixStar(a));
      NormRender(Norm(TrimSuffixStar(a)));
      NormRender(HERE);
    }
  }

  ghost predicate EndsWithStar(t: string)
  {
    t != "" && t[|t| - 1] == '*'
  }

  /** The text before a trailing star stops at a segment boundary: it ends in an
    * empty, "." or ".." segment. */
  ghost predicate StarAtBoundary(t: string)
  {
    AtBoundary(TrimSuffixStar(t))
  }

  ghost predicate AtBoundary(u: string)
  {
    var parts := Split(u, '/');
    parts[|parts| - 1] in {"", ".", ".."}
  }

  /** A target within the cap is allowed by the entry it gives rise to exactly
    * when it has no trailing star or its star stands at a segment boundary. */
  lemma OwnEntryAllowsIff(t: string)
    requires !IsWideTarget(t)
    ensures TargetAllowed(t, [t]) <==> !EndsWithStar(t) || StarAtBoundary(t)
  {
    OwnEntryCovers(t);
    OwnCoverIff(t);
  }

  lemma OwnCoverIff(t: string)
    requires !AllUp(Norm(TrimSuffixStar(t)).segs)
    ensures Covers(Norm(TrimSuffixStar(t)), Norm(t)) <==> !EndsWithStar(t) || StarAtBoundary(t)
  {
    if EndsWithStar(t) {
      var u := TrimSuffixStar(t);
      assert t == u + "*";
      NormEmpty();
      StarredCoverIff(u);
    }
  }

  lemma OwnEntryCovers(t: string)
    requires !IsWideTarget(t)
    ensures TargetAllowed(t, [t]) <==> Covers(Norm(TrimSuffixStar(t)), Norm(t))
    ensures !AllUp(Norm(TrimSuffixStar(t)).segs)
  {
    EntryAllowsIff(t, t);
    assert [t][1..] == [];
    if AllUp(Norm(TrimSuffixStar(t)).segs) { UpwardTargetIsWide(t); }
  }

  lemma StarredCoverIff(u: string)
    requires u != "" && !AllUp(Norm(u).segs)
    ensures Covers(Norm(u), Norm(u + "*")) <==> AtBoundary(u)
  {
    StarredNorm(u);
    NormIsNormal(u);
    var parts := Split(u, '/');
    var front, last := Fold(IsAbs(u), [], parts[..|parts| - 1]), parts[|parts| - 1];
    StarCovered(IsAbs(u), front, last);
  }

  /** The cleaned forms of a text and of the same text with a star. */
  lemma StarredNorm(u: string)
    requires u != ""
    ensures var parts := Split(u, '/');
            var front, last := Fold(IsAbs(u), [], parts[..|parts| - 1]), parts[|parts| - 1];
            && Norm(u) == CleanPath(IsAbs(u), Push(IsAbs(u), front, last))
            && Norm(u + "*") == CleanPath(IsAbs(u), front + [last + "*"])
  {
    var parts, starred := Split(u, '/'), Split(u + "*", '/');
    SplitExtended(u, '/', "*");
    FoldLast(IsAbs(u), parts);
    FoldLast(IsAbs(u), starred);
    assert (u + "*")[0] == u[0];
    var last := parts[|parts| - 1];
    assert starred[..|starred| - 1] == parts[..|parts| - 1];
    assert (last + "*")[|last|] == '*';
  }

  lemma StarCovered(rooted: bool, front: seq<string>, last: string)
    requires var segs := Push(rooted, front, last); Normal(CleanPath(rooted, segs)) && !AllUp(segs)
    ensures Push(rooted, front, last) <= front + [last + "*"] <==> last in {"", ".", ".."}
  {
    var segs, starred := Push(rooted, front, last), front + [last + "*"];
    if last !in {"", ".", ".."} {
      assert segs[|front|] == last && starred[|front|] == last + "*";
      assert |last + "*"| == |last| + 1;
    }
  }

  /** A plan within the cap is allowed every target it listed without a trailing
    * star, or with one after a slash. */
  lemma OwnTargetsAllowed(p: Plan, t: string)
    requires WithinCap(p) && t in AllTargets(p.steps)
    requires !EndsWithStar(t) || StarAtBoundary(t)
    ensures TargetAllowed(t, ScopeOf(p).allowModify)
  {
    OwnEntryAllowsIff(t);
    TargetAllowedIff(t, [t]);
    FirstSeenFacts(AllTargets(p.steps));
    var allowed := ScopeOf(p).allowModify;
    var i :| 0 <= i < |allowed| && allowed[i] == t;
    TargetAllowedIff(t, allowed);
  }
}
