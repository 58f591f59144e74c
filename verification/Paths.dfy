/** Lexical path cleaning as `path.Clean` and `filepath.Clean` do it on Unix:
  * a rooted flag and a stack of segments. */
module Paths {
  import opened Text

  datatype CleanPath = CleanPath(rooted: bool, segs: seq<string>)

  const HERE := CleanPath(false, [])

  function Push(rooted: bool, stack: seq<string>, seg: string): seq<string>
  {
    if seg == "" || seg == "." then stack
    else if seg == ".." then
      if stack != [] && stack[|stack| - 1] != ".." then stack[..|stack| - 1]
      else if rooted then stack
      else stack + [".."]
    else stack + [seg]
  }

  function Fold(rooted: bool, stack: seq<string>, segs: seq<string>): seq<string>
    decreases |segs|
  {
    if segs == [] then stack else Fold(rooted, Push(rooted, stack, segs[0]), segs[1..])
  }

  predicate IsAbs(path: string)
  {
    path != "" && path[0] == '/'
  }

  function Norm(path: string): CleanPath
  {
    CleanPath(IsAbs(path), Fold(IsAbs(path), [], Split(path, '/')))
  }

  function Render(c: CleanPath): string
  {
    if c.rooted then "/" + Join(c.segs, "/")
    else if c.segs == [] then "."
    else Join(c.segs, "/")
  }

  function Clean(path: string): string
  {
    Render(Norm(path))
  }

  ghost predicate Name(seg: string)
  {
    seg != "" && seg != "." && seg != ".." && '/' !in seg
  }

  /** Names, after some leading ".." when the path is relative. */
  ghost predicate Normal(c: CleanPath)
  {
    && (forall i :: 0 <= i < |c.segs| ==> Name(c.segs[i]) || (c.segs[i] == ".." && !c.rooted))
    && forall i, j :: 0 <= i < j < |c.segs| && c.segs[j] == ".." ==> c.segs[i] == ".."
  }

  lemma {:induction false} FoldNormal(rooted: bool, stack: seq<string>, segs: seq<string>)
    requires Normal(CleanPath(rooted, stack))
    requires forall s :: s in segs ==> '/' !in s
    ensures Normal(CleanPath(rooted, Fold(rooted, stack, segs)))
    decreases |segs|
  {
    if segs != [] {
      assert segs[0] in segs;
      FoldNormal(rooted, Push(rooted, stack, segs[0]), segs[1..]);
    }
  }

  lemma NormIsNormal(path: string)
    ensures Normal(Norm(path))
  {
    SplitPartsClean(path, '/');
    FoldNormal(IsAbs(path), [], Split(path, '/'));
  }

  lemma {:induction false} FoldConcat(rooted: bool, stack: seq<string>, a: seq<string>, b: seq<string>)
    ensures Fold(rooted, stack, a + b) == Fold(rooted, Fold(rooted, stack, a), b)
    decreases |a|
  {
    if a == [] {
      assert a + b == b;
    } else {
      FoldConcat(rooted, Push(rooted, stack, a[0]), a[1..], b);
      assert (a + b)[0] == a[0] && (a + b)[1..] == a[1..] + b;
    }
  }

  /** Segments already in normal form are pushed as they are. */
  lemma {:induction false} FoldKeepsNormal(rooted: bool, stack: seq<string>, segs: seq<string>)
    requires Normal(CleanPath(rooted, stack + segs))
    ensures Fold(rooted, stack, segs) == stack + segs
    decreases |segs|
  {
    if segs == [] {
      assert stack + segs == stack;
    } else {
      var all := stack + segs;
      assert all[|stack|] == segs[0];
      if segs[0] == ".." && stack != [] { assert all[|stack| - 1] == stack[|stack| - 1]; }
      assert (stack + [segs[0]]) + segs[1..] == all;
      FoldKeepsNormal(rooted, stack + [segs[0]], segs[1..]);
    }
  }

  lemma RenderEmpty(rooted: bool)
    ensures Norm(Render(CleanPath(rooted, []))) == CleanPath(rooted, [])
  {
    if rooted {
      assert "/"[1..] == "";
      assert Split("/", '/') == [""] + [""] == ["", ""];
      assert ["", ""][1..] == [""] && [""][1..] == [];
      assert Fold(true, [], [""]) == Fold(true, [], []);
    } else {
      SplitNoSeparator(".", '/');
      assert ["."][1..] == [];
    }
  }

  lemma SplitRendered(c: CleanPath)
    requires Normal(c) && c.segs != []
    ensures IsAbs(Render(c)) == c.rooted
    ensures Split(Render(c), '/') == (if c.rooted then [""] else []) + c.segs
  {
    forall s | s in c.segs ensures '/' !in s {
      var i :| 0 <= i < |c.segs| && c.segs[i] == s;
    }
    assert Name(c.segs[0]) || c.segs[0] == "..";
    SplitJoin(c.segs, '/');
    JoinStart(c.segs);
    var j := Join(c.segs, "/");
    if c.rooted {
      assert ("/" + j)[0] == '/' && ("/" + j)[1..] == j;
    } else {
      assert [] + c.segs == c.segs;
    }
  }

  /** Rendering a normal path and reading it back gives the same path. */
  lemma NormRender(c: CleanPath)
    requires Normal(c)
    ensures Norm(Render(c)) == c
  {
    if c.segs == [] {
      RenderEmpty(c.rooted);
    } else {
      SplitRendered(c);
      assert [] + c.segs == c.segs;
      FoldKeepsNormal(c.rooted, [], c.segs);
      assert ([""] + c.segs)[1..] == c.segs;
    }
  }

  /** A joined list of non-empty slash-free segments does not start with '/'. */
  lemma JoinStart(segs: seq<string>)
    requires segs != [] && segs[0] != "" && '/' !in segs[0]
    ensures Join(segs, "/") != "" && Join(segs, "/")[0] == segs[0][0] != '/'
  {
    assert segs[0][0] in segs[0];
  }

  /** Cleaning is idempotent. */
  lemma CleanIdempotent(path: string)
    ensures Clean(Clean(path)) == Clean(path) && Norm(Clean(path)) == Norm(path)
  {
    NormIsNormal(path);
    NormRender(Norm(path));
  }

  lemma CleanEqualIff(a: string, b: string)
    ensures Clean(a) == Clean(b) <==> Norm(a) == Norm(b)
  {
    CleanIdempotent(a);
    CleanIdempotent(b);
  }

  lemma {:induction false} JoinConcat(a: seq<string>, b: seq<string>)
    requires a != [] && b != []
    ensures Join(a + b, "/") == Join(a, "/") + "/" + Join(b, "/")
    decreases |a|
  {
    if |a| == 1 {
      assert (a + b)[1..] == b;
    } else {
      JoinConcat(a[1..], b);
      assert (a + b)[1..] == a[1..] + b && (a + b)[0] == a[0];
      assert a[0] + "/" + (Join(a[1..], "/") + "/" + Join(b, "/"))
        == a[0] + "/" + Join(a[1..], "/") + "/" + Join(b, "/");
    }
  }

  /** On joined segments, "prefix followed by a separator" is exactly "proper
    * segment prefix". */
  lemma JoinPrefix(a: seq<string>, b: seq<string>)
    requires a != [] && b != []
    requires forall s :: s in a + b ==> '/' !in s
    ensures HasPrefix(Join(b, "/"), Join(a, "/") + "/") <==> a < b
  {
    assert forall s :: s in a ==> s in a + b;
    assert forall s :: s in b ==> s in a + b;
    SplitJoin(a, '/');
    SplitJoin(b, '/');
    var ja, jb := Join(a, "/"), Join(b, "/");
    if HasPrefix(jb, ja + "/") {
      var rest := jb[|ja| + 1..];
      assert jb == ja + ['/'] + rest;
      SplitConcat(ja, '/', rest);
    }
    if a < b {
      var rest := b[|a|..];
      assert b == a + rest;
      JoinConcat(a, rest);
    }
  }
}
