/** Strings as the Go code orders, sorts, splits and joins them. A string is a
  * sequence of Unicode code points; Go compares UTF-8 bytes, which gives the
  * same order. */
module Text {

  datatype Option<+T> = None | Some(value: T)

  predicate Less(a: string, b: string)
  {
    b != "" && (a == "" || a[0] < b[0] || (a[0] == b[0] && Less(a[1..], b[1..])))
  }

  predicate Leq(a: string, b: string)
  {
    a == b || Less(a, b)
  }

  lemma {:induction false} LessTransitive(a: string, b: string, c: string)
    requires Less(a, b) && Less(b, c)
    ensures Less(a, c)
    decreases |a|
  {
    if a != "" && a[0] == b[0] && b[0] == c[0] {
      LessTransitive(a[1..], b[1..], c[1..]);
    }
  }

  lemma {:induction false} LessIrreflexive(a: string)
    ensures !Less(a, a)
  {
    if a != "" {
      LessIrreflexive(a[1..]);
    }
  }

  lemma {:induction false} LessTotal(a: string, b: string)
    ensures a == b || Less(a, b) || Less(b, a)
    decreases |a|
  {
    if a != "" && b != "" && a[0] == b[0] {
      LessTotal(a[1..], b[1..]);
      assert a == [a[0]] + a[1..] && b == [b[0]] + b[1..];
    }
  }

  predicate StrictlySorted(s: seq<string>)
  {
    forall i, j :: 0 <= i < j < |s| ==> Less(s[i], s[j])
  }

  predicate Sorted(s: seq<string>)
  {
    forall i, j :: 0 <= i < j < |s| ==> Leq(s[i], s[j])
  }

  ghost function Elements<T>(s: seq<T>): set<T>
  {
    set x | x in s
  }

  /** A strictly sorted list is determined by its elements. */
  lemma {:induction false} SortedUnique(a: seq<string>, b: seq<string>)
    requires StrictlySorted(a) && StrictlySorted(b)
    requires forall x :: x in a <==> x in b
    ensures a == b
    decreases |a|
  {
    assert a != [] ==> a[0] in b;
    assert b != [] ==> b[0] in a;
    if a != [] {
      if a[0] != b[0] {
        LessTransitive(a[0], b[0], a[0]);
        LessIrreflexive(a[0]);
      }
      forall x ensures x in a[1..] <==> x in b[1..] {
        LessIrreflexive(a[0]);
        assert x in a[1..] ==> x in a && x != a[0];
        assert x in b[1..] ==> x in b && x != b[0];
      }
      SortedUnique(a[1..], b[1..]);
    }
  }

  lemma {:induction false} LeastExists(s: set<string>) returns (m: string)
    requires s != {}
    ensures m in s && forall x :: x in s ==> Leq(m, x)
    decreases |s|
  {
    var y :| y in s;
    if s == {y} {
      m := y;
    } else {
      var k := LeastExists(s - {y});
      LessTotal(k, y);
      if Less(y, k) {
        m := y;
        forall x | x in s ensures Leq(m, x) {
          if x != y {
            assert x in s - {y};
            if x != k { LessTransitive(y, k, x); }
          }
        }
      } else {
        m := k;
      }
    }
  }

  /** The elements of a set in ascending order: what sorting the keys of a Go
    * map yields, whatever order the map was walked in. */
  ghost function SortedSet(s: set<string>): (r: seq<string>)
    ensures forall x :: x in r <==> x in s
    ensures StrictlySorted(r)
  {
    if s == {} then [] else
      var m := Least(s);
      var rest := SortedSet(s - {m});
      assert forall x :: x in rest ==> Less(m, x);
      [m] + rest
  }

  ghost function Least(s: set<string>): (m: string)
    requires s != {}
    ensures m in s && forall x :: x in s ==> Leq(m, x)
  {
    assert exists m :: m in s && forall x :: x in s ==> Leq(m, x) by { var m := LeastExists(s); }
    var m :| m in s && forall x :: x in s ==> Leq(m, x);
    m
  }

  lemma MultisetMembers<T>(a: seq<T>, b: seq<T>)
    requires multiset(a) == multiset(b)
    ensures forall x :: x in a <==> x in b
  {
    forall x ensures x in a <==> x in b {
      assert x in a <==> x in multiset(a);
      assert x in b <==> x in multiset(b);
    }
  }

  /** `sort.Strings` / `slices.Sort`. */
  method SortStrings(s: seq<string>) returns (r: seq<string>)
    ensures Sorted(r)
    ensures multiset(r) == multiset(s)
  {
    r := [];
    for i := 0 to |s|
      invariant Sorted(r)
      invariant multiset(r) == multiset(s[..i])
    {
      r := InsertSorted(r, s[i]);
      assert s[..i + 1] == s[..i] + [s[i]];
    }
    assert s[..|s|] == s;
  }

  method InsertSorted(r: seq<string>, x: string) returns (q: seq<string>)
    requires Sorted(r)
    ensures Sorted(q)
    ensures multiset(q) == multiset(r) + multiset{x}
  {
    var k := 0;
    while k < |r| && Leq(r[k], x)
      invariant 0 <= k <= |r|
      invariant forall i :: 0 <= i < k ==> Leq(r[i], x)
    {
      k := k + 1;
    }
    q := r[..k] + [x] + r[k..];
    forall j | k <= j < |r| ensures Leq(x, r[j]) {
      LessTotal(r[k], x);
      if j > k && r[k] != r[j] { LessTransitive(x, r[k], r[j]); }
    }
    assert r == r[..k] + r[k..];
  }

  /** Sorting a duplicate-free list gives the sorted set of its elements. */
  lemma SortedDistinct(r: seq<string>, s: seq<string>)
    requires Sorted(r) && multiset(r) == multiset(s)
    requires forall i, j :: 0 <= i < j < |s| ==> s[i] != s[j]
    ensures r == SortedSet(Elements(s))
  {
    MultisetMembers(r, s);
    forall i, j | 0 <= i < j < |r| ensures Less(r[i], r[j]) {
      if r[i] == r[j] {
        TwiceInMultiset(r, i, j);
        NoTwiceInMultiset(s, r[i]);
      }
    }
    SortedUnique(r, SortedSet(Elements(s)));
  }

  lemma TwiceInMultiset<T>(s: seq<T>, i: int, j: int)
    requires 0 <= i < j < |s| && s[i] == s[j]
    ensures multiset(s)[s[i]] >= 2
  {
    assert s == s[..j] + s[j..];
    assert s[i] in s[..j];
    assert s[j] in s[j..];
  }

  lemma {:induction false} NoTwiceInMultiset<T>(s: seq<T>, x: T)
    requires forall i, j :: 0 <= i < j < |s| ==> s[i] != s[j]
    ensures multiset(s)[x] <= 1
  {
    if s != [] {
      NoTwiceInMultiset(s[1..], x);
      assert s == [s[0]] + s[1..];
      if s[0] == x {
        assert x !in s[1..];
      }
    }
  }

  /** How often x stands in s. */
  function Times<T(==)>(s: seq<T>, x: T): nat
  {
    multiset(s)[x]
  }

  lemma TimesSnoc<T>(s: seq<T>, last: T, x: T)
    ensures Times(s + [last], x) == Times(s, x) + if last == x then 1 else 0
  {
  }

  ghost predicate Distinct<T>(s: seq<T>)
  {
    forall i, j :: 0 <= i < j < |s| ==> s[i] != s[j]
  }

  /** The list without its repetitions, in order of first appearance. */
  function FirstSeen(s: seq<string>): seq<string>
  {
    if s == [] then []
    else
      var seen := FirstSeen(s[..|s| - 1]);
      if s[|s| - 1] in seen then seen else seen + [s[|s| - 1]]
  }

  lemma FirstSeenSnoc(s: seq<string>, x: string)
    ensures FirstSeen(s + [x]) == if x in FirstSeen(s) then FirstSeen(s) else FirstSeen(s) + [x]
  {
    assert (s + [x])[..|s|] == s;
  }

  lemma {:induction false} FirstSeenFacts(s: seq<string>)
    ensures Distinct(FirstSeen(s))
    ensures forall x :: x in FirstSeen(s) <==> x in s
  {
    if s != [] {
      FirstSeenFacts(s[..|s| - 1]);
      assert s == s[..|s| - 1] + [s[|s| - 1]];
    }
  }

  /** Each element stands where it first appears, after the ones before it. */
  lemma {:induction false} FirstSeenAt(s: seq<string>, k: nat) returns (p: nat)
    requires k < |FirstSeen(s)|
    ensures p < |s| && s[p] == FirstSeen(s)[k] && s[p] !in s[..p]
    ensures forall j :: 0 <= j < k ==> FirstSeen(s)[j] in s[..p]
  {
    var front := s[..|s| - 1];
    var seen := FirstSeen(front);
    FirstSeenFacts(front);
    if k < |seen| {
      p := FirstSeenAt(front, k);
      assert front[..p] == s[..p];
    } else {
      p := |s| - 1;
    }
  }

  predicate HasPrefix(s: string, prefix: string)
  {
    prefix <= s
  }

  /** `strings.Join`. */
  function Join(parts: seq<string>, sep: string): string
  {
    if parts == [] then ""
    else if |parts| == 1 then parts[0]
    else parts[0] + sep + Join(parts[1..], sep)
  }

  /** `strings.Split` and `bytes.Split` on one separator; at least one part. */
  function Split<T(==)>(s: seq<T>, c: T): (r: seq<seq<T>>)
    ensures |r| >= 1
  {
    if s == [] then [[]]
    else if s[0] == c then [[]] + Split(s[1..], c)
    else Extend(s[0], Split(s[1..], c))
  }

  function Extend<T>(x: T, parts: seq<seq<T>>): seq<seq<T>>
    requires parts != []
  {
    [[x] + parts[0]] + parts[1..]
  }

  lemma {:induction false} SplitNoSeparator<T>(s: seq<T>, c: T)
    requires c !in s
    ensures Split(s, c) == [s]
  {
    if s != [] {
      SplitNoSeparator(s[1..], c);
      assert s == [s[0]] + s[1..];
    }
  }

  lemma ExtendConcat<T>(x: T, p: seq<seq<T>>, q: seq<seq<T>>)
    requires p != []
    ensures Extend(x, p + q) == Extend(x, p) + q
  {
    assert (p + q)[0] == p[0];
    assert (p + q)[1..] == p[1..] + q;
    var head := [[x] + p[0]];
    assert head + (p[1..] + q) == (head + p[1..]) + q;
  }

  lemma {:induction false} SplitConcat<T>(a: seq<T>, c: T, b: seq<T>)
    ensures Split(a + [c] + b, c) == Split(a, c) + Split(b, c)
  {
    var s := a + [c] + b;
    if a == [] {
      assert s[0] == c && s[1..] == b;
    } else {
      SplitConcat(a[1..], c, b);
      assert s[0] == a[0] && s[1..] == a[1..] + [c] + b;
      var p, q := Split(a[1..], c), Split(b, c);
      if a[0] == c {
        assert [[]] + (p + q) == ([[]] + p) + q;
      } else {
        ExtendConcat(a[0], p, q);
      }
    }
  }

  function ExtendLast<T>(parts: seq<seq<T>>, w: seq<T>): seq<seq<T>>
    requires parts != []
  {
    parts[..|parts| - 1] + [parts[|parts| - 1] + w]
  }

  lemma ExtendBothEnds<T>(x: T, parts: seq<seq<T>>, w: seq<T>)
    requires parts != []
    ensures Extend(x, ExtendLast(parts, w)) == ExtendLast(Extend(x, parts), w)
  {
    var n := |parts| - 1;
    if n == 0 {
      assert [x] + (parts[0] + w) == ([x] + parts[0]) + w;
    } else {
      ExtendConcat(x, parts[..n], [parts[n] + w]);
      assert Extend(x, parts)[..n] == Extend(x, parts[..n]);
    }
  }

  lemma NewPartBothEnds<T>(parts: seq<seq<T>>, w: seq<T>)
    requires parts != []
    ensures [[]] + ExtendLast(parts, w) == ExtendLast([[]] + parts, w)
  {
    assert ([[]] + parts)[..|parts|] == [[]] + parts[..|parts| - 1];
  }

  /** Text without a separator only extends the last part. */
  lemma {:induction false} SplitExtended<T>(u: seq<T>, c: T, w: seq<T>)
    requires c !in w
    ensures Split(u + w, c) == ExtendLast(Split(u, c), w)
  {
    if u == [] {
      SplitNoSeparator(w, c);
      assert u + w == w && [] + w == w;
    } else {
      SplitExtended(u[1..], c, w);
      assert (u + w)[0] == u[0] && (u + w)[1..] == u[1..] + w;
      if u[0] == c {
        NewPartBothEnds(Split(u[1..], c), w);
      } else {
        ExtendBothEnds(u[0], Split(u[1..], c), w);
      }
    }
  }

  /** Splitting undoes joining when no part holds the separator. */
  lemma {:induction false} SplitJoin(parts: seq<string>, c: char)
    requires parts != []
    requires forall p :: p in parts ==> c !in p
    ensures Split(Join(parts, [c]), c) == parts
  {
    SplitNoSeparator(parts[0], c);
    if |parts| > 1 {
      SplitJoin(parts[1..], c);
      SplitConcat(parts[0], c, Join(parts[1..], [c]));
    }
  }

  lemma {:induction false} SplitPartsClean<T>(s: seq<T>, c: T)
    ensures forall p :: p in Split(s, c) ==> c !in p
  {
    if s != [] {
      SplitPartsClean(s[1..], c);
    }
  }
}
