/** The live journal tail (cmd/ppg/events.go): replay of the last lines at
  * connect, then polling from a resumable offset over a growing byte file. */
module JournalTail {
  import opened Text

  newtype byte = x: int | 0 <= x < 256

  const NL: byte := 10

  type Line = seq<byte>

  /** `tailChunk`. */
  const TAIL_CHUNK: nat := 262144

  // ------------------------------------------------------- lines of a file

  function NonEmpty(parts: seq<Line>): seq<Line>
  {
    if parts == [] then []
    else if parts[0] == [] then NonEmpty(parts[1..])
    else [parts[0]] + NonEmpty(parts[1..])
  }

  /** The non-empty newline-terminated lines; what follows the last newline is
    * torn and does not count. */
  function Lines(s: seq<byte>): seq<Line>
  {
    var parts := Split(s, NL);
    NonEmpty(parts[..|parts| - 1])
  }

  ghost predicate Boundary(s: seq<byte>, c: nat)
  {
    c <= |s| && (c == 0 || s[c - 1] == NL)
  }

  /** Just past the last newline. */
  function LastBoundary(s: seq<byte>): (c: nat)
    ensures Boundary(s, c) && NL !in s[c..]
  {
    if s == [] || s[|s| - 1] == NL then |s|
    else
      var c := LastBoundary(s[..|s| - 1]);
      assert s[c..] == s[..|s| - 1][c..] + [s[|s| - 1]];
      c
  }

  lemma LastBoundaryUnique(s: seq<byte>, c: nat)
    requires Boundary(s, c) && NL !in s[c..]
    ensures c == LastBoundary(s)
  {
    var d := LastBoundary(s);
    assert c == d;
  }

  lemma Assoc<T>(a: seq<T>, b: seq<T>, c: seq<T>)
    ensures (a + b) + c == a + (b + c)
  {
  }

  lemma {:induction false} NonEmptyConcat(a: seq<Line>, b: seq<Line>)
    ensures NonEmpty(a + b) == NonEmpty(a) + NonEmpty(b)
  {
    if a == [] {
      assert a + b == b;
    } else {
      NonEmptyConcat(a[1..], b);
      assert (a + b)[0] == a[0] && (a + b)[1..] == a[1..] + b;
      Assoc([a[0]], NonEmpty(a[1..]), NonEmpty(b));
    }
  }

  lemma LinesAfter(a: seq<byte>, b: seq<byte>)
    ensures Lines(a + [NL] + b) == NonEmpty(Split(a, NL)) + Lines(b)
  {
    SplitConcat(a, NL, b);
    var p, q := Split(a, NL), Split(b, NL);
    assert (p + q)[..|p + q| - 1] == p + q[..|q| - 1];
    NonEmptyConcat(p, q[..|q| - 1]);
  }

  lemma NoLines(s: seq<byte>)
    requires NL !in s
    ensures Lines(s) == []
  {
    SplitNoSeparator(s, NL);
  }

  /** A boundary cuts the lines of a file in two: none lost, none torn. */
  lemma BoundarySplitsLines(s: seq<byte>, c: nat)
    requires Boundary(s, c)
    ensures Lines(s) == Lines(s[..c]) + Lines(s[c..])
  {
    if c == 0 {
      NoLines([]);
      assert s[..0] == [] && s[0..] == s;
    } else {
      var a := s[..c - 1];
      assert s == a + [NL] + s[c..] && s[..c] == a + [NL] + [];
      LinesAfter(a, s[c..]);
      LinesAfter(a, []);
      NoLines([]);
    }
  }

  lemma CutAt(buf: seq<byte>, last: nat)
    requires last < |buf| && buf[last] == NL
    ensures buf == buf[..last] + [NL] + buf[last + 1..]
  {
  }

  /** What both readers compute from a buffer whose last newline is at `last`. */
  lemma BufferLines(buf: seq<byte>, last: nat)
    requires last < |buf| && buf[last] == NL && NL !in buf[last + 1..]
    ensures NonEmpty(Split(buf[..last], NL)) == Lines(buf)
    ensures LastBoundary(buf) == last + 1
  {
    LastBoundaryUnique(buf, last + 1);
    CutAt(buf, last);
    LinesOfTwo(buf[..last], buf[last + 1..]);
  }

  /** A newline, byte 10, ends a line; an empty one does not count. */
  lemma NewlineEndsLine(x: seq<byte>, rest: seq<byte>)
    requires 10 !in x
    ensures Lines(x + [10] + rest) == (if x == [] then [] else [x]) + Lines(rest)
  {
    LinesAfter(x, rest);
    SplitNoSeparator(x, NL);
    assert [x][1..] == [];
  }

  lemma LinesOfTwo(a: seq<byte>, b: seq<byte>)
    requires NL !in b
    ensures Lines(a + [NL] + b) == NonEmpty(Split(a, NL))
  {
    LinesAfter(a, b);
    NoLines(b);
  }

  lemma LastBoundarySuffix(s: seq<byte>, c: nat)
    requires Boundary(s, c)
    ensures LastBoundary(s) == c + LastBoundary(s[c..])
  {
    var d := LastBoundary(s[c..]);
    assert s[c + d..] == s[c..][d..];
    LastBoundaryUnique(s, c + d);
  }

  // ------------------------------------------------- library byte loops

  /** `bytes.IndexByte(buf, '\n')`. */
  method IndexNL(buf: seq<byte>) returns (i: int)
    ensures -1 <= i < |buf|
    ensures i >= 0 ==> buf[i] == NL && NL !in buf[..i]
    ensures i < 0 ==> NL !in buf
  {
    i := 0;
    while i < |buf|
      invariant 0 <= i <= |buf| && NL !in buf[..i]
    {
      if buf[i] == NL { return; }
      i := i + 1;
    }
    assert buf[..i] == buf;
    i := -1;
  }

  /** `bytes.LastIndexByte(buf, '\n')`. */
  method LastIndexNL(buf: seq<byte>) returns (i: int)
    ensures -1 <= i < |buf|
    ensures i >= 0 ==> buf[i] == NL && NL !in buf[i + 1..]
    ensures i < 0 ==> NL !in buf
  {
    i := |buf| - 1;
    while i >= 0
      invariant -1 <= i < |buf| && NL !in buf[i + 1..]
    {
      if buf[i] == NL { return; }
      assert buf[i..] == [buf[i]] + buf[i + 1..];
      i := i - 1;
    }
    assert buf[0..] == buf;
  }

  /** The loop of both readers: split and keep the non-empty pieces. */
  method SplitNonEmpty(buf: seq<byte>) returns (lines: seq<Line>)
    ensures lines == NonEmpty(Split(buf, NL))
  {
    lines := [];
    var parts := Split(buf, NL);
    for i := 0 to |parts|
      invariant lines == NonEmpty(parts[..i])
    {
      assert parts[..i + 1] == parts[..i] + [parts[i]];
      NonEmptyConcat(parts[..i], [parts[i]]);
      assert [parts[i]][1..] == [];
      if |parts[i]| > 0 { lines := lines + [parts[i]]; }
    }
    assert parts[..|parts|] == parts;
  }

  // ------------------------------------------------------------ connect

  function LastN(lines: seq<Line>, n: nat): seq<Line>
  {
    if |lines| > n then lines[|lines| - n..] else lines
  }

  /** The newest n of all lines, or all of them if there are fewer. */
  ghost predicate Newest(lines: seq<Line>, all: seq<Line>, n: nat)
  {
    |lines| == (if n < |all| then n else |all|) && lines == all[|all| - |lines|..]
  }

  /** Where the scanned window starts seeing whole lines: the file's start if it
    * fits the window, else just past the first newline inside the window; None
    * when the window holds no newline. */
  ghost function WindowStart(file: seq<byte>): (b: Option<nat>)
    ensures b.Some? ==> Boundary(file, b.value)
  {
    if |file| <= TAIL_CHUNK then Some(0)
    else
      var start := |file| - TAIL_CHUNK;
      if NL in file[start..] then
        var i := FirstNL(file[start..]);
        assert file[start + i] == NL;
        Some(start + i + 1)
      else None
  }

  ghost function FirstNL(s: seq<byte>): (i: nat)
    requires NL in s
    ensures i < |s| && s[i] == NL && NL !in s[..i]
  {
    if s[0] == NL then 0
    else
      var i := FirstNL(s[1..]);
      assert s[..i + 1] == [s[0]] + s[1..][..i];
      i + 1
  }

  /** Exactly where that is: at the start of a file of at most 256 KiB, else at the
    * first boundary past the last 256 KiB's start, if there is one. */
  lemma WindowStartIs(file: seq<byte>, b: nat)
    ensures |file| <= 262144 ==> WindowStart(file) == Some(0)
    ensures |file| > 262144 ==>
              (WindowStart(file) == Some(b) <==>
               Boundary(file, b) && b > |file| - 262144 && NL !in file[|file| - 262144..b - 1])
    ensures WindowStart(file).None? ==> |file| > 262144 && NL !in file[|file| - 262144..]
  {
    if |file| > 262144 {
      var start := |file| - TAIL_CHUNK;
      if NL in file[start..] {
        var i := FirstNL(file[start..]);
        assert file[start..start + i] == file[start..][..i] && file[start..][i] == file[start + i];
        if b > start && Boundary(file, b) && NL !in file[start..b - 1] {
          assert file[start..][..b - 1 - start] == file[start..b - 1];
          assert file[start..][b - 1 - start] == NL;
          FirstNLUnique(file[start..], b - 1 - start);
        }
      }
    }
  }

  /** The start of the bytes `tailLines` splits: a chunk that starts mid-line is cut
    * after its first newline. */
  method FindWindow(file: seq<byte>) returns (start: Option<nat>)
    ensures start == WindowStart(file)
  {
    var size := |file|;
    var from := if size - TAIL_CHUNK > 0 then size - TAIL_CHUNK else 0;
    if from == 0 { return Some(0); }
    var i := IndexNL(file[from..]);
    if i < 0 { return None; }
    FirstNLUnique(file[from..], i);
    return Some(from + i + 1);
  }

  lemma NewestIs(all: seq<Line>, n: nat)
    ensures Newest(LastN(all, n), all, n)
  {
  }

  /** What the replay and the resume offset are: None is a missing file. */
  ghost predicate Replayed(file: Option<seq<byte>>, n: nat, lines: seq<Line>, offset: nat)
  {
    match file
    case None => lines == [] && offset == 0
    case Some(f) =>
      match WindowStart(f)
      case Some(b) => Newest(lines, Lines(f[b..]), n) && offset == LastBoundary(f)
      case None => lines == [] && offset == |f|
  }

  lemma ReplayedFrom(f: seq<byte>, n: nat, b: nat, all: seq<Line>)
    requires WindowStart(f) == Some(b) && Lines(f[b..]) == all
    ensures Replayed(Some(f), n, LastN(all, n), LastBoundary(f))
  {
    NewestIs(all, n);
  }

  /** `tailLines` on a readable or missing file. */
  method TailLines(file: Option<seq<byte>>, n: nat) returns (lines: seq<Line>, offset: nat)
    ensures Replayed(file, n, lines, offset)
  {
    if file.None? { return [], 0; }
    var size := |file.value|;
    if size == 0 {
      NoLines([]);
      assert file.value[0..] == [];
      ReplayedFrom(file.value, n, 0, []);
      return [], 0;
    }
    var window := FindWindow(file.value);
    if window.None? { return [], size; }
    var start := window.value;
    var buf := file.value[start..];
    ReplayedFrom(file.value, n, start, Lines(buf));
    LastBoundarySuffix(file.value, start);
    var last := LastIndexNL(buf);
    if last < 0 {
      NoLines(buf);
      LastBoundaryUnique(buf, 0);
      return [], start;
    }
    BufferLines(buf, last);
    offset := start + last + 1;
    lines := SplitNonEmpty(buf[..last]);
    if n == 0 { return [], offset; }
    if |lines| > n { lines := lines[|lines| - n..]; }
  }

  lemma FirstNLUnique(s: seq<byte>, i: nat)
    requires i < |s| && s[i] == NL && NL !in s[..i]
    ensures NL in s && FirstNL(s) == i
  {
    var j := FirstNL(s);
    assert i == j;
  }

  // --------------------------------------------------------------- polling

  datatype Poll = Poll(lines: seq<Line>, offset: nat, rotated: bool)

  /** What a poll sees: the size it stats, then the bytes it reads afterwards
    * (None when the open or the read fails). */
  function PollSpec(stat: Option<nat>, content: Option<seq<byte>>, offset: nat): Poll
  {
    if stat.None? || stat.value < offset then Poll([], offset, true)
    else if content.None? || |content.value| < stat.value then Poll([], offset, false)
    else
      var buf := content.value[offset..stat.value];
      Poll(Lines(buf), offset + LastBoundary(buf), false)
  }

  /** `readNewLines`. */
  method ReadNewLines(stat: Option<nat>, content: Option<seq<byte>>, offset: nat)
    returns (lines: seq<Line>, newOffset: nat, rotated: bool)
    ensures Poll(lines, newOffset, rotated) == PollSpec(stat, content, offset)
  {
    if stat.None? || stat.value < offset { return [], offset, true; }
    if stat.value == offset {
      NoLines([]);
      return [], offset, false;
    }
    if content.None? || |content.value| < stat.value { return [], offset, false; }
    var buf := content.value[offset..stat.value];
    var last := LastIndexNL(buf);
    if last < 0 {
      NoLines(buf);
      LastBoundaryUnique(buf, 0);
      return [], offset, false;
    }
    BufferLines(buf, last);
    lines := SplitNonEmpty(buf[..last]);
    return lines, offset + last + 1, false;
  }

  /** A connected client: the resume offset and the frames sent so far. */
  datatype Tail = Tail(offset: nat, sent: seq<Line>)

  function Ticked(t: Tail, stat: Option<nat>, content: Option<seq<byte>>): Tail
  {
    var p := PollSpec(stat, content, t.offset);
    if p.rotated then t.(offset := 0) else Tail(p.offset, t.sent + p.lines)
  }

  /** The state of one `handleEventStream` call. */
  class EventStream {
    var offset: nat
    var sent: seq<Line>

    ghost function State(): Tail
      reads this
    {
      Tail(offset, sent)
    }

    /** Up to the first flush: replay the tail of the file. */
    constructor (file: Option<seq<byte>>, replay: nat)
      ensures State() == Connected(file, replay)
    {
      new;
      var lines, start := TailLines(file, replay);
      ReplayedConnected(file, replay, lines, start);
      offset, sent := start, [];
      for i := 0 to |lines|
        invariant sent == lines[..i] && offset == start
      {
        sent := sent + [lines[i]];
      }
      assert lines[..|lines|] == lines;
    }

    /** One tick of the polling loop. */
    method Tick(stat: Option<nat>, content: Option<seq<byte>>)
      modifies this
      ensures State() == Ticked(old(State()), stat, content)
    {
      var newLines, newOffset, rotated := ReadNewLines(stat, content, offset);
      if rotated {
        offset := 0;
        return;
      }
      offset := newOffset;
      ghost var before := sent;
      for i := 0 to |newLines|
        invariant sent == before + newLines[..i] && offset == newOffset
      {
        sent := sent + [newLines[i]];
      }
      assert newLines[..|newLines|] == newLines;
    }
  }

  lemma ReplayedConnected(file: Option<seq<byte>>, n: nat, lines: seq<Line>, offset: nat)
    requires Replayed(file, n, lines, offset)
    ensures Connected(file, n) == Tail(offset, lines)
  {
  }

  ghost function Connected(file: Option<seq<byte>>, n: nat): Tail
  {
    if file.None? then Tail(0, [])
    else
      match WindowStart(file.value)
      case Some(b) => Tail(LastBoundary(file.value), LastN(Lines(file.value[b..]), n))
      case None => Tail(|file.value|, [])
  }

  // ------------------------------------------------ runs without rotation

  /** Writers append bytes, in any chunks; the reader polls; bytes may land
    * between a poll's stat and its read, or the read may fail. */
  datatype Event =
    | Append(bytes: seq<byte>)
    | Tick
    | TickWhileAppending(bytes: seq<byte>)
    | TickReadFails

  datatype World = World(file: Option<seq<byte>>, tail: Tail)

  function Bytes(file: Option<seq<byte>>): seq<byte>
  {
    if file.Some? then file.value else []
  }

  function Stat(file: Option<seq<byte>>): Option<nat>
  {
    if file.Some? then Some(|file.value|) else None
  }

  function Next(w: World, e: Event): World
  {
    match e
    case Append(bytes) => w.(file := Some(Bytes(w.file) + bytes))
    case Tick => w.(tail := Ticked(w.tail, Stat(w.file), w.file))
    case TickWhileAppending(bytes) =>
      var later := Some(Bytes(w.file) + bytes);
      World(later, Ticked(w.tail, Stat(w.file), later))
    case TickReadFails => w.(tail := Ticked(w.tail, Stat(w.file), None))
  }

  function Run(w: World, events: seq<Event>): World
  {
    if events == [] then w else Next(Run(w, events[..|events| - 1]), events[|events| - 1])
  }

  /** Since the moment the file held `from` bytes up to a boundary and `before`
    * had been sent, exactly the lines completed in between have followed. */
  ghost predicate Faithful(w: World, from: nat, before: seq<Line>)
  {
    var f := Bytes(w.file);
    && from <= w.tail.offset
    && Boundary(f, from) && Boundary(f, w.tail.offset)
    && w.tail.sent == before + Lines(f[from..w.tail.offset])
  }

  lemma SliceOfSlice<T>(f: seq<T>, g: seq<T>, a: nat, b: nat, c: nat)
    requires f <= g && a <= b <= c <= |f|
    ensures g[a..c][..b - a] == f[a..b] && g[a..c][b - a..] == f[b..c] && g[b..c] == f[b..c]
  {
  }

  /** Lines between two boundaries split at a boundary in the middle. */
  lemma LinesBetween(g: seq<byte>, a: nat, b: nat, c: nat)
    requires a <= b <= c <= |g| && Boundary(g, b)
    ensures Lines(g[a..c]) == Lines(g[a..b]) + Lines(g[b..c])
  {
    SliceOfSlice(g, g, a, b, c);
    var seen := g[a..c];
    assert b > a ==> seen[b - a - 1] == g[b - 1];
    BoundarySplitsLines(seen, b - a);
  }

  lemma BoundaryExtends(f: seq<byte>, g: seq<byte>, c: nat)
    requires f <= g && Boundary(f, c)
    ensures Boundary(g, c)
  {
    assert c > 0 ==> g[c - 1] == f[c - 1];
  }

  /** One successful poll, as lines: size bytes were there at the stat. */
  lemma PollDelivers(later: seq<byte>, size: nat, from: nat, o: nat)
    requires size <= |later| && from <= o <= size
    requires Boundary(later, o)
    ensures var o' := LastBoundary(later[..size]);
            && o' == o + LastBoundary(later[o..size])
            && o <= o' <= size && Boundary(later, o')
            && Lines(later[from..o']) == Lines(later[from..o]) + Lines(later[o..size])
  {
    var f := later[..size];
    var o' := LastBoundary(f);
    assert Boundary(f, o);
    LastBoundarySuffix(f, o);
    assert f[o..] == later[o..size];
    LinesBetween(later, from, o, o');
    BoundaryExtends(f, later, o');
    LinesBetween(later, o, o', size);
    assert later[o'..size] == f[o'..];
    NoLines(f[o'..]);
  }

  lemma TickFaithful(w: World, size: nat, later: seq<byte>, from: nat, before: seq<Line>)
    requires Faithful(w, from, before) && w.file.Some? && size == |w.file.value|
    requires w.file.value <= later
    ensures var w' := World(Some(later), Ticked(w.tail, Some(size), Some(later)));
            && Faithful(w', from, before)
            && w'.tail.offset == LastBoundary(w.file.value)
  {
    var f, o := w.file.value, w.tail.offset;
    assert f == later[..size];
    BoundaryExtends(f, later, from);
    BoundaryExtends(f, later, o);
    assert f[from..o] == later[from..o];
    PollDelivers(later, size, from, o);
    Assoc(before, Lines(later[from..o]), Lines(later[o..size]));
  }

  lemma AppendFaithful(w: World, bytes: seq<byte>, from: nat, before: seq<Line>)
    requires Faithful(w, from, before)
    ensures Faithful(Next(w, Append(bytes)), from, before)
  {
    var f := Bytes(w.file);
    assert (f + bytes)[from..w.tail.offset] == f[from..w.tail.offset];
    BoundaryExtends(f, f + bytes, from);
    BoundaryExtends(f, f + bytes, w.tail.offset);
  }

  lemma NextFaithful(w: World, e: Event, from: nat, before: seq<Line>)
    requires Faithful(w, from, before)
    ensures Faithful(Next(w, e), from, before)
    ensures e.Tick? ==> Next(w, e).tail.offset == LastBoundary(Bytes(w.file))
  {
    match e
    case Append(bytes) => AppendFaithful(w, bytes, from, before);
    case Tick => if w.file.Some? { TickFaithful(w, |w.file.value|, w.file.value, from, before); }
    case TickWhileAppending(bytes) =>
      if w.file.Some? {
        TickFaithful(w, |w.file.value|, w.file.value + bytes, from, before);
      } else {
        AppendFaithful(w, bytes, from, before);
      }
    case TickReadFails =>
  }

  /** Exactly once: over any run of appends and polls, the offset is at a line
    * boundary and the frames sent are the complete lines up to it, in order;
    * a poll that reads the file leaves no complete line unsent. */
  lemma {:induction false} ExactlyOnceFrom(w: World, events: seq<Event>)
    requires Boundary(Bytes(w.file), w.tail.offset)
    ensures Faithful(Run(w, events), w.tail.offset, w.tail.sent)
    ensures events != [] && events[|events| - 1] == Tick ==>
              Run(w, events).tail.sent == w.tail.sent + Lines(Bytes(Run(w, events).file)[w.tail.offset..])
  {
    if events == [] {
      NoLines([]);
      assert Bytes(w.file)[w.tail.offset..w.tail.offset] == [];
    } else {
      var before := Run(w, events[..|events| - 1]);
      ExactlyOnceFrom(w, events[..|events| - 1]);
      NextFaithful(before, events[|events| - 1], w.tail.offset, w.tail.sent);
      if events[|events| - 1] == Tick {
        AllSent(Run(w, events), w.tail.offset, w.tail.sent);
      }
    }
  }

  lemma AllSent(w: World, from: nat, before: seq<Line>)
    requires Faithful(w, from, before) && w.tail.offset == LastBoundary(Bytes(w.file))
    ensures w.tail.sent == before + Lines(Bytes(w.file)[from..])
  {
    var f, o := Bytes(w.file), w.tail.offset;
    LinesBetween(f, from, o, |f|);
    assert f[from..|f|] == f[from..] && f[o..|f|] == f[o..];
    NoLines(f[o..]);
  }

  /** The whole stream of one client: connect to a file whose window shows a
    * newline (or that fits the window), then any appends and polls, ending with
    * a poll. It got the last n lines of the window, then every line completed
    * since, and together with what came before the connect these are all the
    * lines of the file. */
  lemma ExactlyOnce(file: seq<byte>, n: nat, events: seq<Event>)
    requires WindowStart(file).Some?
    requires events != [] && events[|events| - 1] == Tick
    ensures var w := Run(World(Some(file), Connected(Some(file), n)), events);
            var c := LastBoundary(file);
            && c <= |Bytes(w.file)|
            && (exists replay :: Newest(replay, Lines(file[WindowStart(file).value..]), n)
                                 && w.tail.sent == replay + Lines(Bytes(w.file)[c..]))
            && Lines(Bytes(w.file)) == Lines(file) + Lines(Bytes(w.file)[c..])
            && Boundary(Bytes(w.file), w.tail.offset)
  {
    var start := World(Some(file), Connected(Some(file), n));
    var c := LastBoundary(file);
    ExactlyOnceFrom(start, events);
    RunExtends(start, events);
    var f := Bytes(Run(start, events).file);
    SplitAtConnect(file, f);
    assert Newest(LastN(Lines(file[WindowStart(file).value..]), n), Lines(file[WindowStart(file).value..]), n);
  }

  /** A client that connects before there is a file gets all of it once it comes. */
  lemma MissingFileThenAll(n: nat, events: seq<Event>)
    requires events != [] && events[|events| - 1] == Tick
    ensures var w := Run(World(None, Connected(None, n)), events);
            w.tail.sent == Lines(Bytes(w.file))
  {
    var start := World(None, Connected(None, n));
    ExactlyOnceFrom(start, events);
    assert Bytes(Run(start, events).file)[0..] == Bytes(Run(start, events).file);
  }

  /** What the writers appended during a run. */
  function Appended(events: seq<Event>): seq<byte>
  {
    if events == [] then []
    else
      var e := events[|events| - 1];
      Appended(events[..|events| - 1]) + if e.Append? || e.TickWhileAppending? then e.bytes else []
  }

  /** The file holds what was there and all that was appended, and nothing else. */
  lemma {:induction false} FileIsAppended(w: World, events: seq<Event>)
    ensures Bytes(Run(w, events).file) == Bytes(w.file) + Appended(events)
  {
    if events == [] {
      assert Bytes(w.file) + [] == Bytes(w.file);
    } else {
      var front, e := events[..|events| - 1], events[|events| - 1];
      FileIsAppended(w, front);
      OneEventAppends(Run(w, front), e);
      Assoc(Bytes(w.file), Appended(front), if e.Append? || e.TickWhileAppending? then e.bytes else []);
    }
  }

  lemma OneEventAppends(w: World, e: Event)
    ensures Bytes(Next(w, e).file) == Bytes(w.file) + if e.Append? || e.TickWhileAppending? then e.bytes else []
  {
    assert Bytes(w.file) + [] == Bytes(w.file);
  }

  lemma SplitAtConnect(file: seq<byte>, f: seq<byte>)
    requires file <= f
    ensures Lines(f) == Lines(file) + Lines(f[LastBoundary(file)..])
  {
    var c := LastBoundary(file);
    BoundaryExtends(file, f, c);
    BoundarySplitsLines(f, c);
    assert f[..c] == file[..c];
    BoundarySplitsLines(file, c);
    NoLines(file[c..]);
  }

  lemma {:induction false} RunExtends(w: World, events: seq<Event>)
    ensures Bytes(w.file) <= Bytes(Run(w, events).file)
  {
    if events != [] {
      RunExtends(w, events[..|events| - 1]);
    }
  }

  // ---------------------------------------------------------- rotation

  /** A poll that finds the file gone or shorter than the offset sends nothing
    * and restarts at zero; from then on the fresh file is delivered whole. */
  lemma RotationRestarts(t: Tail, next: Option<seq<byte>>, events: seq<Event>)
    requires next.None? || |next.value| < t.offset
    requires events != [] && events[|events| - 1] == Tick
    ensures var w0 := World(next, t);
            var w := Run(Next(w0, Tick), events);
            && Next(w0, Tick) == World(next, Tail(0, t.sent))
            && w.tail.sent == t.sent + Lines(Bytes(w.file))
            && Boundary(Bytes(w.file), w.tail.offset)
  {
    var w1 := Next(World(next, t), Tick);
    ExactlyOnceFrom(w1, events);
    assert Bytes(Run(w1, events).file)[0..] == Bytes(Run(w1, events).file);
  }

  // ------------------------------------------------ the giant torn line

  /** The resume offset is a line boundary exactly when the scanned window shows
    * a newline or holds the whole file. */
  lemma ConnectAtBoundaryIff(file: seq<byte>, n: nat)
    ensures Boundary(file, Connected(Some(file), n).offset) <==> WindowStart(file).Some?
  {
    if WindowStart(file).None? {
      var start := |file| - TAIL_CHUNK;
      assert file[start..][TAIL_CHUNK - 1] == file[|file| - 1];
    }
  }

  /** Otherwise the line being written at connect is never delivered whole: when
    * its newline lands, only the bytes that came after the connect are sent as a
    * line, and nothing at all if there were none; the tail then goes on after it. */
  lemma GiantLineIsTorn(file: seq<byte>, n: nat, tail: seq<byte>)
    requires WindowStart(file).None? && NL !in tail
    ensures var later := file + tail + [NL];
            var line := file[LastBoundary(file)..] + tail;
            && Lines(later) == Lines(file) + [line]
            && Ticked(Connected(Some(file), n), Some(|later|), Some(later))
               == Tail(|later|, if tail == [] then [] else [tail])
            && |tail| + TAIL_CHUNK <= |line|
  {
    var later, line := file + tail + [NL], file[LastBoundary(file)..] + tail;
    assert LastBoundary(file) <= |file| - TAIL_CHUNK;
    GiantLineLines(file, tail, LastBoundary(file));
    SingleLine(tail);
    assert later[|file|..|later|] == tail + [NL];
    LastBoundaryUnique(tail + [NL], |tail| + 1);
    assert PollSpec(Some(|later|), Some(later), |file|) == Poll(if tail == [] then [] else [tail], |later|, false);
  }

  /** Over whole runs: from such a connect, after any appends and polls that end with
    * a poll, the frames sent are the lines of the bytes that came since. Once a
    * newline has come, the line it ends lacks all that was written before the
    * connect; every later line is delivered whole. */
  lemma GiantLineRun(file: seq<byte>, n: nat, events: seq<Event>)
    requires WindowStart(file).None?
    requires events != [] && events[|events| - 1] == Tick
    ensures var w := Run(World(Some(file), Connected(Some(file), n)), events);
            && file <= Bytes(w.file)
            && w.tail.sent == Lines(Bytes(w.file)[|file|..])
            && TornThenWhole(file, Bytes(w.file)[|file|..], Bytes(w.file), w.tail.sent)
  {
    var w0, v0 := World(Some(file), Connected(Some(file), n)), World(Some([]), Tail(0, []));
    assert file + [] == file;
    RunShifted(file, w0, v0, events);
    ExactlyOnceFrom(v0, events);
    var since := Bytes(Run(v0, events).file);
    assert since[0..] == since && (file + since)[|file|..] == since;
    if NL in since { TornLine(file, since); }
  }

  /** Of the lines completed since the connect, the first was sent without what the
    * file held of it, if anything of it was left; the others were sent whole. */
  ghost predicate TornThenWhole(file: seq<byte>, since: seq<byte>, later: seq<byte>, sent: seq<Line>)
  {
    NL in since ==>
      var head, rest := since[..FirstNL(since)], since[FirstNL(since) + 1..];
      && Lines(later) == Lines(file) + [file[LastBoundary(file)..] + head] + Lines(rest)
      && sent == (if head == [] then [] else [head]) + Lines(rest)
  }

  lemma TornLine(file: seq<byte>, since: seq<byte>)
    requires WindowStart(file).None? && NL in since
    ensures TornThenWhole(file, since, file + since, Lines(since))
  {
    var i := FirstNL(since);
    var head, rest := since[..i], since[i + 1..];
    assert LastBoundary(file) <= |file| - TAIL_CHUNK;
    GiantLineLines(file, head, LastBoundary(file));
    SingleLine(head);
    CutAt(since, i);
    Assoc(file, head, [NL]);
    Assoc(file, head + [NL], rest);
    LinesGoOn(head + [NL], rest);
    LinesGoOn(file + head + [NL], rest);
  }

  lemma LinesGoOn(a: seq<byte>, rest: seq<byte>)
    requires a != [] && a[|a| - 1] == NL
    ensures Lines(a + rest) == Lines(a) + Lines(rest)
  {
    BoundarySplitsLines(a + rest, |a|);
    assert (a + rest)[..|a|] == a && (a + rest)[|a|..] == rest;
  }

  /** The same poll, with a prefix of the file that is never read again. */
  ghost predicate Shifted(file: seq<byte>, w: World, v: World)
  {
    && v.file.Some? && v.tail.offset <= |v.file.value|
    && w == World(Some(file + v.file.value), Later(file, v.tail))
  }

  function Later(file: seq<byte>, t: Tail): Tail
  {
    t.(offset := |file| + t.offset)
  }

  lemma {:induction false} RunShifted(file: seq<byte>, w: World, v: World, events: seq<Event>)
    requires Shifted(file, w, v)
    ensures Shifted(file, Run(w, events), Run(v, events))
  {
    if events != [] {
      RunShifted(file, w, v, events[..|events| - 1]);
      NextShifted(file, Run(w, events[..|events| - 1]), Run(v, events[..|events| - 1]), events[|events| - 1]);
    }
  }

  lemma NextShifted(file: seq<byte>, w: World, v: World, e: Event)
    requires Shifted(file, w, v)
    ensures Shifted(file, Next(w, e), Next(v, e))
  {
    var f := v.file.value;
    match e
    case Append(bytes) => Assoc(file, f, bytes);
    case Tick => TickShifted(file, f, |f|, v.tail);
    case TickWhileAppending(bytes) =>
      Assoc(file, f, bytes);
      TickShifted(file, f + bytes, |f|, v.tail);
    case TickReadFails =>
  }

  lemma TickShifted(file: seq<byte>, f: seq<byte>, size: nat, t: Tail)
    requires t.offset <= size <= |f|
    ensures Ticked(Later(file, t), Some(|file| + size), Some(file + f)) == Later(file, Ticked(t, Some(size), Some(f)))
    ensures Ticked(t, Some(size), Some(f)).offset <= size
  {
    var buf := f[t.offset..size];
    SliceShifted(file, f, t.offset, size);
    TickedIs(t, size, f, buf);
    TickedIs(Later(file, t), |file| + size, file + f, buf);
  }

  lemma SliceShifted(file: seq<byte>, f: seq<byte>, a: nat, b: nat)
    requires a <= b <= |f|
    ensures (file + f)[|file| + a..|file| + b] == f[a..b]
  {
  }

  /** What one poll of a file that can be read makes of the bytes it reads. */
  function Swept(t: Tail, buf: seq<byte>): Tail
  {
    Tail(t.offset + LastBoundary(buf), t.sent + Lines(buf))
  }

  lemma TickedIs(t: Tail, size: nat, f: seq<byte>, buf: seq<byte>)
    requires t.offset <= size <= |f| && buf == f[t.offset..size]
    ensures Ticked(t, Some(size), Some(f)) == Swept(t, buf)
  {
  }

  lemma GiantLineLines(file: seq<byte>, tail: seq<byte>, c: nat)
    requires Boundary(file, c) && c < |file| && NL !in file[c..] && NL !in tail
    ensures Lines(file + tail + [NL]) == Lines(file) + [file[c..] + tail]
  {
    var later, line := file + tail + [NL], file[c..] + tail;
    SingleLine(line);
    assert later[c..] == line + [NL] && later[..c] == file[..c];
    BoundarySplitsLines(later, c);
    BoundarySplitsLines(file, c);
    NoLines(file[c..]);
  }

  lemma SingleLine(x: seq<byte>)
    requires NL !in x
    ensures Lines(x + [NL]) == if x == [] then [] else [x]
  {
    LinesAfter(x, []);
    assert x + [NL] + [] == x + [NL];
    NoLines([]);
    SplitNoSeparator(x, NL);
    assert [x][1..] == [];
  }
}
