/** Harvesting image paths from a conversation (`collect_attached_image_paths`), and why a block
    embedded in other text still yields all its paths. */
module ImageHarvest {
  import opened Wrappers
  import opened Conversation
  import opened Strings
  import opened Query
  import opened ImageFiles

  // ----- keep the last of each path

  function KeepLast(s: seq<string>): seq<string> {
    if s == [] then []
    else if s[0] in s[1..] then KeepLast(s[1..]) else [s[0]] + KeepLast(s[1..])
  }

  /** Position of the last occurrence. */
  function LastIndex(s: seq<string>, x: string): (i: nat)
    requires x in s
    ensures i < |s| && s[i] == x && x !in s[i + 1..]
  {
    if x in s[1..] then
      var i := LastIndex(s[1..], x);
      assert s[1..][i + 1..] == s[i + 2..];
      i + 1
    else 0
  }

  lemma LastIndexLater(s: seq<string>, x: string)
    requires s != [] && x in s[1..]
    ensures x in s && LastIndex(s, x) == LastIndex(s[1..], x) + 1
  {
  }

  predicate Ascending(s: seq<string>, r: seq<string>)
    requires forall i :: 0 <= i < |r| ==> r[i] in s
  {
    forall i, j :: 0 <= i < j < |r| ==> LastIndex(s, r[i]) < LastIndex(s, r[j])
  }

  lemma AscendingLater(s: seq<string>, r: seq<string>)
    requires s != [] && (forall i :: 0 <= i < |r| ==> r[i] in s[1..]) && Ascending(s[1..], r)
    ensures (forall i :: 0 <= i < |r| ==> r[i] in s) && Ascending(s, r)
    ensures s[0] !in s[1..] ==> Ascending(s, [s[0]] + r)
  {
    hide LastIndex;
    forall i | 0 <= i < |r| ensures r[i] in s && LastIndex(s, r[i]) == LastIndex(s[1..], r[i]) + 1 {
      LastIndexLater(s, r[i]);
    }
    if s[0] !in s[1..] {
      LastIndexFirst(s);
    }
  }

  lemma LastIndexFirst(s: seq<string>)
    requires s != [] && s[0] !in s[1..]
    ensures LastIndex(s, s[0]) == 0
  {
  }

  /** The same paths, each once, ordered by where each was last mentioned. */
  lemma {:induction false} KeepLastMeans(s: seq<string>)
    ensures forall x :: x in KeepLast(s) <==> x in s
    ensures Ascending(s, KeepLast(s))
  {
    hide Ascending;
    if s == [] {
      NothingAscends(s);
    } else {
      KeepLastMeans(s[1..]);
      assert s == [s[0]] + s[1..];
      AscendingLater(s, KeepLast(s[1..]));
    }
  }

  lemma NothingAscends(s: seq<string>)
    ensures Ascending(s, [])
  {
  }

  method DedupKeepingLast(s: seq<string>) returns (r: seq<string>)
    ensures r == KeepLast(s)
  {
    var seen: set<string>, k := {}, |s|;
    r := [];
    while k > 0
      invariant 0 <= k <= |s|
      invariant r == KeepLast(s[k..])
      invariant forall x :: x in seen <==> x in s[k..]
    {
      k := k - 1;
      assert s[k..] == [s[k]] + s[k + 1..];
      if s[k] !in seen {
        seen := seen + {s[k]};
        r := [s[k]] + r;
      }
    }
    assert s[0..] == s;
  }

  // ----- harvesting

  predicate IsMeta(item: Item) {
    item.User? && item.reason == Some(CompactionMeta)
  }

  function PathsOf(item: Item): seq<string> {
    if item.User? then ParsePaths(UserText(item)) else []
  }

  /** Paths of the compaction items, latest item first. */
  function MetaPaths(h: seq<Item>): seq<string> {
    if h == [] then [] else MetaPaths(h[1..]) + if IsMeta(h[0]) then PathsOf(h[0]) else []
  }

  /** Paths of the other items, in order. */
  function TurnPaths(h: seq<Item>): seq<string> {
    if h == [] then [] else (if IsMeta(h[0]) then [] else PathsOf(h[0])) + TurnPaths(h[1..])
  }

  /** Compaction items are read from the latest back. */
  lemma {:induction false} MetaLatestFirst(a: seq<Item>, b: seq<Item>)
    ensures MetaPaths(a + b) == MetaPaths(b) + MetaPaths(a)
  {
    hide IsMeta, PathsOf;
    if a == [] {
      assert a + b == b;
    } else {
      MetaLatestFirst(a[1..], b);
      assert (a + b)[1..] == a[1..] + b && (a + b)[0] == a[0];
      AppendAssociative(MetaPaths(b), MetaPaths(a[1..]), if IsMeta(a[0]) then PathsOf(a[0]) else []);
    }
  }

  /** The other turns are read from the first on. */
  lemma {:induction false} TurnsInOrder(a: seq<Item>, b: seq<Item>)
    ensures TurnPaths(a + b) == TurnPaths(a) + TurnPaths(b)
  {
    hide IsMeta, PathsOf;
    if a == [] {
      assert a + b == b;
    } else {
      TurnsInOrder(a[1..], b);
      assert (a + b)[1..] == a[1..] + b && (a + b)[0] == a[0];
      AppendAssociative(if IsMeta(a[0]) then [] else PathsOf(a[0]), TurnPaths(a[1..]), TurnPaths(b));
    }
  }

  function Without(s: seq<string>, exclude: seq<string>): (r: seq<string>)
    ensures forall x :: x in r <==> x in s && x !in exclude
  {
    if s == [] then []
    else if s[0] in exclude then Without(s[1..], exclude) else [s[0]] + Without(s[1..], exclude)
  }

  /** `collect_attached_image_paths`. */
  function AttachedPaths(h: seq<Item>, exclude: seq<string>): seq<string> {
    KeepLast(Without(MetaPaths(h) + TurnPaths(h), exclude))
  }

  /** A path is mentioned in a block of some user item. */
  ghost predicate Mentions(h: seq<Item>, path: string) {
    exists i :: 0 <= i < |h| && path in PathsOf(h[i])
  }

  lemma {:induction false} PathsMentioned(h: seq<Item>, path: string)
    ensures path in MetaPaths(h) + TurnPaths(h) <==> Mentions(h, path)
  {
    hide PathsOf;
    if h != [] {
      PathsMentioned(h[1..], path);
      if Mentions(h[1..], path) {
        var i :| 0 <= i < |h[1..]| && path in PathsOf(h[1..][i]);
        assert path in PathsOf(h[i + 1]);
      }
      if Mentions(h, path) {
        var i :| 0 <= i < |h| && path in PathsOf(h[i]);
        assert i > 0 ==> h[i] == h[1..][i - 1];
      }
    }
  }

  /** Exactly the mentioned paths that are not excluded, each once, by latest mention. */
  lemma AttachedPathsMean(h: seq<Item>, exclude: seq<string>)
    ensures forall p :: p in AttachedPaths(h, exclude) <==> Mentions(h, p) && p !in exclude
    ensures var all, r := Without(MetaPaths(h) + TurnPaths(h), exclude), AttachedPaths(h, exclude);
            (forall p :: p in r ==> p in all) && Ascending(all, r)
  {
    hide Mentions, MetaPaths, TurnPaths;
    var all := Without(MetaPaths(h) + TurnPaths(h), exclude);
    KeepLastMeans(all);
    forall p ensures p in AttachedPaths(h, exclude) <==> Mentions(h, p) && p !in exclude {
      PathsMentioned(h, p);
    }
  }

  // ----- a block inside other text

  lemma {:induction false} LinesSplit(x: string, rest: string)
    ensures Lines(x + ['\n'] + rest) == Lines(x + ['\n']) + Lines(rest)
    decreases |x|
  {
    hide Lines, Find, Occurs;
    match Find(x, "\n")
    case None =>
      NoNewline(x);
      LinesCons(x, rest);
      LinesCons(x, "");
      assert x + ['\n'] + "" == x + ['\n'];
      NoLines();
    case Some(i) =>
      NewlineAt(x, i);
      var line, tail := x[..i], x[i + 1..];
      assert x == line + ['\n'] + tail;
      assert x + ['\n'] + rest == line + ['\n'] + (tail + ['\n'] + rest);
      assert x + ['\n'] == line + ['\n'] + (tail + ['\n']);
      LinesCons(line, tail + ['\n'] + rest);
      LinesCons(line, tail + ['\n']);
      LinesSplit(tail, rest);
  }

  lemma NoLines()
    ensures Lines("") == [] && PathsOfLines([]) == []
  {
  }

  lemma NoNewline(x: string)
    requires !Occurs(x, "\n")
    ensures '\n' !in x
  {
    forall j | 0 <= j < |x| ensures x[j] != '\n' {
      assert !OccursAt(x, "\n", j);
      assert x[j..j + 1] == [x[j]];
    }
  }

  lemma NewlineAt(x: string, i: nat)
    requires Find(x, "\n") == Some(i)
    ensures i < |x| && x[i] == '\n' && '\n' !in x[..i]
  {
    assert x[i..i + 1] == [x[i]];
    forall j | 0 <= j < i ensures x[..i][j] != '\n' {
      assert !OccursAt(x, "\n", j);
      assert x[j..j + 1] == [x[j]];
    }
  }

  lemma {:induction false} PathsOfLinesConcat(a: seq<string>, b: seq<string>)
    ensures PathsOfLines(a + b) == PathsOfLines(a) + PathsOfLines(b)
  {
    hide NumberedPath;
    if a == [] {
      assert a + b == b;
    } else {
      PathsOfLinesConcat(a[1..], b);
      assert (a + b)[1..] == a[1..] + b;
    }
  }

  /** Text before a block that starts with a tag hides none of the block's paths. */
  lemma BlockLinesAfter(u: string, b: string, path: string)
    requires IsProse(b) && path in PathsOfLines(Lines(b))
    ensures path in PathsOfLines(Lines(u + b))
  {
    hide NumberedPath, Lines, Find, Occurs, PathsOfLines, StripCarriageReturn;
    match Find(b, "\n")
    case None =>
      NoNewline(b);
      LinesLast(b);
      ProseCarriesNoPath(b);
      PathsCons(b, []);
      assert [b] + [] == [b];
      NoLines();
    case Some(i) =>
      NewlineAt(b, i);
      var first, rest := b[..i], b[i + 1..];
      assert b == first + ['\n'] + rest;
      LinesCons(first, rest);
      assert i > 0 && IsProse(first);
      ProseLineStripped(first);
      PathsCons(StripCarriageReturn(first), Lines(rest));
      assert u + b == (u + first) + ['\n'] + rest;
      LinesSplit(u + first, rest);
      PathsOfLinesConcat(Lines(u + first + ['\n']), Lines(rest));
  }

  /** `b` is one complete block and nothing else. */
  predicate IsBlock(b: string) {
    TagBlockRange(b, IMAGE_FILES) == Some(Range(0, |b|))
  }

  /** Where the first block of `a + b + c` ends when `b` is a block: before `b`, or with it. */
  lemma FirstBlockAround(a: string, b: string, c: string)
    requires IsBlock(b)
    ensures var r := TagBlockRange(a + b + c, IMAGE_FILES);
            r.Some? && r.value.start <= |a| && (r.value.end <= |a| || r.value.end == |a| + |b|)
  {
    hide OccursAt, Find, FindFrom;
    var open, close := Open(IMAGE_FILES), Close(IMAGE_FILES);
    var t, e := a + b + c, |a| + |b| - |close|;
    OccursInMiddle(a, b, c, open, 0);
    BlockClose(b);
    OccursInMiddle(a, b, c, close, |b| - |close|);
    var s := Find(t, open).value;
    var first := FindFrom(t, close, s).value;
    TagText(IMAGE_FILES);
    if first < |a| {
      OccurrencesDisjoint(t, close, open, first, |a|);
    } else if first < e {
      OccursInMiddle(a, b, c, close, first - |a|);
    }
  }

  lemma BlockClose(b: string)
    requires IsBlock(b)
    ensures |b| >= |Close(IMAGE_FILES)| && OccursAt(b, Open(IMAGE_FILES), 0)
    ensures OccursAt(b, Close(IMAGE_FILES), |b| - |Close(IMAGE_FILES)|)
    ensures forall j: nat :: j < |b| - |Close(IMAGE_FILES)| ==> !OccursAt(b, Close(IMAGE_FILES), j)
    ensures IsProse(b)
  {
    hide OccursAt;
    OccurrenceChar(b, Open(IMAGE_FILES), 0, 0);
  }

  lemma OccursInMiddle(a: string, b: string, c: string, p: string, i: nat)
    requires i + |p| <= |b|
    ensures OccursAt(a + b + c, p, |a| + i) <==> OccursAt(b, p, i)
  {
    var t := a + b + c;
    assert t[|a|..|a| + |b|] == b;
    OccursInSlice(t, p, |a|, |a| + |b|, i);
  }

  lemma {:induction false} ParseFindsEmbedded(a: string, b: string, c: string, path: string)
    requires IsBlock(b) && path in ParsePaths(b)
    ensures path in ParsePaths(a + b + c)
    decreases |a|
  {
    hide OccursAt, Lines, PathsOfLines, TagBlockRange;
    var t := a + b + c;
    FirstBlockAround(a, b, c);
    OneBlockParses(b);
    var r := TagBlockRange(t, IMAGE_FILES).value;
    if r.end <= |a| {
      assert t[r.end..] == a[r.end..] + b + c;
      ParseFindsEmbedded(a[r.end..], b, c, path);
    } else {
      BlockClose(b);
      assert t[r.start..r.end] == a[r.start..] + b;
      BlockLinesAfter(a[r.start..], b, path);
    }
  }
}
