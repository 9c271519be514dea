/** The `<image_files>` envelope: rendering a list of paths and parsing it back. */
module ImageFiles {
  import opened Wrappers
  import opened Strings
  import opened Query
  import Utf8

  const IMAGE_FILES := "image_files"

  // ----- rendering

  /** `scrub_for_envelope`: look-alikes for angle brackets, no ASCII control characters. */
  function Scrub(s: string): (r: string)
    ensures forall c :: c in r ==> c != '<' && c != '>' && c != '\n' && c != '\r'
  {
    if s == "" then ""
    else
      var c, rest := s[0], Scrub(s[1..]);
      if c == '<' then ['\U{2039}'] + rest
      else if c == '>' then ['\U{203A}'] + rest
      else if c < ' ' || c == '\U{7F}' then rest
      else [c] + rest
  }

  /** A path with no angle bracket and no ASCII control character is written as it is, and no other. */
  lemma {:induction false} ScrubKeepsExactly(s: string)
    ensures |Scrub(s)| <= |s|
    ensures Scrub(s) == s <==> forall i :: 0 <= i < |s| ==> s[i] != '<' && s[i] != '>' && s[i] >= ' ' && s[i] != '\U{7F}'
  {
    if s != "" {
      var t := s[1..];
      ScrubKeepsExactly(t);
      assert s == [s[0]] + t;
      assert forall i :: 0 <= i < |t| ==> t[i] == s[i + 1];
    }
  }

  lemma ScrubOne(c: char)
    ensures Scrub([c]) == if c == '<' then "\U{2039}" else if c == '>' then "\U{203A}"
                          else if c < ' ' || c == '\U{7F}' then "" else [c]
  {
    assert [c][1..] == "";
  }

  lemma ScrubCons(s: string)
    requires s != ""
    ensures Scrub(s) == Scrub([s[0]]) + Scrub(s[1..])
  {
    ScrubOne(s[0]);
  }

  /** Scrubbing goes character by character, whatever stands around. */
  lemma {:induction false} ScrubConcat(a: string, b: string)
    ensures Scrub(a + b) == Scrub(a) + Scrub(b)
  {
    hide Scrub;
    if a == "" {
      assert a + b == b;
      ScrubNothing();
    } else {
      ScrubConcat(a[1..], b);
      ScrubCons(a);
      ScrubCons(a + b);
      assert (a + b)[1..] == a[1..] + b && (a + b)[0] == a[0];
      AppendAssociative(Scrub([a[0]]), Scrub(a[1..]), Scrub(b));
    }
  }

  lemma ScrubNothing()
    ensures Scrub("") == ""
  {
  }

  function NumberedLine(n: nat, path: string): string {
    Utf8.Decimal(n) + ". " + Scrub(path)
  }

  function NumberedLines(paths: seq<string>, n: nat): string
    decreases |paths|
  {
    if paths == [] then "" else NumberedLine(n, paths[0]) + ['\n'] + NumberedLines(paths[1..], n + 1)
  }

  /** `image_files_block`. */
  function ImageFilesBlock(lead: string, paths: seq<string>, trailer: string): string {
    Open(IMAGE_FILES) + ['\n'] + (lead + ['\n'] + (NumberedLines(paths, 1) + trailer + Close(IMAGE_FILES)))
  }

  lemma BlockPieces(lead: string, lines: string, trailer: string, open: string, close: string)
    ensures open + ['\n'] + lead + ['\n'] + lines + trailer + close == open + ['\n'] + (lead + ['\n'] + (lines + trailer + close))
  {
  }

  method RenderBlock(lead: string, paths: seq<string>, trailer: string) returns (out: string)
    ensures out == ImageFilesBlock(lead, paths, trailer)
  {
    out := Open(IMAGE_FILES) + ['\n'] + lead + ['\n'];
    ghost var head := out;
    for i := 0 to |paths|
      invariant out + NumberedLines(paths[i..], i + 1) == head + NumberedLines(paths, 1)
    {
      assert paths[i..][1..] == paths[i + 1..];
      var line := NumberedLine(i + 1, paths[i]);
      assert out + (line + ['\n'] + NumberedLines(paths[i + 1..], i + 2)) == (out + line + ['\n']) + NumberedLines(paths[i + 1..], i + 2);
      out := out + line + ['\n'];
    }
    assert paths[|paths|..] == [] && out == head + NumberedLines(paths, 1);
    BlockPieces(lead, NumberedLines(paths, 1), trailer, Open(IMAGE_FILES), Close(IMAGE_FILES));
    out := out + trailer + Close(IMAGE_FILES);
  }

  // ----- parsing

  function StripCarriageReturn(line: string): string {
    if line != "" && line[|line| - 1] == '\r' then line[..|line| - 1] else line
  }

  /** `str::lines`. */
  function Lines(s: string): seq<string>
    decreases |s|
  {
    if s == "" then []
    else match Find(s, "\n")
         case None => [s]
         case Some(i) => [StripCarriageReturn(s[..i])] + Lines(s[i + 1..])
  }

  predicate AllDigits(s: string) {
    forall c :: c in s ==> '0' <= c <= '9'
  }

  /** `numbered_path`. */
  function NumberedPath(line: string): Option<string> {
    var t := Trim(line);
    match Find(t, ". ")
    case None => None
    case Some(i) => if i > 0 && AllDigits(t[..i]) then Some(Trim(t[i + 2..])) else None
  }

  function PathsOfLines(lines: seq<string>): seq<string> {
    if lines == [] then []
    else match NumberedPath(lines[0])
         case None => PathsOfLines(lines[1..])
         case Some(path) => [path] + PathsOfLines(lines[1..])
  }

  /** `parse_image_files_paths`. */
  function ParsePaths(text: string): seq<string>
    decreases |text|
  {
    match TagBlockRange(text, IMAGE_FILES)
    case None => []
    case Some(r) => PathsOfLines(Lines(text[r.start..r.end])) + ParsePaths(text[r.end..])
  }

  method ParseImageFilesPaths(text: string) returns (paths: seq<string>)
    ensures paths == ParsePaths(text)
  {
    paths := [];
    var rest := text;
    var range := TagBlockRange(rest, IMAGE_FILES);
    while range.Some?
      invariant range == TagBlockRange(rest, IMAGE_FILES)
      invariant paths + ParsePaths(rest) == ParsePaths(text)
      decreases |rest|
    {
      paths := paths + PathsOfLines(Lines(rest[range.value.start..range.value.end]));
      rest := rest[range.value.end..];
      range := TagBlockRange(rest, IMAGE_FILES);
    }
  }

  // ----- the round trip

  /** What a rendered path reads back as; a path with nothing visible is not read back. */
  function Readable(paths: seq<string>): seq<string> {
    if paths == [] then []
    else
      var p := Trim(Scrub(paths[0]));
      if p == "" then Readable(paths[1..]) else [p] + Readable(paths[1..])
  }

  lemma LinesCons(line: string, rest: string)
    requires '\n' !in line
    ensures Lines(line + ['\n'] + rest) == [StripCarriageReturn(line)] + Lines(rest)
  {
    var s := line + ['\n'] + rest;
    assert s[|line|..|line| + 1] == "\n";
    forall j: nat | j < |line| ensures !OccursAt(s, "\n", j) {
      assert s[j] == line[j] && line[j] in line;
      assert s[j..j + 1] == [s[j]];
    }
    FirstOccurrence(s, "\n", 0, |line|);
    assert s[..|line|] == line && s[|line| + 1..] == rest;
  }

  lemma LinesLast(line: string)
    requires '\n' !in line && line != ""
    ensures Lines(line) == [line]
  {
    forall j: nat ensures !OccursAt(line, "\n", j) {
      if j + 1 <= |line| {
        assert line[j..j + 1] == [line[j]] && line[j] in line;
      }
    }
  }

  lemma DecimalHasNoPoint(n: nat)
    ensures AllDigits(Utf8.Decimal(n)) && '.' !in Utf8.Decimal(n) && '\n' !in Utf8.Decimal(n) && '<' !in Utf8.Decimal(n)
    ensures Utf8.Decimal(n) != "" && Trimmed(Utf8.Decimal(n) + ".")
  {
    var d := Utf8.Decimal(n);
    assert forall c :: c in d ==> '0' <= c <= '9';
    assert d[0] in d;
  }

  lemma NumberedTextReads(line: string, d: string, e: string)
    requires d != "" && AllDigits(d) && Trim(line) == d + ". " + e
    requires Find(d + ". " + e, ". ") == Some(|d|)
    ensures NumberedPath(line) == Some(Trim(e))
  {
    hide Trim, Find, AllDigits;
    var t := d + ". " + e;
    assert t[..|d|] == d && t[|d| + 2..] == e;
  }

  lemma NoPathIn(line: string)
    requires !Occurs(Trim(line), ". ")
    ensures NumberedPath(line) == None
  {
    hide Trim, Find, Occurs;
  }

  /** A numbered line reads back as its path, trimmed; nothing is read from an invisible one. */
  lemma NumberedLineReads(d: string, q: string)
    requires d != "" && AllDigits(d)
    ensures NumberedPath(d + ". " + q) == if Trim(q) == "" then None else Some(Trim(q))
  {
    hide Trim, OccursAt, Find, Occurs, AllDigits, TrimEnd, NumberedPath;
    TrimNumbered(d, q);
    if Trim(q) == "" {
      NoPointSpace(d);
      NoPathIn(d + ". " + q);
    } else {
      FirstPointSpace(d, TrimEnd(q));
      NumberedTextReads(d + ". " + q, d, TrimEnd(q));
      TrimOfTrimEnd(q);
    }
  }

  /** Nothing else reads as a path: the line is a number, a point, a space and the path. */
  lemma NumberedPathOnly(line: string) returns (d: string, q: string)
    requires NumberedPath(line).Some?
    ensures d != "" && AllDigits(d) && Trim(line) == d + ". " + q && NumberedPath(line) == Some(Trim(q))
  {
    hide Trim, Find, Occurs;
    var t := Trim(line);
    var i := Find(t, ". ").value;
    d, q := t[..i], t[i + 2..];
    assert t == t[..i] + t[i..i + 2] + t[i + 2..];
  }

  lemma NoPointSpace(d: string)
    requires AllDigits(d)
    ensures !Occurs(d + ".", ". ")
  {
    forall j: nat ensures !OccursAt(d + ".", ". ", j) {
      if j + 2 <= |d + "."| {
        assert (d + ".")[j] == d[j] && d[j] in d;
        assert (d + ".")[j..j + 2][0] == d[j];
      }
    }
  }

  lemma FirstPointSpace(d: string, e: string)
    requires AllDigits(d)
    ensures Find(d + ". " + e, ". ") == Some(|d|)
  {
    var t := d + ". " + e;
    assert t[|d|..|d| + 2] == ". ";
    forall j: nat | j < |d| ensures !OccursAt(t, ". ", j) {
      assert t[j] == d[j] && d[j] in d;
      assert t[j..j + 2][0] == t[j];
    }
    FirstOccurrence(t, ". ", 0, |d|);
  }

  lemma {:induction false} TrimEndAppend(a: string, q: string)
    requires a != "" && !IsWhitespace(a[|a| - 1])
    ensures TrimEnd(a + q) == a + TrimEnd(q)
  {
    hide IsWhitespace;
    if q == "" {
      assert a + q == a;
    } else {
      assert (a + q)[..|a + q| - 1] == a + q[..|q| - 1];
      if IsWhitespace(q[|q| - 1]) {
        TrimEndAppend(a, q[..|q| - 1]);
      }
    }
  }

  lemma NumberedText(d: string, e: string)
    ensures (d + ".") + ([' '] + e) == d + ". " + e && (d + ".") + "" == d + "."
    ensures d <= d + ". " + e && (d + ".") != ""
  {
  }

  lemma TrimEndNumbered(d: string, q: string)
    ensures TrimEnd(d + ". " + q) == if TrimEnd(q) == "" then d + "." else d + ". " + TrimEnd(q)
  {
    hide TrimEnd, IsWhitespace;
    EndsVisible(d);
    TrimEndAppend(d + ".", [' '] + q);
    TrimEndBlank(q);
    NumberedText(d, q);
    NumberedText(d, TrimEnd(q));
  }

  lemma TrimVisible(s: string)
    requires TrimStart(s) == s
    ensures Trim(s) == TrimEnd(s)
  {
  }

  lemma TrimNumbered(d: string, q: string)
    requires d != "" && AllDigits(d)
    ensures Trim(d + ". " + q) == if Trim(q) == "" then d + "." else d + ". " + TrimEnd(q)
  {
    hide Trim, TrimEnd, TrimStart, IsWhitespace, AllDigits;
    NumberedText(d, q);
    StartsVisible(d, d + ". " + q);
    TrimVisible(d + ". " + q);
    TrimEndNumbered(d, q);
    TrimEmptyIff(q);
  }

  lemma StartsVisible(d: string, s: string)
    requires d != "" && AllDigits(d) && d <= s
    ensures TrimStart(s) == s
  {
    assert d[0] in d && s[0] == d[0];
  }

  lemma EndsVisible(d: string)
    ensures !IsWhitespace((d + ".")[|d|])
  {
  }

  lemma {:induction false} TrimEndBlank(q: string)
    ensures TrimEnd([' '] + q) == if TrimEnd(q) == "" then "" else [' '] + TrimEnd(q)
  {
    if q == "" {
      assert [' '] + q == [' '] && [' '][..0] == "";
    } else {
      var n := |q| - 1;
      assert ([' '] + q)[..n + 1] == [' '] + q[..n];
      if IsWhitespace(q[n]) {
        TrimEndBlank(q[..n]);
      }
    }
  }

  lemma TrimEmptyIff(q: string)
    ensures Trim(q) == "" <==> TrimEnd(q) == ""
  {
  }

  /** A line that starts with neither a digit nor whitespace carries no path. */
  predicate IsProse(line: string) {
    line != "" && !IsWhitespace(line[0]) && !('0' <= line[0] <= '9')
  }

  lemma ProseCarriesNoPath(line: string)
    requires IsProse(line)
    ensures NumberedPath(line) == None
  {
    var t := Trim(line);
    assert TrimStart(line) == line && t == line[..|t|];
    assert t == TrimEnd(line);
    ProseTrimmed(line);
    match Find(t, ". ")
    case None =>
    case Some(i) =>
      if i > 0 {
        assert t[..i][0] == line[0] && line[0] in t[..i];
      }
  }

  lemma {:induction false} ProseTrimmed(line: string)
    requires line != "" && !IsWhitespace(line[0])
    ensures TrimEnd(line) != "" && TrimEnd(line)[0] == line[0]
  {
    hide IsWhitespace;
    if IsWhitespace(line[|line| - 1]) {
      ProseTrimmed(line[..|line| - 1]);
    }
  }

  lemma NumberedLineReadsBack(n: nat, path: string)
    ensures NumberedPath(NumberedLine(n, path)) == if Trim(Scrub(path)) == "" then None else Some(Trim(Scrub(path)))
  {
    hide Trim, NumberedPath;
    DecimalHasNoPoint(n);
    NumberedLineReads(Utf8.Decimal(n), Scrub(path));
  }

  lemma NumberedLinesCons(paths: seq<string>, n: nat, rest: string)
    requires paths != []
    ensures NumberedLines(paths, n) + rest == NumberedLine(n, paths[0]) + ['\n'] + (NumberedLines(paths[1..], n + 1) + rest)
  {
    hide NumberedLine;
  }

  /** The path a line carries, if any. */
  function LinePaths(line: string): seq<string> {
    match NumberedPath(line) case None => [] case Some(p) => [p]
  }

  lemma ReadableCons(paths: seq<string>, n: nat)
    requires paths != []
    ensures Readable(paths) == LinePaths(NumberedLine(n, paths[0])) + Readable(paths[1..])
  {
    hide Trim, NumberedPath, NumberedLine, Scrub;
    NumberedLineReadsBack(n, paths[0]);
    assert [] + Readable(paths[1..]) == Readable(paths[1..]);
  }

  /** The lines of the list read back as the readable paths, before whatever follows. */
  lemma {:induction false} NumberedLinesRead(paths: seq<string>, n: nat, rest: string)
    ensures PathsOfLines(Lines(NumberedLines(paths, n) + rest)) == Readable(paths) + PathsOfLines(Lines(rest))
    decreases |paths|
  {
    hide Lines, NumberedLine, PathsOfLines, StripCarriageReturn, LinePaths;
    if paths == [] {
      assert NumberedLines(paths, n) + rest == rest;
      assert Readable(paths) + PathsOfLines(Lines(rest)) == PathsOfLines(Lines(rest));
    } else {
      hide NumberedLines, Readable;
      var line, more := NumberedLine(n, paths[0]), NumberedLines(paths[1..], n + 1) + rest;
      NumberedLinesCons(paths, n, rest);
      NumberedLineClean(n, paths[0]);
      LinesCons(line, more);
      NumberedLinesRead(paths[1..], n + 1, rest);
      PathsCons(line, Lines(more));
      ReadableCons(paths, n);
      AppendAssociative(LinePaths(line), Readable(paths[1..]), PathsOfLines(Lines(rest)));
    }
  }

  lemma PathsCons(line: string, lines: seq<string>)
    ensures PathsOfLines([line] + lines) == LinePaths(line) + PathsOfLines(lines)
  {
    assert ([line] + lines)[1..] == lines;
  }

  lemma NumberedLineClean(n: nat, path: string)
    ensures '\n' !in NumberedLine(n, path) && '<' !in NumberedLine(n, path)
    ensures StripCarriageReturn(NumberedLine(n, path)) == NumberedLine(n, path)
  {
    DecimalHasNoPoint(n);
    var q := Scrub(path);
    var line := NumberedLine(n, path);
    assert line[|line| - 1] == (if q == "" then ' ' else q[|q| - 1]);
    assert q != "" ==> q[|q| - 1] in q;
  }

  lemma {:induction false} NumberedLinesHaveNoTag(paths: seq<string>, n: nat)
    ensures '<' !in NumberedLines(paths, n)
    decreases |paths|
  {
    if paths != [] {
      NumberedLineClean(n, paths[0]);
      NumberedLinesHaveNoTag(paths[1..], n + 1);
    }
  }

  /** A block whose text holds no `<` is found whole. */
  lemma EnvelopeFound(tag: string, inner: string)
    requires '<' !in inner && '<' !in tag && (tag != "" ==> tag[0] != '/')
    ensures var text := Open(tag) + inner + Close(tag);
            TagBlockRange(text, tag) == Some(Range(0, |text|)) && text[0..|text|] == text
  {
    hide OccursAt, Open, Close;
    var o, c := Open(tag), Close(tag);
    var text, e := o + inner + c, |o| + |inner|;
    EnvelopeEnds(o, inner, c);
    TagText(tag);
    forall j: nat | j < e ensures !OccursAt(text, c, j) {
      NoCloseInside(o, inner, c, j);
    }
    FirstOccurrence(text, o, 0, 0);
    FirstOccurrence(text, c, 0, e);
  }

  lemma TagText(tag: string)
    requires '<' !in tag && (tag != "" ==> tag[0] != '/')
    ensures |Open(tag)| >= 2 && |Close(tag)| >= 2
    ensures forall k :: 0 < k < |Open(tag)| ==> Open(tag)[k] != '<'
    ensures Open(tag)[1] != '/' && Close(tag)[0] == '<' && Close(tag)[1] == '/'
  {
  }

  lemma EnvelopeEnds(o: string, inner: string, c: string)
    ensures OccursAt(o + inner + c, o, 0) && OccursAt(o + inner + c, c, |o| + |inner|)
  {
    var text, e := o + inner + c, |o| + |inner|;
    assert text[0..|o|] == o && text[e..e + |c|] == c;
  }

  lemma NoCloseInside(o: string, inner: string, c: string, j: nat)
    requires |o| >= 2 && |c| >= 2 && '<' !in inner && j < |o| + |inner|
    requires (forall k :: 0 < k < |o| ==> o[k] != '<') && o[1] != '/' && c[0] == '<' && c[1] == '/'
    ensures !OccursAt(o + inner + c, c, j)
  {
    var text := o + inner + c;
    if j + |c| <= |text| {
      var piece := text[j..j + |c|];
      assert piece[0] == text[j] && piece[1] == text[j + 1];
      if j == 0 {
        assert text[1] == o[1];
      } else if j < |o| {
        assert text[j] == o[j];
      } else {
        assert text[j] == inner[j - |o|] && inner[j - |o|] in inner;
      }
    }
  }

  /** The trailing text of a block: nothing, or one prose line between blank lines. */
  ghost predicate IsTrailer(trailer: string) {
    trailer == "" ||
    (|trailer| > 2 && trailer[0] == '\n' && trailer[|trailer| - 1] == '\n' &&
     '\n' !in trailer[1..|trailer| - 1] && IsProse(trailer[1..|trailer| - 1]))
  }

  lemma TrailerReads(trailer: string, close: string)
    requires IsTrailer(trailer) && '\n' !in close && IsProse(close)
    ensures PathsOfLines(Lines(trailer + close)) == []
  {
    hide NumberedPath;
    LinesLast(close);
    ProseCarriesNoPath(close);
    PathsCons(close, []);
    assert [close] + [] == [close];
    if trailer == "" {
      assert trailer + close == close;
    } else {
      var prose := trailer[1..|trailer| - 1];
      assert trailer + close == "" + ['\n'] + (prose + ['\n'] + close);
      LinesCons("", prose + ['\n'] + close);
      LinesCons(prose, close);
      EmptyLineSilent();
      ProseLineStripped(prose);
      PathsCons("", [StripCarriageReturn(prose)] + [close]);
      PathsCons(StripCarriageReturn(prose), [close]);
    }
  }

  lemma EmptyLineSilent()
    ensures NumberedPath("") == None
  {
  }

  lemma ProseLineStripped(line: string)
    requires IsProse(line)
    ensures NumberedPath(StripCarriageReturn(line)) == None
  {
    ProseCarriesNoPath(line);
    if StripCarriageReturn(line) != line {
      assert IsWhitespace('\r');
      assert |line| > 1;
      ProseCarriesNoPath(line[..|line| - 1]);
    }
  }

  /** Parsing a rendered block returns exactly the readable forms of its paths, in order. */
  lemma RenderedBlockParses(lead: string, paths: seq<string>, trailer: string)
    requires '\n' !in lead && '<' !in lead && IsProse(lead)
    requires IsTrailer(trailer) && '<' !in trailer
    ensures ParsePaths(ImageFilesBlock(lead, paths, trailer)) == Readable(paths)
  {
    hide Lines, TagBlockRange, PathsOfLines, ParsePaths, Open, Close, IsProse, IsTrailer, NumberedLines, Readable;
    var o, c := Open(IMAGE_FILES), Close(IMAGE_FILES);
    var block, lines := ImageFilesBlock(lead, paths, trailer), NumberedLines(paths, 1);
    BlockRange(lead, paths, trailer);
    TagLines();
    BlockLinesRead(o, lead, lines, trailer, c);
    NumberedLinesRead(paths, 1, trailer + c);
    TrailerReads(trailer, c);
    assert lines + (trailer + c) == lines + trailer + c;
    OneBlockParses(block);
    assert Readable(paths) + [] == Readable(paths);
  }

  lemma BlockRange(lead: string, paths: seq<string>, trailer: string)
    requires '<' !in lead && '<' !in trailer
    ensures var block := ImageFilesBlock(lead, paths, trailer);
            TagBlockRange(block, IMAGE_FILES) == Some(Range(0, |block|))
  {
    hide TagBlockRange, Open, Close;
    var inner := ['\n'] + lead + ['\n'] + (NumberedLines(paths, 1) + trailer);
    NumberedLinesHaveNoTag(paths, 1);
    EnvelopeFound(IMAGE_FILES, inner);
    BlockInner(Open(IMAGE_FILES), lead, NumberedLines(paths, 1), trailer, Close(IMAGE_FILES));
  }

  lemma BlockInner(o: string, lead: string, lines: string, trailer: string, c: string)
    ensures o + (['\n'] + lead + ['\n'] + (lines + trailer)) + c == o + ['\n'] + (lead + ['\n'] + (lines + trailer + c))
  {
  }

  lemma OneBlockParses(block: string)
    requires TagBlockRange(block, IMAGE_FILES) == Some(Range(0, |block|))
    ensures ParsePaths(block) == PathsOfLines(Lines(block))
  {
    hide Lines, PathsOfLines, TagBlockRange, OccursAt, Open, Close;
    assert block[0..|block|] == block && block[|block|..] == "";
    NoBlockInEmpty();
    assert PathsOfLines(Lines(block)) + [] == PathsOfLines(Lines(block));
  }

  lemma NoBlockInEmpty()
    ensures ParsePaths("") == []
  {
  }

  lemma TagLines()
    ensures IsProse(Open(IMAGE_FILES)) && '\n' !in Open(IMAGE_FILES)
    ensures IsProse(Close(IMAGE_FILES)) && '\n' !in Close(IMAGE_FILES)
  {
  }

  lemma BlockLinesRead(o: string, lead: string, lines: string, trailer: string, c: string)
    requires IsProse(o) && '\n' !in o && IsProse(lead) && '\n' !in lead
    ensures PathsOfLines(Lines(o + ['\n'] + (lead + ['\n'] + (lines + trailer + c)))) ==
            PathsOfLines(Lines(lines + trailer + c))
  {
    hide Lines, NumberedPath;
    var rest := lines + trailer + c;
    LinesCons(o, lead + ['\n'] + rest);
    LinesCons(lead, rest);
    ProseLineStripped(o);
    ProseLineStripped(lead);
    PathsCons(StripCarriageReturn(o), [StripCarriageReturn(lead)] + Lines(rest));
    PathsCons(StripCarriageReturn(lead), Lines(rest));
  }

  // ----- the two blocks the source renders

  const PROMPT_A :=
    "The following images " + "were provided by the "
  const PROMPT_B :=
    "user and saved to the " + "workspace for future " + "use:"
  const PROMPT_LEAD := PROMPT_A + PROMPT_B
  const PROMPT_TRAILER := ['\n'] + PROMPT_TRAILER_LINE + ['\n']
  const PROMPT_C := "These images can be "
  const PROMPT_D := "copied for use in other " + "locations."
  const PROMPT_TRAILER_LINE := PROMPT_C + PROMPT_D
  const NOTE_A := "Images the user " + "attached earlier in "
  const NOTE_B := "this session (before " + "the summary "
  const NOTE_C := "above) are saved at the " + "absolute paths below. "
  const NOTE_D := "They live under the " + "session directory, not "
  const NOTE_E := "the workspace. If one " + "matters for the current "
  const NOTE_F := "task, open it with " + "read_file; do not ask "
  const NOTE_G := "the user to re-send it."
  const NOTE_LEAD := NOTE_A + (NOTE_B + (NOTE_C + (NOTE_D + (NOTE_E + (NOTE_F + NOTE_G)))))

  /** `render_image_files_block`. */
  function RenderImageFilesBlock(paths: seq<string>): Option<string> {
    if paths == [] then None else Some(ImageFilesBlock(PROMPT_LEAD, paths, PROMPT_TRAILER))
  }

  /** `render_attached_image_paths_note`. */
  function RenderAttachedNote(paths: seq<string>): string {
    ImageFilesBlock(NOTE_LEAD, paths, "")
  }

  lemma PromptBlockParses(paths: seq<string>)
    requires paths != []
    ensures ParsePaths(RenderImageFilesBlock(paths).value) == Readable(paths)
  {
    hide ParsePaths, ImageFilesBlock, Readable;
    PromptLeadText();
    PromptTrailerText();
    RenderedBlockParses(PROMPT_LEAD, paths, PROMPT_TRAILER);
  }

  lemma PromptLeadText()
    ensures IsPlain(PROMPT_LEAD) && IsProse(PROMPT_LEAD)
  {
    PromptPlainA();
    PromptPlainB();
    PlainConcat(PROMPT_A, PROMPT_B);
  }

  lemma PromptTrailerText()
    ensures IsTrailer(PROMPT_TRAILER) && '<' !in PROMPT_TRAILER
  {
    PromptPlainC();
    PromptPlainD();
    PlainConcat(PROMPT_C, PROMPT_D);
    TrailerOf(PROMPT_C + PROMPT_D);
  }

  lemma TrailerOf(line: string)
    requires IsPlain(line) && IsProse(line)
    ensures IsTrailer(['\n'] + line + ['\n']) && '<' !in ['\n'] + line + ['\n']
  {
    var t := ['\n'] + line + ['\n'];
    assert t[1..|t| - 1] == line;
  }

  lemma PromptPlainA()
    ensures IsPlain(PROMPT_A) && IsProse(PROMPT_A)
  {
  }

  lemma PromptPlainB()
    ensures IsPlain(PROMPT_B)
  {
  }

  lemma PromptPlainC()
    ensures IsPlain(PROMPT_C) && IsProse(PROMPT_C)
  {
  }

  lemma PromptPlainD()
    ensures IsPlain(PROMPT_D)
  {
  }

  lemma NoteParses(paths: seq<string>)
    ensures ParsePaths(RenderAttachedNote(paths)) == Readable(paths)
  {
    hide ParsePaths, ImageFilesBlock, Readable;
    NoteText();
    RenderedBlockParses(NOTE_LEAD, paths, "");
  }

  predicate IsPlain(s: string) {
    '\n' !in s && '<' !in s
  }

  lemma NoteText()
    ensures IsPlain(NOTE_LEAD) && IsProse(NOTE_LEAD)
  {
    PlainA();
    PlainB();
    PlainC();
    PlainD();
    PlainE();
    PlainF();
    PlainG();
    PlainConcat(NOTE_F, NOTE_G);
    PlainConcat(NOTE_E, NOTE_F + NOTE_G);
    PlainConcat(NOTE_D, NOTE_E + (NOTE_F + NOTE_G));
    PlainConcat(NOTE_C, NOTE_D + (NOTE_E + (NOTE_F + NOTE_G)));
    PlainConcat(NOTE_B, NOTE_C + (NOTE_D + (NOTE_E + (NOTE_F + NOTE_G))));
    PlainConcat(NOTE_A, NOTE_B + (NOTE_C + (NOTE_D + (NOTE_E + (NOTE_F + NOTE_G)))));
  }

  lemma PlainConcat(a: string, b: string)
    requires IsPlain(a) && IsPlain(b)
    ensures IsPlain(a + b) && (IsProse(a) ==> IsProse(a + b))
  {
  }

  lemma PlainA()
    ensures IsPlain(NOTE_A) && IsProse(NOTE_A)
  {
  }

  lemma PlainB()
    ensures IsPlain(NOTE_B)
  {
  }

  lemma PlainC()
    ensures IsPlain(NOTE_C)
  {
  }

  lemma PlainD()
    ensures IsPlain(NOTE_D)
  {
  }

  lemma PlainE()
    ensures IsPlain(NOTE_E)
  {
  }

  lemma PlainF()
    ensures IsPlain(NOTE_F)
  {
  }

  lemma PlainG()
    ensures IsPlain(NOTE_G)
  {
  }
}
