/** More of `format_compact_summary`: drafts that are never closed, and what the last steps keep. */
module SummaryCases {
  import opened Wrappers
  import opened Strings
  import opened Summary
  import TagBlocks

  // ----- a draft that is never closed

  /** Where the summary opens, if the draft before it does not mention its tag. */
  lemma SummaryOpensAt(draft: string, rest: string)
    requires !Occurs(draft, SUMMARY)
    ensures var s := ANALYSIS + draft + SUMMARY + rest;
            && Find(s, ANALYSIS) == Some(0)
            && Find(s, SUMMARY) == Some(|ANALYSIS| + |draft|)
            && FindFrom(s, SUMMARY, 0) == Some(|ANALYSIS| + |draft|)
  {
    hide OccursAt;
    ControlTagsAreTagLike();
    var head := ANALYSIS + draft + SUMMARY;
    var s, e := head + rest, |ANALYSIS| + |draft|;
    TagsAtEnds(ANALYSIS, draft, SUMMARY);
    OccursInHead(head, rest, ANALYSIS, 0);
    OccursInHead(head, rest, SUMMARY, e);
    forall j: nat | j < e ensures !OccursAt(s, SUMMARY, j) {
      if OccursAt(s, SUMMARY, j) {
        TagsDisjoint(s, SUMMARY, SUMMARY, j, e);
        OccursInHead(head, rest, SUMMARY, j);
        TagInWrapped(ANALYSIS, draft, SUMMARY, SUMMARY, j);
        if j == 0 {
          SameTag(s, ANALYSIS, SUMMARY, 0);
        }
      }
    }
    FirstOccurrence(s, SUMMARY, 0, e);
  }

  /** An analysis block that is never closed goes up to the summary. */
  lemma UnclosedDraftDropped(draft: string, rest: string)
    requires !Occurs(draft, SUMMARY) && !Occurs(ANALYSIS + draft + SUMMARY + rest, ANALYSIS_END)
    ensures DropAnalysis(ANALYSIS + draft + SUMMARY + rest) == SUMMARY + rest
  {
    hide OccursAt, Occurs, Find, FindFrom, Trim;
    var s, e := ANALYSIS + draft + SUMMARY + rest, |ANALYSIS| + |draft|;
    SummaryOpensAt(draft, rest);
    NoneFrom(s, ANALYSIS_END, 0);
    assert IsLeading(s, 0);
    assert s[e..] == SUMMARY + rest && s[..0] + s[e..] == s[e..];
  }

  lemma NoneFrom(s: string, p: string, from: nat)
    requires !Occurs(s, p)
    ensures FindFrom(s, p, from) == None
  {
  }

  /** The summary of a draft that was never closed stands under its heading, word for word. */
  lemma UnclosedDraftSummaryKept(draft: string, body: string)
    requires !Occurs(draft, SUMMARY) && Clean(body) && body != ""
    requires !Occurs(ANALYSIS + draft + SUMMARY + (body + SUMMARY_END), ANALYSIS_END)
    ensures FormatCompactSummary(ANALYSIS + draft + SUMMARY + (body + SUMMARY_END)) == "Summary:\n" + body
  {
    hide OccursAt, DropAnalysis, UnwrapSummary, Neutralize, CollapseBlankRuns, Trim;
    CleanBodyTags(body);
    UnclosedDraftDropped(draft, body + SUMMARY_END);
    assert SUMMARY + (body + SUMMARY_END) == SUMMARY + body + SUMMARY_END;
    CleanBlockUnwrapped(body);
    HeadedBodyClean(body);
    CleanIsFixedAtEnd("Summary:\n" + body);
  }

  /** A summary without a draft stands under its heading too. */
  lemma BlockAloneKept(body: string)
    requires Clean(body) && body != ""
    ensures FormatCompactSummary(SUMMARY + body + SUMMARY_END) == "Summary:\n" + body
  {
    hide OccursAt, DropAnalysis, UnwrapSummary, Neutralize, CollapseBlankRuns, Trim;
    CleanBodyTags(body);
    BlockHasNoAnalysis(body);
    CleanBlockUnwrapped(body);
    HeadedBodyClean(body);
    CleanIsFixedAtEnd("Summary:\n" + body);
  }

  /** A draft and nothing else leaves nothing. */
  lemma DraftAloneLeavesNothing(draft: string)
    requires !Occurs(ANALYSIS + draft, ANALYSIS_END) && !Occurs(ANALYSIS + draft, SUMMARY)
    ensures FormatCompactSummary(ANALYSIS + draft) == ""
  {
    hide Occurs, Find, FindFrom, UnwrapSummary, Neutralize, CollapseBlankRuns, Trim;
    var s := ANALYSIS + draft;
    assert OccursAt(s, ANALYSIS, 0);
    OpensFirst(s);
    NoneFrom(s, ANALYSIS_END, 0);
    NoneFrom(s, SUMMARY, 0);
    assert Trim(s[..0]) == "" by { assert Trimmed(""); }
    assert DropAnalysis(s) == s[..0] == "";
    EmptyIsClean();
    CleanIsFixed("");
  }

  lemma OpensFirst(s: string)
    requires OccursAt(s, ANALYSIS, 0)
    ensures Find(s, ANALYSIS) == Some(0)
  {
  }

  lemma EmptyIsClean()
    ensures Clean("") && DropAnalysis("") == ""
  {
    ControlTagsAreTagLike();
  }

  // ----- analysis that is part of the summary

  /** Text before it in the summary: the analysis block is quoted, and stays. */
  lemma QuotedAnalysisKept(text: string, rest: string)
    requires !Occurs(SUMMARY + text, ANALYSIS) && Trim(text) != ""
    ensures DropAnalysis(SUMMARY + text + (ANALYSIS + rest)) == SUMMARY + text + (ANALYSIS + rest)
  {
    hide OccursAt, Occurs, Trim;
    var head, tail := SUMMARY + text, ANALYSIS + rest;
    var s := head + tail;
    ControlTagsAreTagLike();
    FirstTagAt(head, ANALYSIS, rest);
    SummaryOpensFirst(text + tail);
    assert s == SUMMARY + (text + tail);
    assert s[|SUMMARY|..|head|] == text;
  }

  /** Text before it and no summary at all: the same. */
  lemma LateAnalysisKept(text: string, rest: string)
    requires !Occurs(text, ANALYSIS) && Trim(text) != "" && !Occurs(text + (ANALYSIS + rest), SUMMARY)
    ensures DropAnalysis(text + (ANALYSIS + rest)) == text + (ANALYSIS + rest)
  {
    hide OccursAt, Occurs, Trim;
    var s := text + (ANALYSIS + rest);
    ControlTagsAreTagLike();
    FirstTagAt(text, ANALYSIS, rest);
    assert s[..|text|] == text;
  }

  lemma FirstTagAt(a: string, tag: string, b: string)
    requires TagLike(tag) && !Occurs(a, tag)
    ensures Find(a + (tag + b), tag) == Some(|a|)
  {
    hide OccursAt, Occurs;
    var s := a + (tag + b);
    TagBlocks.OccursAtFront(a, tag, b);
    TagBlocks.Witness(s, tag, |a|);
    forall j: nat | j < |a| ensures !OccursAt(s, tag, j) {
      if OccursAt(s, tag, j) {
        TagBlocks.OccurrenceStays(a, tag + b, tag, j);
        TagBlocks.Witness(a, tag, j);
      }
    }
  }

  lemma SummaryOpensFirst(rest: string)
    ensures Find(SUMMARY + rest, SUMMARY) == Some(0)
  {
    TagBlocks.OccursAtFront("", SUMMARY, rest);
    assert "" + (SUMMARY + rest) == SUMMARY + rest;
  }

  // ----- the text around the summary, and the scratchpad inside it

  lemma LastTagAt(a: string, tag: string, b: string)
    requires TagLike(tag) && !Occurs(b, tag)
    ensures RFind(a + (tag + b), tag) == Some(|a|)
  {
    hide OccursAt, Occurs;
    var s := a + (tag + b);
    TagBlocks.OccursAtFront(a, tag, b);
    TagBlocks.Witness(s, tag, |a|);
    forall j: nat | |a| < j ensures !OccursAt(s, tag, j) {
      if OccursAt(s, tag, j) {
        TagsDisjoint(s, tag, tag, |a|, j);
        OccurrenceInside(s, tag, j);
        var lo := |a| + |tag|;
        assert s[lo..|s|] == b;
        OccursInSlice(s, tag, lo, |s|, j - lo);
        TagBlocks.Witness(b, tag, j - lo);
      }
    }
  }

  /** The block from the first opening to the last closing tag becomes a headed section, whatever it
      holds, and the text before and after stays. */
  lemma UnwrapKeepsAround(before: string, inner: string, after: string)
    requires !Occurs(before, SUMMARY) && !Occurs(after, SUMMARY_END)
    ensures UnwrapSummary(before + (SUMMARY + (inner + (SUMMARY_END + after)))) ==
            before + "Summary:\n" + StripLeadingScratchpad(Trim(inner)) + after
  {
    hide OccursAt, Occurs, Trim, StripLeadingScratchpad, Find, RFind, UnwrapSummary;
    ControlTagsAreTagLike();
    var s := before + (SUMMARY + (inner + (SUMMARY_END + after)));
    FirstTagAt(before, SUMMARY, inner + (SUMMARY_END + after));
    LastTagAt(before + SUMMARY + inner, SUMMARY_END, after);
    assert s == before + SUMMARY + inner + (SUMMARY_END + after);
    var start, end := |before|, |before| + |SUMMARY| + |inner|;
    UnwrapIs(s, start, end);
    assert s[..start] == before && s[start + |SUMMARY|..end] == inner && s[end + |SUMMARY_END|..] == after;
  }

  /** The text starts with a number, behind any list or heading marks. */
  ghost predicate Numbered(s: string) {
    exists k :: 0 <= k < |s| && '0' <= s[k] <= '9' && forall j :: 0 <= j < k ==> s[j] in "#*-> \t"
  }

  lemma {:induction false} NumberedMeans(s: string)
    ensures StartsWithDigit(TrimMarks(s)) <==> Numbered(s)
  {
    if s != "" && IsListMark(s[0]) {
      var t := s[1..];
      NumberedMeans(t);
      if Numbered(t) {
        var k :| 0 <= k < |t| && '0' <= t[k] <= '9' && forall j :: 0 <= j < k ==> t[j] in "#*-> \t";
        assert s[k + 1] == t[k] && forall j :: 0 < j < k + 1 ==> s[j] == t[j - 1];
      }
      if Numbered(s) {
        var k :| 0 <= k < |s| && '0' <= s[k] <= '9' && forall j :: 0 <= j < k ==> s[j] in "#*-> \t";
        assert t[k - 1] == s[k] && forall j :: 0 <= j < k - 1 ==> t[j] == s[j + 1];
      }
    }
  }

  /** A scratchpad goes up to its last closing tag, unless the section is numbered, in which case the
      tag is quoted and all of it stays. */
  lemma ScratchpadPeeled(pad: string, body: string)
    requires Trimmed(pad + (ANALYSIS_END + body)) && Trimmed(body)
    requires !Occurs(body, ANALYSIS_END) && !(SUMMARY <= body)
    ensures StripLeadingScratchpad(pad + (ANALYSIS_END + body)) ==
            if Numbered(pad + (ANALYSIS_END + body)) then pad + (ANALYSIS_END + body) else body
  {
    hide *;
    ControlTagsAreTagLike();
    LastTagAt(pad, ANALYSIS_END, body);
    AfterTag(pad, ANALYSIS_END, body);
    PeeledAt(pad + (ANALYSIS_END + body), |pad|, body);
  }

  lemma PeeledAt(s: string, pos: nat, body: string)
    requires RFind(s, ANALYSIS_END) == Some(pos) && pos + |ANALYSIS_END| <= |s| && s[pos + |ANALYSIS_END|..] == body
    requires Trimmed(s) && Trimmed(body) && !(SUMMARY <= body)
    ensures StripLeadingScratchpad(s) == if Numbered(s) then s else body
  {
    hide *;
    NumberedMeans(s);
    PeelAt(s, pos);
    TrimmedStart(body);
    ScratchpadIs(s);
    if Numbered(s) {
      NumberedOpensNoTag(s);
      OpensNothing(s);
    } else {
      OpensNothing(body);
    }
  }

  lemma AfterTag(a: string, tag: string, b: string)
    ensures |a| + |tag| <= |a + (tag + b)| && (a + (tag + b))[|a| + |tag|..] == b
  {
  }

  lemma PeelAt(s: string, pos: nat)
    requires RFind(s, ANALYSIS_END) == Some(pos) && pos + |ANALYSIS_END| <= |s|
    ensures PeelAnalysis(s) == if StartsWithDigit(TrimMarks(s)) then s else TrimStart(s[pos + |ANALYSIS_END|..])
  {
    hide RFind, StartsWithDigit, TrimMarks, TrimStart, OccursAt, Occurs, IsWhitespace;
  }

  lemma TrimmedStart(s: string)
    requires Trimmed(s)
    ensures TrimStart(s) == s
  {
  }

  lemma ScratchpadIs(s: string)
    requires Trimmed(s)
    ensures StripLeadingScratchpad(s) == DropOpening(PeelAnalysis(s))
  {
    hide PeelAnalysis, DropOpening;
  }

  lemma OpensNothing(s: string)
    requires !(SUMMARY <= s)
    ensures DropOpening(s) == s
  {
  }

  lemma NumberedOpensNoTag(s: string)
    requires Numbered(s)
    ensures !(SUMMARY <= s)
  {
    var k :| 0 <= k < |s| && '0' <= s[k] <= '9' && forall j :: 0 <= j < k ==> s[j] in "#*-> \t";
    assert '<' !in "#*-> \t" && s[0] != '<';
    assert SUMMARY[0] == '<';
  }

  /** A summary tag left inside opens nothing more. */
  lemma InnerOpeningDropped(body: string)
    requires Trimmed(SUMMARY + body) && !Occurs(SUMMARY + body, ANALYSIS_END)
    ensures StripLeadingScratchpad(SUMMARY + body) == TrimStart(body)
  {
    hide *;
    NothingPeeled(SUMMARY + body);
    ScratchpadIs(SUMMARY + body);
    OpeningDropped(body);
  }

  lemma OpeningDropped(body: string)
    ensures DropOpening(SUMMARY + body) == TrimStart(body)
  {
    hide TrimStart;
    assert SUMMARY <= SUMMARY + body && (SUMMARY + body)[|SUMMARY|..] == body;
  }

  // ----- defusing loses no text

  /** The text without zero-width spaces. */
  function Shown(s: string): string {
    if s == "" then "" else (if s[0] == ZERO_WIDTH_SPACE then "" else [s[0]]) + Shown(s[1..])
  }

  lemma {:induction false} ShownConcat(a: string, b: string)
    ensures Shown(a + b) == Shown(a) + Shown(b)
  {
    if a == "" {
      assert a + b == b;
    } else {
      ShownConcat(a[1..], b);
      assert (a + b)[1..] == a[1..] + b && (a + b)[0] == a[0];
      AppendAssociative(if a[0] == ZERO_WIDTH_SPACE then "" else [a[0]], Shown(a[1..]), Shown(b));
    }
  }

  lemma DefusedShown(tag: string)
    requires tag != "" && tag[0] == '<'
    ensures Shown(Defused(tag)) == Shown(tag)
  {
    hide Shown;
    var rest := tag[1..];
    ShownConcat(['<'] + [ZERO_WIDTH_SPACE], rest);
    ShownConcat(['<'], [ZERO_WIDTH_SPACE]);
    ShownConcat(['<'], rest);
    assert tag == ['<'] + rest;
    MarkNotShown();
    assert Shown(['<']) + "" == Shown(['<']);
  }

  lemma MarkNotShown()
    ensures Shown([ZERO_WIDTH_SPACE]) == ""
  {
    assert [ZERO_WIDTH_SPACE][1..] == "";
  }

  lemma {:induction false} ReplaceShown(s: string, p: string, r: string)
    requires p != "" && Shown(r) == Shown(p)
    ensures Shown(Replace(s, p, r)) == Shown(s)
  {
    hide Find, Shown;
    match Find(s, p)
    case None =>
    case Some(i) =>
      var a, b := s[..i], s[i + |p|..];
      ReplaceShown(b, p, r);
      ShownConcat(a + r, Replace(b, p, r));
      ShownConcat(a, r);
      ShownConcat(a + p, b);
      ShownConcat(a, p);
      assert s == a + p + b;
  }

  /** Defusing the control tags adds zero-width spaces and changes nothing else. */
  lemma {:induction false} NeutralizeShown(s: string, tags: seq<string>)
    requires forall i :: 0 <= i < |tags| ==> TagLike(tags[i])
    ensures (forall i :: 0 <= i < |tags| ==> tags[i] != "") && Shown(Neutralize(s, tags)) == Shown(s)
    decreases |tags|
  {
    hide Shown, Replace, Defused;
    if tags != [] {
      DefusedShown(tags[0]);
      ReplaceShown(s, tags[0], Defused(tags[0]));
      NeutralizeShown(Replace(s, tags[0], Defused(tags[0])), tags[1..]);
    }
  }

  // ----- blank lines

  /** Add the characters of `s` to `r`, but no third line break in a row. */
  function SqueezeOnto(r: string, s: string): string
    decreases |s|
  {
    if s == "" then r
    else if s[0] == '\n' && |r| >= 2 && r[|r| - 2..] == BLANK_LINE then SqueezeOnto(r, s[1..])
    else SqueezeOnto(r + [s[0]], s[1..])
  }

  lemma {:induction false} SqueezeConcat(r: string, a: string, b: string)
    ensures SqueezeOnto(r, a + b) == SqueezeOnto(SqueezeOnto(r, a), b)
    decreases |a|
  {
    if a == "" {
      assert a + b == b;
    } else {
      assert (a + b)[1..] == a[1..] + b;
      if a[0] == '\n' && |r| >= 2 && r[|r| - 2..] == BLANK_LINE {
        SqueezeConcat(r, a[1..], b);
      } else {
        SqueezeConcat(r + [a[0]], a[1..], b);
      }
    }
  }

  lemma SqueezeOne(r: string, c: char)
    ensures SqueezeOnto(r, [c]) == if c == '\n' && |r| >= 2 && r[|r| - 2..] == BLANK_LINE then r else r + [c]
  {
    assert [c][1..] == "";
  }

  /** After two line breaks the text ends in two, so a third adds nothing. */
  lemma SqueezeRun(r: string)
    ensures SqueezeOnto(r, BLANK_RUN) == SqueezeOnto(r, BLANK_LINE)
  {
    hide SqueezeOnto;
    var n := "\n";
    assert BLANK_LINE == n + n && BLANK_RUN == BLANK_LINE + n;
    SqueezeConcat(r, n, n);
    SqueezeConcat(r, BLANK_LINE, n);
    SqueezeOne(r, '\n');
    var one := SqueezeOnto(r, n);
    SqueezeOne(one, '\n');
    var two := SqueezeOnto(one, n);
    SqueezeOne(two, '\n');
    assert |two| >= 2 && two[|two| - 2..] == BLANK_LINE;
  }

  lemma {:induction false} SqueezeReplaced(r: string, s: string)
    ensures SqueezeOnto(r, Replace(s, BLANK_RUN, BLANK_LINE)) == SqueezeOnto(r, s)
    decreases |s|
  {
    hide SqueezeOnto, Find;
    match Find(s, BLANK_RUN)
    case None =>
    case Some(i) =>
      var a, b := s[..i], s[i + |BLANK_RUN|..];
      var t := Replace(b, BLANK_RUN, BLANK_LINE);
      assert s == a + BLANK_RUN + b;
      SqueezeConcat(r, a + BLANK_RUN, b);
      SqueezeConcat(r, a, BLANK_RUN);
      SqueezeConcat(r, a + BLANK_LINE, t);
      SqueezeConcat(r, a, BLANK_LINE);
      var x := SqueezeOnto(r, a);
      SqueezeRun(x);
      SqueezeReplaced(SqueezeOnto(x, BLANK_LINE), b);
  }

  lemma {:induction false} SqueezeFixed(r: string, s: string)
    requires !Occurs(r + s, BLANK_RUN)
    ensures SqueezeOnto(r, s) == r + s
    decreases |s|
  {
    hide Occurs;
    if s == "" {
      assert r + s == r;
    } else {
      assert r + s == (r + [s[0]]) + s[1..];
      if s[0] == '\n' && |r| >= 2 && r[|r| - 2..] == BLANK_LINE {
        assert (r + s)[|r| - 2..|r| + 1] == r[|r| - 2..] + [s[0]] == BLANK_RUN;
        OccursHere(r + s, BLANK_RUN, |r| - 2);
      } else {
        SqueezeFixed(r + [s[0]], s[1..]);
      }
    }
  }

  lemma OccursHere(s: string, p: string, i: nat)
    requires i + |p| <= |s| && s[i..i + |p|] == p
    ensures Occurs(s, p)
  {
    assert OccursAt(s, p, i);
  }

  /** Collapsing until no long run is left is one pass that skips the third and later line breaks of
      each run, and nothing else. */
  lemma {:induction false} CollapseIsOnePass(s: string)
    ensures CollapseBlankRuns(s) == SqueezeOnto("", s)
    decreases |s|
  {
    hide Replace, SqueezeOnto;
    if Contains(s, BLANK_RUN) {
      ReplaceShrinks(s, BLANK_RUN, BLANK_LINE);
      CollapseIsOnePass(Replace(s, BLANK_RUN, BLANK_LINE));
      SqueezeReplaced("", s);
    } else {
      assert "" + s == s;
      SqueezeFixed("", s);
    }
  }
}
