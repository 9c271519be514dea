/** `format_compact_summary`: from the compaction model's raw output to the text that seeds the next
    turn, with the drafting scratchpad gone and no control tag left live. */
module Summary {
  import opened Wrappers
  import opened Strings

  const ANALYSIS := "<analysis>"
  const ANALYSIS_END := "</analysis>"
  const SUMMARY := "<summary>"
  const SUMMARY_END := "</summary>"
  const CONTROL_TAGS: seq<string> := [
    SUMMARY_END, SUMMARY, ANALYSIS_END, ANALYSIS, "</summary_request>", "<summary_request>"]
  const BLANK_RUN := "\n\n\n"
  const BLANK_LINE := "\n\n"
  const ZERO_WIDTH_SPACE := '\U{200B}'

  // ----- tags

  /** `<`, then text without `<`, line breaks or zero-width spaces, then `>`. */
  predicate TagLike(t: string) {
    && |t| >= 2 && t[0] == '<' && t[|t| - 1] == '>'
    && forall k :: 0 < k < |t| ==> t[k] != '<' && t[k] != '\n' && t[k] != ZERO_WIDTH_SPACE
  }

  lemma ControlTagsAreTagLike()
    ensures forall i :: 0 <= i < |CONTROL_TAGS| ==> TagLike(CONTROL_TAGS[i])
    ensures TagLike(SUMMARY_END) && TagLike(SUMMARY) && TagLike(ANALYSIS_END) && TagLike(ANALYSIS)
  {
    assert TagLike(CONTROL_TAGS[0]);
    assert TagLike(CONTROL_TAGS[1]);
    assert TagLike(CONTROL_TAGS[2]);
    assert TagLike(CONTROL_TAGS[3]);
    assert TagLike(CONTROL_TAGS[4]);
    assert TagLike(CONTROL_TAGS[5]);
  }

  /** Distinct positions of tags never overlap. */
  lemma TagsDisjoint(s: string, p: string, q: string, i: nat, j: nat)
    requires TagLike(p) && TagLike(q)
    requires OccursAt(s, p, i) && OccursAt(s, q, j) && i < j
    ensures i + |p| <= j
  {
    OccurrencesDisjoint(s, p, q, i, j);
  }

  // ----- the leading analysis blocks

  /** No real text before the analysis block: it opens the output or the summary. */
  predicate IsLeading(s: string, start: nat)
    requires OccursAt(s, ANALYSIS, start)
  {
    match Find(s, SUMMARY)
    case Some(sp) =>
      TagStarts(s, sp, start);
      start < sp || Trim(s[sp + |SUMMARY|..start]) == ""
    case None => Trim(s[..start]) == ""
  }

  lemma TagStarts(s: string, sp: nat, start: nat)
    requires OccursAt(s, SUMMARY, sp) && OccursAt(s, ANALYSIS, start)
    ensures start < sp || sp + |SUMMARY| <= start
  {
    ControlTagsAreTagLike();
    OccurrenceChar(s, SUMMARY, sp, 1);
    OccurrenceChar(s, ANALYSIS, start, 1);
    if sp < start {
      TagsDisjoint(s, SUMMARY, ANALYSIS, sp, start);
    }
  }

  function DropAnalysis(s: string): string
    decreases |s|
  {
    match Find(s, ANALYSIS)
    case None => s
    case Some(start) =>
      if !IsLeading(s, start) then s
      else
        match FindFrom(s, ANALYSIS_END, start)
        case Some(end) => DropAnalysis(s[..start] + s[end + |ANALYSIS_END|..])
        case None =>
          match FindFrom(s, SUMMARY, start)
          case Some(to) => s[..start] + s[to..]
          case None => s[..start]
  }

  // ----- the summary block

  predicate IsListMark(c: char) {
    c in "#*-> \t"
  }

  function TrimMarks(s: string): (r: string)
    ensures |r| <= |s|
  {
    if s != "" && IsListMark(s[0]) then TrimMarks(s[1..]) else s
  }

  predicate StartsWithDigit(s: string) {
    s != "" && '0' <= s[0] <= '9'
  }

  function PeelAnalysis(s: string): string {
    if StartsWithDigit(TrimMarks(s)) then s
    else match RFind(s, ANALYSIS_END)
         case Some(pos) => TrimStart(s[pos + |ANALYSIS_END|..])
         case None => s
  }

  function DropOpening(s: string): string {
    if SUMMARY <= s then TrimStart(s[|SUMMARY|..]) else s
  }

  /** `strip_leading_scratchpad`. */
  function StripLeadingScratchpad(inner: string): string {
    DropOpening(PeelAnalysis(Trim(inner)))
  }

  function UnwrapSummary(s: string): string {
    match (Find(s, SUMMARY), RFind(s, SUMMARY_END))
    case (Some(start), Some(end)) =>
      if end > start then
        SummaryTagsApart(s, start, end);
        s[..start] + "Summary:\n" + StripLeadingScratchpad(Trim(s[start + |SUMMARY|..end])) + s[end + |SUMMARY_END|..]
      else s
    case _ => s
  }

  lemma SummaryTagsApart(s: string, start: nat, end: nat)
    requires OccursAt(s, SUMMARY, start) && OccursAt(s, SUMMARY_END, end) && start < end
    ensures start + |SUMMARY| <= end
  {
    ControlTagsAreTagLike();
    TagsDisjoint(s, SUMMARY, SUMMARY_END, start, end);
  }

  // ----- defusing what is left

  function Defused(tag: string): string
    requires tag != ""
  {
    ['<'] + [ZERO_WIDTH_SPACE] + tag[1..]
  }

  /** `neutralize_compaction_control_tokens`. */
  function Neutralize(s: string, tags: seq<string>): string
    requires forall i :: 0 <= i < |tags| ==> tags[i] != ""
    decreases |tags|
  {
    if tags == [] then s else Neutralize(Replace(s, tags[0], Defused(tags[0])), tags[1..])
  }

  function CollapseBlankRuns(s: string): string
    decreases |s|
  {
    if Contains(s, BLANK_RUN) then
      ReplaceShrinks(s, BLANK_RUN, BLANK_LINE);
      CollapseBlankRuns(Replace(s, BLANK_RUN, BLANK_LINE))
    else s
  }

  lemma {:induction false} ReplaceShrinks(s: string, p: string, r: string)
    requires |r| < |p|
    ensures |Replace(s, p, r)| <= |s|
    ensures Occurs(s, p) ==> |Replace(s, p, r)| < |s|
    decreases |s|
  {
    match Find(s, p)
    case None =>
    case Some(i) => ReplaceShrinks(s[i + |p|..], p, r);
  }

  function FormatCompactSummary(summary: string): string {
    ControlTagsAreTagLike();
    Trim(CollapseBlankRuns(Neutralize(UnwrapSummary(DropAnalysis(summary)), CONTROL_TAGS)))
  }

  // ----- what replacing cannot create

  lemma LacksSnoc(u: string, a: char, t: string)
    requires !Occurs(u, t) && t != "" && t[|t| - 1] != a
    ensures !Occurs(u + [a], t)
  {
    forall i: nat ensures !OccursAt(u + [a], t, i) {
      assert (u + [a])[..|u|] == u;
      OccursInSlice(u + [a], t, 0, |u|, i);
      if OccursAt(u + [a], t, i) {
        OccurrenceChar(u + [a], t, i, |t| - 1);
      }
    }
  }

  lemma {:induction false} LacksPrepend(b: string, v: string, t: string)
    requires !Occurs(v, t) && t != "" && forall k :: 0 <= k < |b| ==> b[k] != t[0]
    ensures !Occurs(b + v, t)
  {
    if b == "" {
      assert b + v == v;
    } else {
      LacksPrepend(b[1..], v, t);
      var s := b + v;
      assert s[1..|s|] == b[1..] + v;
      forall i: nat ensures !OccursAt(s, t, i) {
        if i > 0 {
          OccursInSlice(s, t, 1, |s|, i - 1);
        } else if |t| <= |s| {
          assert s[0..|t|][0] == s[0] == b[0];
        }
      }
    }
  }

  /** A text without the separator `z`, that does not end like `a` nor start inside `b`, occurs in
      `u + a z b + v` only if it occurs in `u` or in `v`. */
  lemma SandwichLacks(u: string, a: char, z: char, b: string, v: string, t: string)
    requires !Occurs(u, t) && !Occurs(v, t)
    requires t != "" && z !in t && t[|t| - 1] != a && forall k :: 0 <= k < |b| ==> b[k] != t[0]
    ensures !Occurs(u + ([a] + [z] + b) + v, t)
  {
    hide OccursAt;
    LacksSnoc(u, a, t);
    LacksPrepend(b, v, t);
    assert u + ([a] + [z] + b) + v == (u + [a]) + [z] + (b + v);
    forall i: nat ensures !OccursAt(u + ([a] + [z] + b) + v, t, i) {
      NoStraddle(u + [a], z, b + v, t, i);
    }
  }

  /** Replacing `p` by `a z b` removes `p` and creates no `t` that was not there. */
  lemma {:induction false} ReplaceLacks(s: string, p: string, a: char, z: char, b: string, t: string)
    requires p != "" && (t == p || !Occurs(s, t))
    requires t != "" && z !in t && t[|t| - 1] != a && forall k :: 0 <= k < |b| ==> b[k] != t[0]
    ensures !Occurs(Replace(s, p, [a] + [z] + b), t)
    decreases |s|
  {
    hide OccursAt;
    match Find(s, p)
    case None =>
    case Some(i) =>
      OccurrenceInside(s, p, i);
      var rest := s[i + |p|..];
      if t == p {
        NoneBefore(s, p, i);
      } else {
        SliceLacks(s, t, 0, i);
        SliceLacks(s, t, i + |p|, |s|);
      }
      assert s[0..i] == s[..i] && s[i + |p|..|s|] == rest;
      ReplaceLacks(rest, p, a, z, b, t);
      SandwichLacks(s[..i], a, z, b, Replace(rest, p, [a] + [z] + b), t);
  }

  lemma NoneBefore(s: string, p: string, i: nat)
    requires i <= |s| && p != "" && forall j: nat :: j < i ==> !OccursAt(s, p, j)
    ensures !Occurs(s[..i], p)
  {
    assert s[0..i] == s[..i];
    forall j: nat ensures !OccursAt(s[..i], p, j) {
      OccursInSlice(s, p, 0, i, j);
    }
  }

  // ----- the result is clean

  ghost predicate LacksAll(s: string, tags: seq<string>) {
    forall i :: 0 <= i < |tags| ==> !Occurs(s, tags[i])
  }

  lemma TagWithout(t: string)
    requires TagLike(t)
    ensures '\n' !in t && ZERO_WIDTH_SPACE !in t
  {
  }

  lemma NeutralizeOne(s: string, p: string, t: string)
    requires TagLike(p) && TagLike(t) && (t == p || !Occurs(s, t))
    ensures !Occurs(Replace(s, p, Defused(p)), t)
  {
    TagWithout(t);
    forall k | 0 <= k < |p[1..]| ensures p[1..][k] != t[0] {
      assert p[1..][k] == p[k + 1];
    }
    ReplaceLacks(s, p, '<', ZERO_WIDTH_SPACE, p[1..], t);
  }

  lemma {:induction false} NeutralizeLacks(s: string, tags: seq<string>, t: string)
    requires TagLike(t) && forall i :: 0 <= i < |tags| ==> TagLike(tags[i]) && tags[i] != ""
    requires !Occurs(s, t) || t in tags
    ensures !Occurs(Neutralize(s, tags), t)
    decreases |tags|
  {
    hide Replace, Occurs;
    if tags != [] {
      var s' := Replace(s, tags[0], Defused(tags[0]));
      if t == tags[0] || !Occurs(s, t) {
        NeutralizeOne(s, tags[0], t);
      }
      NeutralizeLacks(s', tags[1..], t);
    }
  }

  lemma {:induction false} NeutralizeFixed(s: string, tags: seq<string>)
    requires LacksAll(s, tags) && forall i :: 0 <= i < |tags| ==> tags[i] != ""
    ensures Neutralize(s, tags) == s
    decreases |tags|
  {
    if tags != [] { NeutralizeFixed(s, tags[1..]); }
  }

  lemma {:induction false} CollapseLacks(s: string, t: string)
    requires TagLike(t) && !Occurs(s, t)
    ensures !Occurs(CollapseBlankRuns(s), t)
    decreases |s|
  {
    if Contains(s, BLANK_RUN) {
      TagWithout(t);
      ReplaceShrinks(s, BLANK_RUN, BLANK_LINE);
      ReplaceLacks(s, BLANK_RUN, '\n', '\n', "", t);
      assert ['\n'] + ['\n'] + "" == BLANK_LINE;
      CollapseLacks(Replace(s, BLANK_RUN, BLANK_LINE), t);
    }
  }

  lemma {:induction false} CollapseEnds(s: string)
    ensures !Occurs(CollapseBlankRuns(s), BLANK_RUN)
    ensures !Occurs(s, BLANK_RUN) ==> CollapseBlankRuns(s) == s
    decreases |s|
  {
    if Contains(s, BLANK_RUN) {
      ReplaceShrinks(s, BLANK_RUN, BLANK_LINE);
      CollapseEnds(Replace(s, BLANK_RUN, BLANK_LINE));
    }
  }

  /** No live control tag, no run of blank lines, no outer whitespace. */
  ghost predicate Clean(s: string) {
    LacksAll(s, CONTROL_TAGS) && !Occurs(s, BLANK_RUN) && Trimmed(s)
  }

  /** On every input the result is clean, whatever tags the input holds and however they overlap. */
  lemma FormatIsClean(summary: string)
    ensures Clean(FormatCompactSummary(summary))
  {
    hide Neutralize, CollapseBlankRuns, UnwrapSummary, DropAnalysis, Trim, Occurs;
    ControlTagsAreTagLike();
    var a := UnwrapSummary(DropAnalysis(summary));
    var b := Neutralize(a, CONTROL_TAGS);
    var c := CollapseBlankRuns(b);
    forall i | 0 <= i < |CONTROL_TAGS| ensures !Occurs(Trim(c), CONTROL_TAGS[i]) {
      NeutralizeLacks(a, CONTROL_TAGS, CONTROL_TAGS[i]);
      CollapseLacks(b, CONTROL_TAGS[i]);
      TrimLacks(c, CONTROL_TAGS[i]);
    }
    CollapseEnds(b);
    TrimLacks(c, BLANK_RUN);
  }

  /** Clean text is left alone, and only clean text is; so formatting is idempotent. */
  lemma FormatFixesExactlyClean(summary: string)
    ensures FormatCompactSummary(summary) == summary <==> Clean(summary)
    ensures FormatCompactSummary(FormatCompactSummary(summary)) == FormatCompactSummary(summary)
  {
    FormatIsClean(summary);
    if Clean(summary) {
      CleanIsFixed(summary);
    }
    CleanIsFixed(FormatCompactSummary(summary));
  }

  lemma CleanIsFixed(s: string)
    requires Clean(s)
    ensures FormatCompactSummary(s) == s
  {
    hide Neutralize, CollapseBlankRuns, Trim;
    ControlTagsAreTagLike();
    assert CONTROL_TAGS[3] == ANALYSIS && CONTROL_TAGS[1] == SUMMARY;
    assert !Occurs(s, ANALYSIS) && !Occurs(s, SUMMARY);
    NeutralizeFixed(s, CONTROL_TAGS);
    CollapseEnds(s);
  }

  // ----- the documented case: a drafted analysis, then the summary

  /** In `pre + body + post` between two tags, a tag occurs at either end or inside the body. */
  lemma TagInWrapped(pre: string, body: string, post: string, t: string, j: nat)
    requires TagLike(pre) && TagLike(post) && TagLike(t)
    requires OccursAt(pre + body + post, t, j)
    ensures j == 0 || j == |pre| + |body| || (|pre| <= j && OccursAt(body, t, j - |pre|))
  {
    var s, e := pre + body + post, |pre| + |body|;
    assert OccursAt(s, pre, 0) && OccursAt(s, post, e);
    forall k | e < k < |s| ensures s[k] != '<' {
      assert s[k] == post[k - e];
    }
    if 0 < j {
      TagsDisjoint(s, pre, t, 0, j);
      if j < e {
        TagsDisjoint(s, t, post, j, e);
        assert s[|pre|..e] == body;
        OccursInSlice(s, t, |pre|, e, j - |pre|);
      } else {
        OccurrenceChar(s, t, j, 0);
      }
    }
  }

  /** Two of the four tags at one position are the same tag. */
  lemma SameTag(s: string, p: string, q: string, i: nat)
    requires p in [ANALYSIS, ANALYSIS_END, SUMMARY, SUMMARY_END] && q in [ANALYSIS, ANALYSIS_END, SUMMARY, SUMMARY_END]
    requires OccursAt(s, p, i) && OccursAt(s, q, i)
    ensures p == q
  {
    hide OccursAt;
    OccurrenceChar(s, p, i, 1);
    OccurrenceChar(s, q, i, 1);
    OccurrenceChar(s, p, i, 2);
    OccurrenceChar(s, q, i, 2);
  }

  lemma TagsAtEnds(pre: string, body: string, post: string)
    ensures OccursAt(pre + body + post, pre, 0) && OccursAt(pre + body + post, post, |pre| + |body|)
  {
    var s, e := pre + body + post, |pre| + |body|;
    assert s[0..|pre|] == pre && s[e..e + |post|] == post;
  }

  /** The draft goes, up to the end of its block, whatever it quotes. */
  lemma DraftDropped(draft: string, rest: string)
    requires !Occurs(draft, ANALYSIS_END) && Occurs(rest, SUMMARY)
    ensures DropAnalysis(ANALYSIS + draft + ANALYSIS_END + rest) == DropAnalysis(rest)
  {
    hide OccursAt, Trim;
    ControlTagsAreTagLike();
    var head := ANALYSIS + draft + ANALYSIS_END;
    var s, e := head + rest, |ANALYSIS| + |draft|;
    TagsAtEnds(ANALYSIS, draft, ANALYSIS_END);
    OccursInHead(head, rest, ANALYSIS, 0);
    OccursInHead(head, rest, ANALYSIS_END, e);
    assert Find(s, ANALYSIS) == Some(0);
    forall j: nat | j < e ensures !OccursAt(s, ANALYSIS_END, j) {
      if OccursAt(s, ANALYSIS_END, j) {
        TagsDisjoint(s, ANALYSIS_END, ANALYSIS_END, j, e);
        OccursInHead(head, rest, ANALYSIS_END, j);
        TagInWrapped(ANALYSIS, draft, ANALYSIS_END, ANALYSIS_END, j);
        if j == 0 {
          SameTag(s, ANALYSIS, ANALYSIS_END, 0);
        }
      }
    }
    FirstOccurrence(s, ANALYSIS_END, 0, e);
    OccursInTail(head, rest, SUMMARY);
    if Find(s, SUMMARY) == Some(0) {
      SameTag(s, SUMMARY, ANALYSIS, 0);
    }
    assert IsLeading(s, 0);
    assert s[e + |ANALYSIS_END|..] == rest && s[..0] + rest == rest;
  }

  lemma OccursInHead(head: string, rest: string, t: string, i: nat)
    requires i + |t| <= |head|
    ensures OccursAt(head + rest, t, i) <==> OccursAt(head, t, i)
  {
    assert (head + rest)[0..|head|] == head;
    OccursInSlice(head + rest, t, 0, |head|, i);
  }

  lemma OccursInTail(head: string, rest: string, t: string)
    requires Occurs(rest, t)
    ensures Occurs(head + rest, t)
  {
    var i: nat :| OccursAt(rest, t, i);
    var s := head + rest;
    assert s[|head|..|s|] == rest;
    OccursInSlice(s, t, |head|, |s|, i);
  }

  lemma CleanBodyTags(body: string)
    requires Clean(body)
    ensures !Occurs(body, ANALYSIS) && !Occurs(body, ANALYSIS_END) && !Occurs(body, SUMMARY) && !Occurs(body, SUMMARY_END)
  {
    hide Occurs;
    assert CONTROL_TAGS[0] == SUMMARY_END && CONTROL_TAGS[1] == SUMMARY;
    assert CONTROL_TAGS[2] == ANALYSIS_END && CONTROL_TAGS[3] == ANALYSIS;
  }

  lemma ScratchpadKeepsClean(body: string)
    requires Trimmed(body) && !Occurs(body, ANALYSIS_END) && !Occurs(body, SUMMARY)
    ensures StripLeadingScratchpad(body) == body
  {
    hide Trim, PeelAnalysis, DropOpening, Occurs;
    assert Trim(body) == body;
    NothingPeeled(body);
    NothingOpened(body);
  }

  lemma NothingPeeled(s: string)
    requires !Occurs(s, ANALYSIS_END)
    ensures PeelAnalysis(s) == s
  {
    hide TrimMarks, StartsWithDigit, RFind, Occurs;
  }

  lemma NothingOpened(s: string)
    requires !Occurs(s, SUMMARY)
    ensures DropOpening(s) == s
  {
    hide Occurs, TrimStart;
    NotPrefix(s, SUMMARY);
  }

  lemma NotPrefix(s: string, p: string)
    requires !Occurs(s, p)
    ensures !(p <= s)
  {
    assert !OccursAt(s, p, 0);
  }

  lemma BlockHasNoAnalysis(body: string)
    requires !Occurs(body, ANALYSIS)
    ensures DropAnalysis(SUMMARY + body + SUMMARY_END) == SUMMARY + body + SUMMARY_END
  {
    hide OccursAt, Trim, IsLeading, DropAnalysis;
    ControlTagsAreTagLike();
    var s := SUMMARY + body + SUMMARY_END;
    TagsAtEnds(SUMMARY, body, SUMMARY_END);
    forall j: nat ensures !OccursAt(s, ANALYSIS, j) {
      if OccursAt(s, ANALYSIS, j) {
        TagInWrapped(SUMMARY, body, SUMMARY_END, ANALYSIS, j);
        SameTag(s, ANALYSIS, if j == 0 then SUMMARY else SUMMARY_END, j);
      }
    }
    NoAnalysisKept(s);
  }

  lemma NoAnalysisKept(s: string)
    requires !Occurs(s, ANALYSIS)
    ensures DropAnalysis(s) == s
  {
  }

  lemma BlockEnds(body: string)
    ensures var s := SUMMARY + body + SUMMARY_END;
            Find(s, SUMMARY) == Some(0) && RFind(s, SUMMARY_END) == Some(|SUMMARY| + |body|)
  {
    hide OccursAt, Find, RFind;
    ControlTagsAreTagLike();
    var s, e := SUMMARY + body + SUMMARY_END, |SUMMARY| + |body|;
    TagsAtEnds(SUMMARY, body, SUMMARY_END);
    forall j: nat | e < j ensures !OccursAt(s, SUMMARY_END, j) {
      if OccursAt(s, SUMMARY_END, j) {
        TagInWrapped(SUMMARY, body, SUMMARY_END, SUMMARY_END, j);
        OccurrenceInside(body, SUMMARY_END, j - |SUMMARY|);
      }
    }
  }

  /** Unwrapping the block leaves the clean body under its heading. */
  lemma CleanBlockUnwrapped(body: string)
    requires Trimmed(body) && !Occurs(body, ANALYSIS_END) && !Occurs(body, SUMMARY)
    ensures UnwrapSummary(SUMMARY + body + SUMMARY_END) == "Summary:\n" + body
  {
    hide OccursAt, Occurs, StripLeadingScratchpad, Trim, Find, RFind, UnwrapSummary;
    var e := |SUMMARY| + |body|;
    BlockEnds(body);
    UnwrapIs(SUMMARY + body + SUMMARY_END, 0, e);
    Around(SUMMARY, body, SUMMARY_END);
    ScratchpadKeepsClean(body);
    assert Trim(body) == body;
    Headed("Summary:\n", body);
  }

  lemma UnwrapIs(s: string, start: nat, end: nat)
    requires Find(s, SUMMARY) == Some(start) && RFind(s, SUMMARY_END) == Some(end) && start < end
    ensures start + |SUMMARY| <= end && end + |SUMMARY_END| <= |s|
    ensures UnwrapSummary(s) == s[..start] + "Summary:\n" + StripLeadingScratchpad(Trim(s[start + |SUMMARY|..end])) + s[end + |SUMMARY_END|..]
  {
    hide StripLeadingScratchpad, Trim, Find, RFind;
    SummaryTagsApart(s, start, end);
  }

  lemma Around(a: string, b: string, c: string)
    ensures (a + b + c)[..0] == "" && (a + b + c)[|a|..|a| + |b|] == b && (a + b + c)[|a| + |b| + |c|..] == ""
  {
  }

  lemma Headed(heading: string, body: string)
    ensures "" + heading + body + "" == heading + body
  {
  }

  lemma HeadedBodyClean(body: string)
    requires Clean(body) && body != ""
    ensures Clean("Summary:\n" + body)
  {
    hide Occurs;
    ControlTagsAreTagLike();
    var head := "Summary:\n";
    forall i | 0 <= i < |CONTROL_TAGS| ensures !Occurs(head + body, CONTROL_TAGS[i]) {
      LacksPrepend(head, body, CONTROL_TAGS[i]);
    }
    HeadedBodyLines(body);
  }

  lemma HeadedBodyLines(body: string)
    requires !Occurs(body, BLANK_RUN) && Trimmed(body) && body != ""
    ensures !Occurs("Summary:\n" + body, BLANK_RUN) && Trimmed("Summary:\n" + body)
  {
    var s := ['\n'] + body;
    assert s[1..|s|] == body;
    forall i: nat ensures !OccursAt(s, BLANK_RUN, i) {
      if i > 0 {
        OccursInSlice(s, BLANK_RUN, 1, |s|, i - 1);
      } else if |BLANK_RUN| <= |s| {
        assert s[0..|BLANK_RUN|][1] == body[0];
      }
    }
    LacksPrepend("Summary:", s, BLANK_RUN);
    assert "Summary:\n" + body == "Summary:" + s;
  }

  /** The documented use, for every draft and every clean summary: the draft is gone and the summary
      stands under its heading, word for word. */
  lemma DraftDroppedSummaryKept(draft: string, body: string)
    requires !Occurs(draft, ANALYSIS_END) && Clean(body) && body != ""
    ensures FormatCompactSummary(ANALYSIS + draft + ANALYSIS_END + (SUMMARY + body + SUMMARY_END)) == "Summary:\n" + body
  {
    hide OccursAt, DropAnalysis, UnwrapSummary, Neutralize, CollapseBlankRuns, Trim;
    var block := SUMMARY + body + SUMMARY_END;
    CleanBodyTags(body);
    TagsAtEnds(SUMMARY, body, SUMMARY_END);
    DraftDropped(draft, block);
    BlockHasNoAnalysis(body);
    CleanBlockUnwrapped(body);
    HeadedBodyClean(body);
    CleanIsFixedAtEnd("Summary:\n" + body);
  }

  /** The last three steps leave clean text alone. */
  lemma CleanIsFixedAtEnd(s: string)
    requires Clean(s)
    ensures (forall i :: 0 <= i < |CONTROL_TAGS| ==> CONTROL_TAGS[i] != "") && Trim(CollapseBlankRuns(Neutralize(s, CONTROL_TAGS))) == s
  {
    hide Neutralize, CollapseBlankRuns, Trim;
    ControlTagsAreTagLike();
    NeutralizeFixed(s, CONTROL_TAGS);
    CollapseEnds(s);
  }

  // ----- the method

  method DropAnalysisBlocks(summary: string) returns (r: string)
    ensures r == DropAnalysis(summary)
  {
    hide Find, FindFrom, IsLeading;
    r := summary;
    var start := Find(r, ANALYSIS);
    while start.Some?
      invariant start == Find(r, ANALYSIS)
      invariant DropAnalysis(r) == DropAnalysis(summary)
      decreases |r|
    {
      if !IsLeading(r, start.value) {
        break;
      }
      match FindFrom(r, ANALYSIS_END, start.value) {
        case Some(end) =>
          r := r[..start.value] + r[end + |ANALYSIS_END|..];
        case None =>
          var to := FindFrom(r, SUMMARY, start.value);
          return r[..start.value] + r[if to.Some? then to.value else |r|..];
      }
      start := Find(r, ANALYSIS);
    }
  }

  method FormatSummary(summary: string) returns (r: string)
    ensures r == FormatCompactSummary(summary)
  {
    hide DropAnalysis, UnwrapSummary, Trim;
    r := DropAnalysisBlocks(summary);
    r := UnwrapSummary(r);
    ControlTagsAreTagLike();
    r := Neutralize(r, CONTROL_TAGS);
    while Contains(r, BLANK_RUN)
      invariant CollapseBlankRuns(r) == CollapseBlankRuns(Neutralize(UnwrapSummary(DropAnalysis(summary)), CONTROL_TAGS))
      decreases |r|
    {
      ReplaceShrinks(r, BLANK_RUN, BLANK_LINE);
      r := Replace(r, BLANK_RUN, BLANK_LINE);
    }
    r := Trim(r);
  }
}
