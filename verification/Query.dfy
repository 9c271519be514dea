/** The text of user turns: metadata tags, the `<user_query>` wrapper, and which turns are real. */
module Query {
  import opened Wrappers
  import opened Conversation
  import opened Strings

  // ----- tag blocks

  function Open(tag: string): string {
    "<" + tag + ">"
  }

  function Close(tag: string): string {
    "</" + tag + ">"
  }

  datatype Range = Range(start: nat, end: nat)

  /** `tag_block_range`: the first `<tag>…</tag>` block, tags included. */
  function TagBlockRange(text: string, tag: string): (r: Option<Range>)
    ensures r.Some? ==>
              && r.value.start < r.value.end <= |text|
              && OccursAt(text, Open(tag), r.value.start)
              && r.value.start + |Close(tag)| <= r.value.end
              && OccursAt(text, Close(tag), r.value.end - |Close(tag)|)
  {
    match Find(text, Open(tag))
    case None => None
    case Some(start) =>
      match FindFrom(text, Close(tag), start)
      case None => None
      case Some(close) => Some(Range(start, close + |Close(tag)|))
  }

  /** The block found is the first: no opening tag before it, and no closing tag inside it; none is
      found exactly when no closing tag follows the first opening tag. */
  lemma TagBlockIsFirst(text: string, tag: string)
    ensures var r := TagBlockRange(text, tag);
            && (r.None? <==> forall i: nat, j: nat :: FirstOpen(text, tag, i) && i <= j ==> !OccursAt(text, Close(tag), j))
            && (r.Some? ==>
                  && FirstOpen(text, tag, r.value.start)
                  && OccursAt(text, Close(tag), r.value.end - |Close(tag)|)
                  && forall j: nat :: r.value.start <= j < r.value.end - |Close(tag)| ==> !OccursAt(text, Close(tag), j))
  {
    hide Open, Close, OccursAt;
    match Find(text, Open(tag)) {
      case None =>
      case Some(start) =>
        assert FirstOpen(text, tag, start);
        assert forall i: nat :: FirstOpen(text, tag, i) ==> i == start;
    }
  }

  ghost predicate FirstOpen(text: string, tag: string, i: nat) {
    OccursAt(text, Open(tag), i) && forall j: nat :: j < i ==> !OccursAt(text, Open(tag), j)
  }

  /** `extract_tag_block`. */
  function TagBlock(text: string, tag: string): Option<string> {
    match TagBlockRange(text, tag)
    case None => None
    case Some(r) => Some(text[r.start..r.end])
  }

  const SYSTEM_TAGS: seq<string> := [
    "user_info", "project_layout", "git_status", "fork-context", "system-reminder", "agent-memory",
    "system_reminder", "background_context", "command-name", "command-message", "command-args"]

  /** Remove every block of one tag. */
  function StripTag(text: string, tag: string): (r: string)
    ensures |r| <= |text|
    ensures r == text <==> TagBlockRange(text, tag).None?
    ensures TagBlockRange(text, tag).Some? ==> |r| < |text|
    ensures TagBlockRange(r, tag).None?
    decreases |text|
  {
    match TagBlockRange(text, tag)
    case None => text
    case Some(range) => StripTag(text[..range.start] + text[range.end..], tag)
  }

  function StripTags(text: string, tags: seq<string>): (r: string)
    ensures |r| <= |text|
    decreases |tags|
  {
    if tags == [] then text else StripTags(StripTag(text, tags[0]), tags[1..])
  }

  predicate FreeOf(text: string, tags: seq<string>) {
    forall tag :: tag in tags ==> TagBlockRange(text, tag).None?
  }

  lemma {:induction false} StripTagsFixed(text: string, tags: seq<string>)
    ensures FreeOf(text, tags) <==> StripTags(text, tags) == text
    ensures !FreeOf(text, tags) ==> |StripTags(text, tags)| < |text|
    decreases |tags|
  {
    hide TagBlockRange;
    if tags != [] {
      StripTagsFixed(StripTag(text, tags[0]), tags[1..]);
      assert tags == [tags[0]] + tags[1..];
    }
  }

  method RemoveBlocks(text: string, tag: string) returns (r: string)
    ensures r == StripTag(text, tag)
  {
    r := text;
    var range := TagBlockRange(r, tag);
    while range.Some?
      invariant range == TagBlockRange(r, tag)
      invariant StripTag(r, tag) == StripTag(text, tag)
      decreases |r|
    {
      r := r[..range.value.start] + r[range.value.end..];
      range := TagBlockRange(r, tag);
    }
  }

  /** `strip_system_tags`, for a list of tags. */
  method StripSystemTags(text: string, tags: seq<string>) returns (r: string)
    ensures r == Trim(StripTags(text, tags))
  {
    r := text;
    for i := 0 to |tags|
      invariant StripTags(r, tags[i..]) == StripTags(text, tags)
    {
      assert tags[i..][1..] == tags[i + 1..];
      r := RemoveBlocks(r, tags[i]);
    }
    r := Trim(r);
  }

  // ----- the query of a turn

  const QUERY_OPEN := "<user_query>"
  const QUERY_CLOSE := "</user_query>"

  function Stripped(text: string): string {
    Trim(StripTags(text, SYSTEM_TAGS))
  }

  /** The trimmed text between the first `open` and the first `close` after it. */
  function Between(text: string, open: string, close: string): Option<string> {
    match Find(text, open)
    case None => None
    case Some(start) =>
      match FindFrom(text, close, start + |open|)
      case None => None
      case Some(end) => Some(Trim(text[start + |open|..end]))
  }

  /** `extract_user_query`. */
  function ExtractUserQuery(text: string): string {
    match Between(text, QUERY_OPEN, QUERY_CLOSE)
    case Some(inner) => Stripped(inner)
    case None => Stripped(text)
  }

  function Wrap(q: string, open: string, close: string): string {
    open + ['\n'] + (q + ['\n'] + close)
  }

  /** `wrap_user_query`. */
  function WrapUserQuery(q: string): string {
    Wrap(q, QUERY_OPEN, QUERY_CLOSE)
  }

  /** A query that survives being wrapped and extracted again. */
  predicate Carriable(q: string) {
    Trimmed(q) && !Contains(q, QUERY_CLOSE) && FreeOf(q, SYSTEM_TAGS)
  }

  /** Position of the first closing tag in the wrapped query, or of the wrapper's own. */
  function FirstClose(q: string, close: string): nat {
    match Find(q, close) case Some(k) => k case None => |q| + 1
  }

  lemma OccursInItself(p: string, k: nat)
    requires p != ""
    ensures OccursAt(p, p, k) <==> k == 0
  {
  }

  /** Where text wrapped in newlines and a closing tag ends for a search from its opening. */
  lemma WrappedEnd(before: string, q: string, close: string)
    requires close != "" && '\n' !in close
    ensures FindFrom(before + ['\n'] + (q + ['\n'] + close), close, |before|) == Some(|before| + 1 + FirstClose(q, close))
  {
    hide OccursAt, FindFrom;
    var after := q + ['\n'] + close;
    var text, at := before + ['\n'] + after, |before|;
    forall j: nat | at <= j
      ensures OccursAt(text, close, j) <==> at + 1 <= j && (OccursAt(q, close, j - at - 1) || j == at + 1 + |q| + 1)
    {
      NoStraddle(before, '\n', after, close, j);
      OccursNowhereBeyond(before, close, j);
      if at + 1 <= j {
        NoStraddle(q, '\n', close, close, j - at - 1);
        if |q| < j - at - 1 {
          OccursInItself(close, j - at - 1 - |q| - 1);
        }
      }
    }
    if Find(q, close).Some? {
      OccurrenceInside(q, close, Find(q, close).value);
    }
    FirstOccurrence(text, close, at, at + 1 + FirstClose(q, close));
  }

  lemma OccursNowhereBeyond(s: string, p: string, j: nat)
    requires p != "" && |s| <= j
    ensures !OccursAt(s, p, j)
  {
  }

  /** What lies between the tags of a wrapped query, up to the first closing tag. */
  function Inner(q: string, close: string): string {
    if Contains(q, close) then ['\n'] + q[..Find(q, close).value] else ['\n'] + q + ['\n']
  }

  lemma InnerFits(q: string, close: string)
    ensures |Inner(q, close)| == 1 + FirstClose(q, close)
    ensures Inner(q, close) <= ['\n'] + q + ['\n']
  {
  }

  lemma InnerTrims(q: string, close: string)
    ensures Trim(Inner(q, close)) ==
            if Contains(q, close) then Trim(['\n'] + q[..FirstClose(q, close)]) else Trim(q)
  {
    hide Trim, Find, Occurs;
    TrimPadded(q, '\n', '\n');
  }

  lemma WrappedInner(before: string, q: string, close: string)
    ensures var text := before + ['\n'] + (q + ['\n'] + close);
            text[|before|..|before| + 1 + FirstClose(q, close)] == Inner(q, close)
  {
    hide Inner, FirstClose;
    InnerFits(q, close);
    var x := Inner(q, close);
    var rest := (['\n'] + q + ['\n'])[|x|..] + close;
    assert before + ['\n'] + (q + ['\n'] + close) == before + x + rest;
    Middle(before, x, rest);
  }

  lemma Middle(a: string, b: string, c: string)
    ensures (a + b + c)[|a|..|a| + |b|] == b
  {
  }

  lemma BetweenIs(text: string, open: string, close: string, start: nat, end: nat, inner: string)
    requires Find(text, open) == Some(start)
    requires FindFrom(text, close, start + |open|) == Some(end)
    requires start + |open| <= end <= |text| && text[start + |open|..end] == inner
    ensures Between(text, open, close) == Some(Trim(inner))
  {
    hide Trim, Find, FindFrom, Occurs;
  }

  lemma BetweenWrapped(pre: string, q: string, open: string, close: string)
    requires close != "" && '\n' !in close
    requires Find(pre + Wrap(q, open, close), open) == Some(|pre|)
    ensures Between(pre + Wrap(q, open, close), open, close) ==
            Some(if Contains(q, close) then Trim(['\n'] + q[..FirstClose(q, close)]) else Trim(q))
  {
    hide Between, Wrap, Trim, Find, FirstClose, Contains, Inner;
    WrapAppends(pre, q, open, close);
    BetweenAt(pre + open, q, open, close, |pre|);
    InnerTrims(q, close);
  }

  lemma BetweenAt(o: string, q: string, open: string, close: string, start: nat)
    requires close != "" && '\n' !in close && |o| == start + |open|
    requires Find(o + ['\n'] + (q + ['\n'] + close), open) == Some(start)
    ensures Between(o + ['\n'] + (q + ['\n'] + close), open, close) == Some(Trim(Inner(q, close)))
  {
    hide Between, Trim, Find, FindFrom, FirstClose, OccursAt, Occurs, Contains, Inner;
    var text, end := o + ['\n'] + (q + ['\n'] + close), |o| + 1 + FirstClose(q, close);
    InnerFits(q, close);
    WrappedEnd(o, q, close);
    WrappedInner(o, q, close);
    assert |Inner(q, close)| <= |q| + 2;
    BetweenIs(text, open, close, start, end, Inner(q, close));
  }

  lemma WrapAppends(pre: string, q: string, open: string, close: string)
    ensures pre + Wrap(q, open, close) == (pre + open) + ['\n'] + (q + ['\n'] + close)
  {
  }

  /** Extracting from any text that ends with the wrapped query and opens no wrapper before it. */
  lemma ExtractWrapped(pre: string, q: string)
    requires Find(pre + WrapUserQuery(q), QUERY_OPEN) == Some(|pre|)
    ensures ExtractUserQuery(pre + WrapUserQuery(q)) ==
            Stripped(if Contains(q, QUERY_CLOSE) then Trim(['\n'] + q[..FirstClose(q, QUERY_CLOSE)]) else Trim(q))
  {
    hide Between, Wrap, Stripped, Trim, Find, FirstClose;
    BetweenWrapped(pre, q, QUERY_OPEN, QUERY_CLOSE);
  }

  /** Exactly the carriable queries come back unchanged: trimmed, without the closing tag, and
      without a complete metadata block. */
  lemma ExtractReturnsExactlyCarriable(pre: string, q: string)
    requires Find(pre + WrapUserQuery(q), QUERY_OPEN) == Some(|pre|)
    ensures ExtractUserQuery(pre + WrapUserQuery(q)) == q <==> Carriable(q)
  {
    ExtractWrapped(pre, q);
    if Contains(q, QUERY_CLOSE) {
      var k := FirstClose(q, QUERY_CLOSE);
      TrimStartCons('\n', q[..k]);
      assert |Trim(['\n'] + q[..k])| <= |TrimStart(q[..k])| <= k < |q|;
      StrippedShrinks(Trim(['\n'] + q[..k]));
    } else {
      StrippedFixed(q);
    }
  }

  lemma StrippedShrinks(s: string)
    ensures |Stripped(s)| <= |s|
  {
  }

  lemma StrippedFixed(q: string)
    ensures Stripped(Trim(q)) == q <==> Trimmed(q) && FreeOf(q, SYSTEM_TAGS)
  {
    hide StripTags, TrimStart, TrimEnd, SYSTEM_TAGS;
    StripTagsFixed(Trim(q), SYSTEM_TAGS);
    if Stripped(Trim(q)) == q {
      assert Trimmed(q) && Trim(q) == q;
      assert |q| <= |StripTags(q, SYSTEM_TAGS)|;
    }
  }

  /** Without a prefix the wrapper is the first thing found. */
  lemma WrapOpensFirst(q: string)
    ensures Find("" + WrapUserQuery(q), QUERY_OPEN) == Some(0)
  {
    assert "" + WrapUserQuery(q) == WrapUserQuery(q);
    assert WrapUserQuery(q)[..|QUERY_OPEN|] == QUERY_OPEN;
  }

  /** A query typed as plain text that mentions the closing tag is cut by the round trip. */
  lemma PlainClosingTagIsCut(t: string)
    requires Trimmed(t) && FreeOf(t, SYSTEM_TAGS)
    requires Contains(t, QUERY_CLOSE) && !Contains(t, QUERY_OPEN)
    ensures ExtractUserQuery(t) == t
    ensures ExtractUserQuery(WrapUserQuery(ExtractUserQuery(t))) != t
  {
    assert Stripped(t) == t by { StrippedFixed(t); }
    assert ExtractUserQuery(t) == t by { hide Stripped; }
    WrapOpensFirst(t);
    ExtractReturnsExactlyCarriable("", t);
    assert "" + WrapUserQuery(t) == WrapUserQuery(t);
  }

  // ----- real user turns

  const AUTO_CONTINUE_PROMPT := "Continue the conversation from where it left off without asking the user any further questions. Resume directly - do not acknowledge the summary, do not recap what was happening, do not preface with \"I'll continue\" or similar.\nPick up the last task as if the break never happened."

  /** `is_synthetic_extracted_query`. */
  predicate IsSyntheticQuery(q: string) {
    q == "" || q == "__auto_continue__" || q == AUTO_CONTINUE_PROMPT
  }

  function TextsOf(parts: seq<ContentPart>): seq<string> {
    if parts == [] then []
    else if parts[0].Text? then [parts[0].text] + TextsOf(parts[1..]) else TextsOf(parts[1..])
  }

  function ImagesOf(parts: seq<ContentPart>): (r: seq<ContentPart>)
    ensures forall p :: p in r ==> p.Image?
  {
    if parts == [] then []
    else if parts[0].Image? then [parts[0]] + ImagesOf(parts[1..]) else ImagesOf(parts[1..])
  }

  lemma {:induction false} ImagesConcat(a: seq<ContentPart>, b: seq<ContentPart>)
    ensures ImagesOf(a + b) == ImagesOf(a) + ImagesOf(b)
  {
    if a == [] {
      assert a + b == b;
    } else {
      ImagesConcat(a[1..], b);
      assert (a + b)[1..] == a[1..] + b && (a + b)[0] == a[0];
      var first: seq<ContentPart> := if a[0].Image? then [a[0]] else [];
      AppendAssociative(first, ImagesOf(a[1..]), ImagesOf(b));
    }
  }

  function Join(texts: seq<string>, sep: string): string {
    if texts == [] then "" else if |texts| == 1 then texts[0] else texts[0] + sep + Join(texts[1..], sep)
  }

  /** `text_content` of a user item. */
  function UserText(item: Item): string
    requires item.User?
  {
    Join(TextsOf(item.parts), "\n")
  }

  /** `is_real_user_turn`. */
  predicate IsRealUserTurn(item: Item) {
    item.User? && item.reason.None? &&
    (ImagesOf(item.parts) != [] || !IsSyntheticQuery(ExtractUserQuery(UserText(item))))
  }
}
