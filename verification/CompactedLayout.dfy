/** Where each piece of a compacted history stands, and what text its summary carries. */
module CompactedLayout {
  import opened Wrappers
  import opened Conversation
  import opened Strings
  import opened Query
  import opened ImageFiles
  import opened Compaction
  import Summary
  import SummaryCases

  function Present<T>(x: Option<T>): nat {
    if x.Some? then 1 else 0
  }

  /** How many items follow the summary: the note of attached paths, and the reminder. */
  function Trailing(input: Input, st: State): nat {
    (if st.images.attached != [] then 1 else 0) + Present(input.reminder)
  }

  /** How many items precede the carried query: system message, prefix, project instructions. */
  function Leading(input: Input): nat {
    2 + Present(if input.cwdGeneration == 0 then input.agentsMd else input.destination)
  }

  /** The project instructions are those of the starting directory until the session has moved. */
  predicate HasInstructions(c: seq<Item>, input: Input) {
    && (input.cwdGeneration == 0 && input.agentsMd.Some? ==>
          |c| > 2 && c[2] == Tagged(input.agentsMd.value, ProjectInstructions))
    && (input.cwdGeneration > 0 && input.destination.Some? ==>
          |c| > 2 && c[2] == Tagged(input.destination.value, ProjectInstructions))
  }

  function Hint(input: Input): string {
    if input.hint.Some? then input.hint.value else ""
  }

  // ----- the summary item

  function SummaryBlock(body: string): string {
    Summary.SUMMARY + body + Summary.SUMMARY_END
  }

  /** The raw output the compaction prompt asks for: a draft, then the summary. */
  function Drafted(draft: string, body: string): string {
    Summary.ANALYSIS + draft + Summary.ANALYSIS_END + SummaryBlock(body)
  }

  /** The same with a draft that does not end. */
  function Unclosed(draft: string, body: string): string {
    Summary.ANALYSIS + draft + Summary.SUMMARY + (body + Summary.SUMMARY_END)
  }

  /** The model's output holds this summary: alone, after a draft, or after one it left open. */
  ghost predicate Gives(output: string, body: string) {
    && Summary.Clean(body) && body != ""
    && (|| output == SummaryBlock(body)
        || (exists draft :: output == Drafted(draft, body) && !Occurs(draft, Summary.ANALYSIS_END))
        || (exists draft ::
              output == Unclosed(draft, body) && !Occurs(draft, Summary.SUMMARY) && !Occurs(output, Summary.ANALYSIS_END)))
  }

  lemma GivenSummaryKept(output: string, body: string)
    requires Gives(output, body)
    ensures Summary.FormatCompactSummary(output) == "Summary:\n" + body
  {
    hide Summary.FormatCompactSummary, Summary.Clean, Occurs;
    if output == SummaryBlock(body) {
      SummaryCases.BlockAloneKept(body);
    } else if draft :| output == Drafted(draft, body) && !Occurs(draft, Summary.ANALYSIS_END) {
      Summary.DraftDroppedSummaryKept(draft, body);
    } else {
      var draft :|
        output == Unclosed(draft, body) && !Occurs(draft, Summary.SUMMARY) && !Occurs(output, Summary.ANALYSIS_END);
      SummaryCases.UnclosedDraftSummaryKept(draft, body);
    }
  }

  /** A synthetic user message whose text is the preamble, then `middle`, then the transcript hint. */
  ghost predicate Carries(item: Item, middle: string, hint: string) {
    && item.User? && item.reason == Some(CompactionMeta)
    && item.parts == [Text(PREAMBLE + middle + hint)]
  }

  /** Between preamble and hint stands a clean text: the given summary itself if that was clean, and
      exactly the summary under its heading if the model's output holds one. */
  ghost predicate IsSummaryItem(item: Item, input: Input) {
    exists middle ::
      && Carries(item, middle, Hint(input)) && Summary.Clean(middle)
      && (Summary.Clean(input.summary) ==> middle == input.summary)
      && forall body :: Gives(input.summary, body) ==> middle == "Summary:\n" + body
  }

  lemma SummaryItemMeans(input: Input)
    ensures IsSummaryItem(Tagged(SummaryText(input), CompactionMeta), input)
  {
    hide Summary.FormatCompactSummary, Summary.Clean, Gives;
    var middle := Summary.FormatCompactSummary(input.summary);
    Summary.FormatIsClean(input.summary);
    Summary.FormatFixesExactlyClean(input.summary);
    forall body | Gives(input.summary, body) ensures middle == "Summary:\n" + body {
      GivenSummaryKept(input.summary, body);
    }
    assert Carries(Tagged(SummaryText(input), CompactionMeta), middle, Hint(input));
  }

  // ----- the layout

  /** The re-added query: the images of the turn it came from, and a text that ends in the wrapped
      query and holds the files block, once. */
  ghost predicate IsQueryItem(item: Item, st: State) {
    && item.User? && item.reason.None? && st.lastQuery.Some?
    && |item.parts| == 1 + |st.images.parts| && item.parts[1..] == st.images.parts
    && item.parts[0].Text? && IsQueryText(item.parts[0].text, st.lastQuery.value, st.images.files)
  }

  ghost predicate IsQueryText(text: string, query: string, files: Option<string>) {
    && |WrapUserQuery(query)| <= |text| && text[|text| - |WrapUserQuery(query)|..] == WrapUserQuery(query)
    && (files.Some? ==> Occurs(text, files.value))
    && (text == WrapUserQuery(query) <==> files.None? || Occurs(query, files.value))
  }

  lemma QueryTextMeans(images: ImageContext, query: string)
    ensures IsQueryText(QueryText(images, query), query, images.files)
  {
    hide Occurs;
    var wrapped, none := WrapUserQuery(query), "";
    if images.files.Some? {
      var f := images.files.value;
      if Occurs(query, f) {
        OccursWithin(QUERY_OPEN + "\n", query, "\n" + QUERY_CLOSE, f);
        assert wrapped == QUERY_OPEN + "\n" + query + ("\n" + QUERY_CLOSE);
      } else {
        assert OccursAt(f, f, 0);
        OccursWithin(none, f, "\n\n" + wrapped, f);
        assert none + f + ("\n\n" + wrapped) == f + "\n\n" + wrapped;
      }
    }
  }

  lemma OccursWithin(a: string, b: string, c: string, p: string)
    requires Occurs(b, p)
    ensures Occurs(a + b + c, p)
  {
    var i: nat :| OccursAt(b, p, i);
    OccursInSlice(a + b + c, p, |a|, |a| + |b|, i);
    assert (a + b + c)[|a|..|a| + |b|] == b;
  }

  /** The turns carried by hand: the human query, and the agent message on its own side of it unless
      the recent messages already hold one. */
  ghost predicate IsCarried(turns: seq<Item>, st: State) {
    var anchored := st.anchor.Some? && forall x :: x in st.recent ==> !IsAgentMessage(x);
    var before := anchored && st.anchor.value.position.BeforeHuman?;
    && |turns| == Present(st.lastQuery) + (if anchored then 1 else 0)
    && (st.lastQuery.Some? ==> IsQueryItem(turns[if before then 1 else 0], st))
    && (anchored ==> turns[if before then 0 else |turns| - 1] == st.anchor.value.item)
  }

  /** System message, prefix and instructions; the carried turns; the recent messages in one piece;
      the summary right after them; the note; and the reminder last. */
  ghost predicate IsLaidOut(c: seq<Item>, input: Input, st: State) {
    var k := |c| - 1 - Trailing(input, st);
    && Leading(input) <= k - |st.recent|
    && c[0] == input.system && c[1] == Tagged(input.prefix, CompactionMeta)
    && HasInstructions(c, input)
    && IsCarried(c[Leading(input)..k - |st.recent|], st)
    && c[k - |st.recent|..k] == st.recent
    && IsSummaryItem(c[k], input)
    && (st.images.attached != [] ==> c[k + 1] == Tagged(RenderAttachedNote(st.images.attached), CompactionMeta))
    && (input.reminder.Some? ==> c[|c| - 1] == Tagged(input.reminder.value, SystemReminder))
  }

  lemma AgentsIn(h: seq<Item>)
    ensures LastIndexOf(h, Agent).Some? <==> exists x :: x in h && IsAgentMessage(x)
  {
    hide LastIndexOf, IsAgentMessage;
    match LastIndexOf(h, Agent)
    case None =>
      forall x | x in h ensures !IsAgentMessage(x) {
        var i: nat :| i < |h| && h[i] == x;
        assert !Is(Agent, h[i]);
      }
    case Some(i) => assert h[i] in h;
  }

  lemma QueryItemMeans(st: State)
    requires st.lastQuery.Some?
    ensures IsQueryItem(LastQueryItem(st.images, st.lastQuery.value), st)
  {
    hide WrapUserQuery, QueryText, IsQueryText;
    QueryTextMeans(st.images, st.lastQuery.value);
    var text: seq<ContentPart> := [Text(QueryText(st.images, st.lastQuery.value))];
    assert (text + st.images.parts)[1..] == st.images.parts;
  }

  lemma CarriedMeans(st: State)
    ensures IsCarried(AnchorBefore(st) + QueryPart(st) + AnchorAfter(st), st)
  {
    hide IsQueryItem, LastQueryItem, LastIndexOf, IsAgentMessage;
    AgentsIn(st.recent);
    if st.lastQuery.Some? { QueryItemMeans(st); }
  }

  lemma Pieces<T>(a: seq<T>, b: seq<T>, c: seq<T>, d: seq<T>)
    ensures var s := a + b + c + d;
            && s[..|a|] == a && s[|a|..|a| + |b|] == b
            && s[|a| + |b|..|a| + |b| + |c|] == c && s[|a| + |b| + |c|..] == d
  {
  }

  lemma TailMeans(input: Input, st: State)
    ensures var t := TailPart(input, st);
            && |t| == 1 + Trailing(input, st) && IsSummaryItem(t[0], input)
            && (st.images.attached != [] ==> t[1] == Tagged(RenderAttachedNote(st.images.attached), CompactionMeta))
            && (input.reminder.Some? ==> t[|t| - 1] == Tagged(input.reminder.value, SystemReminder))
  {
    hide SummaryText, RenderAttachedNote, IsSummaryItem;
    SummaryItemMeans(input);
  }

  lemma Regrouped(input: Input, st: State)
    ensures CompactedHistory(input, st) ==
            HeadPart(input) + (AnchorBefore(st) + QueryPart(st) + AnchorAfter(st)) + st.recent + TailPart(input, st)
  {
    hide HeadPart, AnchorBefore, AnchorAfter, QueryPart, TailPart;
    var a, b, c, d := HeadPart(input), AnchorBefore(st), QueryPart(st), AnchorAfter(st);
    assert a + b + c + d == a + (b + c + d);
  }

  /** The compacted history of every state, captured or not, is laid out so. */
  lemma CompactedIsLaidOut(input: Input, st: State)
    ensures IsLaidOut(CompactedHistory(input, st), input, st)
  {
    hide CompactedHistory, AnchorBefore, AnchorAfter, QueryPart, TailPart, IsSummaryItem, IsCarried, RenderAttachedNote;
    var a, b, d := HeadPart(input), AnchorBefore(st) + QueryPart(st) + AnchorAfter(st), TailPart(input, st);
    Regrouped(input, st);
    Pieces(a, b, st.recent, d);
    CarriedMeans(st);
    TailMeans(input, st);
    LaidOut(a, b, d, input, st);
  }

  lemma LaidOut(a: seq<Item>, b: seq<Item>, d: seq<Item>, input: Input, st: State)
    requires a == HeadPart(input) && IsCarried(b, st)
    requires |d| == 1 + Trailing(input, st) && IsSummaryItem(d[0], input)
    requires st.images.attached != [] ==> d[1] == Tagged(RenderAttachedNote(st.images.attached), CompactionMeta)
    requires input.reminder.Some? ==> d[|d| - 1] == Tagged(input.reminder.value, SystemReminder)
    ensures IsLaidOut(a + b + st.recent + d, input, st)
  {
    hide IsSummaryItem, IsCarried, RenderAttachedNote;
    Pieces(a, b, st.recent, d);
    var c := a + b + st.recent + d;
    var k := |c| - 1 - Trailing(input, st);
    assert k == |a| + |b| + |st.recent| && |a| == Leading(input);
    assert c[Leading(input)..k - |st.recent|] == b;
    assert c[k - |st.recent|..k] == st.recent;
    assert c[k] == d[0];
  }

  // ----- the goal

  /** A goal that is not blank is the query carried, wrapped and without images. */
  lemma GoalIsCarried(h: seq<Item>, goal: string, dropRecent: bool, input: Input)
    requires Trim(goal) != ""
    ensures User([Text(WrapUserQuery(goal))], None, NO_TURN) in CompactedHistory(input, StateFor(h, Some(goal), dropRecent))
  {
    hide CompactedHistory, StateFor, IsCarried, HeadPart, AnchorBefore, AnchorAfter, TailPart;
    var st := StateFor(h, Some(goal), dropRecent);
    GoalState(h, goal, dropRecent);
    Regrouped(input, st);
    assert QueryPart(st) == [User([Text(WrapUserQuery(goal))], None, NO_TURN)] by { GoalQuery(st, goal); }
    InPieces(HeadPart(input), AnchorBefore(st), QueryPart(st)[0], AnchorAfter(st), st.recent, TailPart(input, st));
    assert QueryPart(st) == [QueryPart(st)[0]];
  }

  lemma GoalState(h: seq<Item>, goal: string, dropRecent: bool)
    requires Trim(goal) != ""
    ensures var st := StateFor(h, Some(goal), dropRecent);
            st.lastQuery == Some(goal) && st.images.files.None? && st.images.parts == []
  {
    hide Trim, BlockPaths, MessagesSinceAnchor, LatestAgentMessage;
  }

  lemma GoalQuery(st: State, goal: string)
    requires st.lastQuery == Some(goal) && st.images.files.None? && st.images.parts == []
    ensures QueryPart(st) == [User([Text(WrapUserQuery(goal))], None, NO_TURN)]
  {
    hide WrapUserQuery;
    var text: seq<ContentPart> := [Text(WrapUserQuery(goal))];
    assert text + st.images.parts == text;
  }

  lemma InPieces<T>(a: seq<T>, b: seq<T>, x: T, c: seq<T>, d: seq<T>, e: seq<T>)
    ensures x in a + (b + [x] + c) + d + e
  {
  }

  // ----- the recent messages

  /** What a message leaves for the next turn: the words of the assistant and of other agents as they
      are, and of a tool output which call it answers. */
  datatype Trace =
    | Said(item: Item)
    | Answered(id: string)
    | AnsweredCustom(callId: string, itemId: Option<string>, name: Option<string>)

  function TraceOf(item: Item): seq<Trace> {
    if item.Assistant? || IsAgentMessage(item) then [Said(item)]
    else if item.ToolResult? then [Answered(item.toolCallId)]
    else if item.CustomToolOutput? then [AnsweredCustom(item.callId, item.itemId, item.name)]
    else []
  }

  function Traces(h: seq<Item>): seq<Trace> {
    if h == [] then [] else Traces(h[..|h| - 1]) + TraceOf(h[|h| - 1])
  }

  /** An output without what the tool returned. */
  predicate Emptied(item: Item) {
    match item
    case ToolResult(_, content, images, ordered) => content == OMITTED && ordered == [] && images == []
    case CustomToolOutput(_, _, _, output) => output == [OutText(OMITTED)]
    case _ => true
  }

  lemma TracesSnoc(h: seq<Item>, x: Item)
    ensures Traces(h + [x]) == Traces(h) + TraceOf(x)
  {
    assert (h + [x])[..|h|] == h;
  }

  lemma RecentTrace(x: Item)
    ensures |Recent(x)| == |TraceOf(x)| <= 1
    ensures Recent(x) != [] ==> TraceOf(Recent(x)[0]) == TraceOf(x) && Emptied(Recent(x)[0])
  {
  }

  /** Nothing said and no answer is lost or moved, and every answer is emptied. */
  lemma {:induction false} RecentKeepsTraces(h: seq<Item>)
    ensures Traces(RecentOf(h)) == Traces(h) && |RecentOf(h)| == |Traces(h)|
    ensures forall y :: y in RecentOf(h) ==> Emptied(y)
  {
    hide TraceOf, Recent, Emptied;
    if h != [] {
      var g, x := h[..|h| - 1], h[|h| - 1];
      RecentKeepsTraces(g);
      RecentTrace(x);
      if Recent(x) != [] {
        assert Recent(x) == [Recent(x)[0]];
        TracesSnoc(RecentOf(g), Recent(x)[0]);
      } else {
        assert RecentOf(h) == RecentOf(g) && Traces(h) == Traces(g);
      }
    }
  }

  /** The recent messages are those from the last anchor on, or all if there is none. */
  lemma RecentSinceAnchor(h: seq<Item>, k: nat)
    requires k <= |h| && forall j :: k < j < |h| ==> !Is(Either, h[j])
    requires k == 0 || (k < |h| && Is(Either, h[k]))
    ensures Traces(MessagesSinceAnchor(h)) == Traces(h[k..])
  {
    hide RecentOf, Traces, LastIndexOf, IsRealUserTurn;
    RecentKeepsTraces(h[k..]);
    match LastIndexOf(h, Either)
    case None => assert h[0..] == h;
    case Some(i) =>
      assert i == k;
      if !IsAgentMessage(h[k]) {
        assert Is(Real, h[k]);
        HumanLeavesNoTrace(h[k]);
        RecentSkipsFirst(h[k], h[k + 1..]);
        assert h[k..] == [h[k]] + h[k + 1..];
      }
  }

  lemma HumanLeavesNoTrace(x: Item)
    requires Is(Real, x)
    ensures Recent(x) == []
  {
  }
}
