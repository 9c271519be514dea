/** Building a compacted history: what `CompactionStateContext::build` captures, and what
    `build_compacted_history` assembles from it. */
module Compaction {
  import opened Wrappers
  import opened Conversation
  import opened Strings
  import opened ToolPairing
  import opened Query
  import opened ImageFiles
  import opened ImageHarvest
  import Summary

  // ----- anchors: the turns compaction must carry

  datatype Kind = Real | Agent | Either

  predicate Is(kind: Kind, item: Item) {
    match kind
    case Real => IsRealUserTurn(item)
    case Agent => IsAgentMessage(item)
    case Either => IsRealUserTurn(item) || IsAgentMessage(item)
  }

  /** `rposition` of an item of the kind. */
  function LastIndexOf(h: seq<Item>, kind: Kind): (r: Option<nat>)
    ensures r.Some? ==> r.value < |h| && Is(kind, h[r.value])
    ensures r.Some? ==> forall j :: r.value < j < |h| ==> !Is(kind, h[j])
    ensures r.None? ==> forall j :: 0 <= j < |h| ==> !Is(kind, h[j])
  {
    if h == [] then None
    else if Is(kind, h[|h| - 1]) then Some(|h| - 1)
    else LastIndexOf(h[..|h| - 1], kind)
  }

  // ----- the captured state

  datatype ImageContext = ImageContext(parts: seq<ContentPart>, files: Option<string>, attached: seq<string>)

  const NO_IMAGES := ImageContext([], None, [])

  /** `image_context_from_item`. */
  function ImageContextOf(item: Item): ImageContext {
    if item.User? then ImageContext(ImagesOf(item.parts), TagBlock(UserText(item), IMAGE_FILES), []) else NO_IMAGES
  }

  datatype Position = Only | BeforeHuman | AfterHuman

  datatype Anchor = Anchor(item: Item, position: Position)

  /** `extract_latest_agent_message`. */
  function LatestAgentMessage(h: seq<Item>): Option<Anchor> {
    match LastIndexOf(h, Agent)
    case None => None
    case Some(agent) =>
      Some(Anchor(h[agent], match LastIndexOf(h, Real)
                            case Some(human) => if agent < human then BeforeHuman else AfterHuman
                            case None => Only))
  }

  const OMITTED := "Tool call omitted..."

  /** What a recent item becomes: agent messages and assistants stay, outputs become placeholders
      with their ids, everything else goes. */
  function Recent(item: Item): seq<Item> {
    match item
    case User(_, _, _) => if IsAgentMessage(item) then [item] else []
    case Assistant(_, _, _) => [item]
    case ToolResult(id, _, _, _) => [ToolResult(id, OMITTED, [], [])]
    case CustomToolOutput(id, itemId, name, _) => [CustomToolOutput(id, itemId, name, [OutText(OMITTED)])]
    case _ => []
  }

  function RecentOf(h: seq<Item>): seq<Item> {
    if h == [] then [] else RecentOf(h[..|h| - 1]) + Recent(h[|h| - 1])
  }

  /** `extract_messages_since_last_compaction_anchor`. */
  function MessagesSinceAnchor(h: seq<Item>): seq<Item> {
    match LastIndexOf(h, Either)
    case None => RecentOf(h)
    case Some(i) => if IsAgentMessage(h[i]) then RecentOf(h[i..]) else RecentOf(h[i + 1..])
  }

  datatype State = State(recent: seq<Item>, anchor: Option<Anchor>, lastQuery: Option<string>, images: ImageContext)

  /** The query to carry and its images: the goal objective if one is set, else the last real turn. */
  function CarriedQuery(h: seq<Item>, goal: Option<string>): (Option<string>, ImageContext) {
    if goal.Some? && Trim(goal.value) != "" then (goal, NO_IMAGES)
    else match LastIndexOf(h, Real)
         case None => (None, NO_IMAGES)
         case Some(i) => (Some(ExtractUserQuery(UserText(h[i]))), ImageContextOf(h[i]))
  }

  function BlockPaths(images: ImageContext): seq<string> {
    ParsePaths(if images.files.Some? then images.files.value else "")
  }

  /** `CompactionStateContext::build`. */
  function BuildState(h: seq<Item>, goal: Option<string>): State {
    var (query, images) := CarriedQuery(h, goal);
    State(MessagesSinceAnchor(h), LatestAgentMessage(h), query,
          images.(attached := AttachedPaths(h, BlockPaths(images))))
  }

  /** `CompactionStateContext::for_compaction`. */
  function ForCompaction(st: State): State {
    st.(recent := [], anchor := if st.anchor.Some? then st.anchor else LatestAgentMessage(st.recent))
  }

  // ----- the compacted history

  function Tagged(text: string, reason: SyntheticReason): Item {
    User([Text(text)], Some(reason), NO_TURN)
  }

  /** Text of the re-added query: the files block unless the query already holds it, then the query. */
  function QueryText(images: ImageContext, query: string): string {
    if images.files.Some? && !Contains(query, images.files.value)
    then images.files.value + "\n\n" + WrapUserQuery(query)
    else WrapUserQuery(query)
  }

  /** `last_query_item`. */
  function LastQueryItem(images: ImageContext, query: string): Item {
    User([Text(QueryText(images, query))] + images.parts, None, NO_TURN)
  }

  datatype Input = Input(
    system: Item, prefix: string, cwdGeneration: nat, agentsMd: Option<string>, destination: Option<string>,
    summary: string, hint: Option<string>, reminder: Option<string>)

  function Instructions(input: Input): Option<string> {
    if input.cwdGeneration == 0 then input.agentsMd else input.destination
  }

  const PREAMBLE :=
    "This session is being continued from a previous conversation that ran out of context. " +
    "The summary below covers the earlier portion of the conversation.\n\n"

  function SummaryText(input: Input): string {
    PREAMBLE + Summary.FormatCompactSummary(input.summary) + if input.hint.Some? then input.hint.value else ""
  }

  function Optional(item: Option<Item>): seq<Item> {
    if item.Some? then [item.value] else []
  }

  function TaggedOptional(text: Option<string>, reason: SyntheticReason): seq<Item> {
    if text.Some? then [Tagged(text.value, reason)] else []
  }

  /** The anchor is re-added only when the recent messages do not already hold it. */
  function ReaddedAnchor(st: State): Option<Anchor> {
    if LastIndexOf(st.recent, Agent).Some? then None else st.anchor
  }

  function AnchorBefore(st: State): seq<Item> {
    var a := ReaddedAnchor(st);
    if a.Some? && a.value.position.BeforeHuman? then [a.value.item] else []
  }

  function AnchorAfter(st: State): seq<Item> {
    var a := ReaddedAnchor(st);
    if a.Some? && !a.value.position.BeforeHuman? then [a.value.item] else []
  }

  function QueryPart(st: State): seq<Item> {
    if st.lastQuery.Some? then [LastQueryItem(st.images, st.lastQuery.value)] else []
  }

  function HeadPart(input: Input): seq<Item> {
    [input.system, Tagged(input.prefix, CompactionMeta)] + TaggedOptional(Instructions(input), ProjectInstructions)
  }

  function NotePart(st: State): seq<Item> {
    if st.images.attached == [] then [] else [Tagged(RenderAttachedNote(st.images.attached), CompactionMeta)]
  }

  function TailPart(input: Input, st: State): seq<Item> {
    [Tagged(SummaryText(input), CompactionMeta)] + NotePart(st) + TaggedOptional(input.reminder, SystemReminder)
  }

  /** `build_compacted_history`. */
  function CompactedHistory(input: Input, st: State): seq<Item> {
    HeadPart(input) + AnchorBefore(st) + QueryPart(st) + AnchorAfter(st) + st.recent + TailPart(input, st)
  }

  /** A state whose anchor is a user item, under a system message: what the callers pass. */
  predicate WellFormed(input: Input, st: State) {
    input.system.System? && (st.anchor.Some? ==> st.anchor.value.item.User?)
  }

  /** The recent messages stand between items that are no tool outputs, so their pairing carries
      over to the whole, and validation finds nothing. */
  method BuildCompactedHistory(input: Input, st: State) returns (compacted: seq<Item>)
    ensures compacted == CompactedHistory(input, st)
    ensures compacted != [] && compacted[0] == input.system
    ensures WellFormed(input, st) ==>
              && Outputs(compacted) == Outputs(st.recent)
              && forall d :: Adjacent(d, st.recent) ==> Adjacent(d, compacted) && Dropped(d, AnyEarlier, compacted) == []
  {
    hide LastQueryItem, SummaryText, RenderAttachedNote, ReaddedAnchor, Paired, Dropped, Outputs;
    compacted := [input.system, Tagged(input.prefix, CompactionMeta)];
    var instructions := if input.cwdGeneration == 0 then input.agentsMd else input.destination;
    if instructions.Some? {
      compacted := compacted + [Tagged(instructions.value, ProjectInstructions)];
    }
    assert compacted == HeadPart(input);
    var anchor := ReaddedAnchor(st);
    if anchor.Some? && anchor.value.position.BeforeHuman? {
      compacted := compacted + [anchor.value.item];
    }
    assert compacted == HeadPart(input) + AnchorBefore(st);
    if st.lastQuery.Some? {
      compacted := compacted + [LastQueryItem(st.images, st.lastQuery.value)];
    }
    assert compacted == HeadPart(input) + AnchorBefore(st) + QueryPart(st);
    if anchor.Some? && !anchor.value.position.BeforeHuman? {
      compacted := compacted + [anchor.value.item];
    }
    assert compacted == HeadPart(input) + AnchorBefore(st) + QueryPart(st) + AnchorAfter(st);
    var tail := PushTail(input, st);
    compacted := compacted + st.recent + tail;
    if WellFormed(input, st) {
      AssembledOutputs(input, st);
      forall d | Adjacent(d, st.recent) ensures Adjacent(d, compacted) && Dropped(d, AnyEarlier, compacted) == [] {
        AssembledAdjacent(d, input, st);
      }
    }
  }

  /** The tool outputs of a history, in order. */
  function Outputs(h: seq<Item>): seq<Item> {
    if h == [] then []
    else if IsOutput(h[|h| - 1]) then Outputs(h[..|h| - 1]) + [h[|h| - 1]] else Outputs(h[..|h| - 1])
  }

  lemma {:induction false} OutputsConcat(a: seq<Item>, b: seq<Item>)
    ensures Outputs(a + b) == Outputs(a) + Outputs(b)
    decreases |b|
  {
    hide IsOutput;
    if b == [] {
      assert a + b == a;
    } else {
      OutputsConcat(a, b[..|b| - 1]);
      assert (a + b)[..|a + b| - 1] == a + b[..|b| - 1];
    }
  }

  lemma {:induction false} NoOutputsIn(h: seq<Item>)
    requires forall x :: x in h ==> !IsOutput(x)
    ensures Outputs(h) == []
  {
    if h != [] { NoOutputsIn(h[..|h| - 1]); }
  }

  lemma AssembledOutputs(input: Input, st: State)
    requires WellFormed(input, st)
    ensures Outputs(CompactedHistory(input, st)) == Outputs(st.recent)
  {
    hide Outputs, HeadPart, AnchorBefore, QueryPart, AnchorAfter, TailPart;
    var front, tail := HeadPart(input) + AnchorBefore(st) + QueryPart(st) + AnchorAfter(st), TailPart(input, st);
    FrontHasNoOutputs(input, st);
    OutputsConcat(front + st.recent, tail);
    OutputsConcat(front, st.recent);
    NoOutputsIn(front);
    NoOutputsIn(tail);
  }

  lemma AssembledAdjacent(d: IdCodec, input: Input, st: State)
    requires WellFormed(input, st) && Adjacent(d, st.recent)
    ensures Adjacent(d, CompactedHistory(input, st)) && Dropped(d, AnyEarlier, CompactedHistory(input, st)) == []
  {
    hide Paired, HeadPart, AnchorBefore, QueryPart, AnchorAfter, TailPart, Dropped, Kept;
    var front := HeadPart(input) + AnchorBefore(st) + QueryPart(st) + AnchorAfter(st);
    FrontHasNoOutputs(input, st);
    NoOutputsPaired(d, RunOwner, front);
    NoOutputsPaired(d, RunOwner, TailPart(input, st));
    PairedConcat(d, RunOwner, front, st.recent);
    PairedConcat(d, RunOwner, front + st.recent, TailPart(input, st));
    AdjacentIsPreceded(d, CompactedHistory(input, st));
    PassesFixExactlyPaired(d, AnyEarlier, CompactedHistory(input, st));
  }

  /** The summary, the note of attached paths and the state reminder, in that order. */
  method PushTail(input: Input, st: State) returns (tail: seq<Item>)
    ensures tail == TailPart(input, st)
  {
    hide SummaryText, RenderAttachedNote;
    tail := [Tagged(SummaryText(input), CompactionMeta)];
    if st.images.attached != [] {
      tail := tail + [Tagged(RenderAttachedNote(st.images.attached), CompactionMeta)];
    }
    assert tail == [Tagged(SummaryText(input), CompactionMeta)] + NotePart(st);
    if input.reminder.Some? {
      tail := tail + [Tagged(input.reminder.value, SystemReminder)];
    }
  }

  // ----- adjacency survives compaction

  /** A recent item keeps its kind and its ids; what goes is no output and declares nothing. */
  lemma RecentKind(d: IdCodec, x: Item)
    ensures |Recent(x)| <= 1
    ensures Recent(x) == [] ==> !IsOutput(x) && DeclaredIds(d, x) == {}
    ensures Recent(x) != [] ==>
              var y := Recent(x)[0];
              && IsOutput(y) == IsOutput(x) && DeclaredIds(d, y) == DeclaredIds(d, x)
              && (IsOutput(x) ==> OutputId(d, y) == OutputId(d, x))
  {
  }

  lemma {:induction false} RecentConforms(d: IdCodec, h: seq<Item>)
    requires Conforms(d, RunOwner, h)
    ensures Conforms(d, RunOwner, RecentOf(h))
    ensures OpenIds(d, RunOwner, h) <= OpenIds(d, RunOwner, RecentOf(h))
  {
    hide Recent, DeclaredIds, OutputId, OpenIds, Conforms;
    if h == [] {
    } else {
      var g, x := h[..|h| - 1], h[|h| - 1];
      assert h == g + [x];
      ScanSnoc(d, RunOwner, g, x);
      RecentConforms(d, g);
      RecentKind(d, x);
      var r := Recent(x);
      if r == [] {
        assert RecentOf(g) + [] == RecentOf(g);
      } else {
        assert r == [r[0]];
        ScanSnoc(d, RunOwner, RecentOf(g), r[0]);
      }
    }
  }

  lemma RecentOfAdjacent(d: IdCodec, t: seq<Item>)
    requires Adjacent(d, t)
    ensures Adjacent(d, RecentOf(t))
  {
    hide Paired, Conforms, RecentOf;
    PairedIffConforms(d, RunOwner, t);
    RecentConforms(d, t);
    PairedIffConforms(d, RunOwner, RecentOf(t));
  }

  lemma RecentAdjacent(d: IdCodec, h: seq<Item>)
    requires Adjacent(d, h)
    ensures Adjacent(d, MessagesSinceAnchor(h))
  {
    hide Paired, RecentOf, LastIndexOf, IsRealUserTurn;
    match LastIndexOf(h, Either)
    case None => RecentOfAdjacent(d, h);
    case Some(k) =>
      AnchorIsUser(h[k]);
      AdjacentSuffix(d, h, k);
      RecentOfAdjacent(d, h[k..]);
      if !IsAgentMessage(h[k]) {
        RecentSkipsFirst(h[k], h[k + 1..]);
        assert h[k..] == [h[k]] + h[k + 1..];
      }
  }

  lemma AnchorIsUser(item: Item)
    requires Is(Either, item)
    ensures item.User?
  {
  }

  lemma RecentSnoc(h: seq<Item>, x: Item)
    ensures RecentOf(h + [x]) == RecentOf(h) + Recent(x)
  {
    hide Recent;
    assert (h + [x])[..|h|] == h;
  }

  lemma {:induction false} RecentSkipsFirst(x: Item, t: seq<Item>)
    requires Recent(x) == []
    ensures RecentOf([x] + t) == RecentOf(t)
  {
    hide Recent, RecentOf;
    if t == [] {
      RecentNothing();
      RecentSnoc([], x);
      assert [x] + t == [x] == [] + [x];
    } else {
      var g, y := t[..|t| - 1], t[|t| - 1];
      RecentSkipsFirst(x, g);
      RecentSnoc(g, y);
      RecentSnoc([x] + g, y);
      assert t == g + [y];
      AppendAssociative([x], g, [y]);
    }
  }

  lemma RecentNothing()
    ensures RecentOf([]) == []
  {
  }

  /** Every state a compaction may use: as captured, or without its recent messages. */
  function StateFor(h: seq<Item>, goal: Option<string>, dropRecent: bool): State {
    if dropRecent then ForCompaction(BuildState(h, goal)) else BuildState(h, goal)
  }

  lemma StateRecentAdjacent(d: IdCodec, h: seq<Item>, goal: Option<string>, dropRecent: bool)
    requires Adjacent(d, h)
    ensures Adjacent(d, StateFor(h, goal, dropRecent).recent)
  {
    hide CarriedQuery, AttachedPaths, BlockPaths;
    RecentAdjacent(d, h);
    NoOutputsPaired(d, RunOwner, []);
  }

  /** Compacting an adjacent history yields an adjacent one, which validation accepts, with or
      without the recent messages. */
  lemma CompactionKeepsAdjacent(d: IdCodec, h: seq<Item>, goal: Option<string>, dropRecent: bool, input: Input)
    requires Adjacent(d, h) && input.system.System?
    ensures Adjacent(d, CompactedHistory(input, StateFor(h, goal, dropRecent)))
    ensures Dropped(d, AnyEarlier, CompactedHistory(input, StateFor(h, goal, dropRecent))) == []
  {
    hide Paired, StateFor, CompactedHistory, Dropped;
    StateRecentAdjacent(d, h, goal, dropRecent);
    AnchorsAreUsers(h, goal, dropRecent);
    AssembledAdjacent(d, input, StateFor(h, goal, dropRecent));
  }

  lemma AnchorsAreUsers(h: seq<Item>, goal: Option<string>, dropRecent: bool)
    ensures var a := StateFor(h, goal, dropRecent).anchor; a.Some? ==> a.value.item.User?
  {
    hide CarriedQuery, AttachedPaths, BlockPaths, MessagesSinceAnchor, LastIndexOf;
  }

  lemma FrontHasNoOutputs(input: Input, st: State)
    requires WellFormed(input, st)
    ensures forall x :: x in HeadPart(input) + AnchorBefore(st) + QueryPart(st) + AnchorAfter(st) ==> !IsOutput(x)
    ensures forall x :: x in TailPart(input, st) ==> !IsOutput(x)
  {
    hide SummaryText, RenderAttachedNote, QueryText;
  }
}
