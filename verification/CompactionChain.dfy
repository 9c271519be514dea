/** What stays the same however often a conversation is compacted. */
module CompactionChain {
  import opened Wrappers
  import opened Conversation
  import opened Strings
  import opened Query
  import opened ImageFiles
  import opened ImageHarvest
  import opened Compaction

  // ----- the anchors of a history

  function Anchors(h: seq<Item>): seq<Item> {
    if h == [] then []
    else if Is(Either, h[|h| - 1]) then Anchors(h[..|h| - 1]) + [h[|h| - 1]]
    else Anchors(h[..|h| - 1])
  }

  function LastOf(h: seq<Item>, kind: Kind): Option<Item> {
    match LastIndexOf(h, kind) case None => None case Some(i) => Some(h[i])
  }

  predicate AgentIsLatest(h: seq<Item>) {
    var last := LastOf(h, Either);
    last.Some? && IsAgentMessage(last.value)
  }

  lemma LastOfSnoc(h: seq<Item>, x: Item, kind: Kind)
    ensures LastOf(h + [x], kind) == if Is(kind, x) then Some(x) else LastOf(h, kind)
  {
    hide Is;
    assert (h + [x])[..|h|] == h;
  }

  /** The latest turns of a history are those of its anchors. */
  lemma {:induction false} LastOfAnchors(h: seq<Item>, kind: Kind)
    ensures LastOf(Anchors(h), kind) == LastOf(h, kind)
  {
    hide IsRealUserTurn, LastIndexOf, LastOf;
    if h != [] {
      var g, x := h[..|h| - 1], h[|h| - 1];
      assert h == g + [x];
      LastOfAnchors(g, kind);
      LastOfSnoc(g, x, kind);
      LastOfSnoc(Anchors(g), x, kind);
    }
  }

  lemma {:induction false} AnchorsConcat(a: seq<Item>, b: seq<Item>)
    ensures Anchors(a + b) == Anchors(a) + Anchors(b)
  {
    hide Is;
    if b == [] {
      assert a + b == a;
    } else {
      AnchorsConcat(a, b[..|b| - 1]);
      assert (a + b)[..|a + b| - 1] == a + b[..|b| - 1];
    }
  }

  lemma {:induction false} NoAnchors(h: seq<Item>)
    requires forall x :: x in h ==> !Is(Either, x)
    ensures Anchors(h) == []
  {
    if h != [] { NoAnchors(h[..|h| - 1]); }
  }

  // ----- what one compaction carries

  /** The last real turn as the compacted history re-adds it. */
  function CarriedItem(turn: Item): Item
    requires turn.User?
  {
    LastQueryItem(ImageContextOf(turn), ExtractUserQuery(UserText(turn)))
  }

  /** The latest agent message and the carried query, on the sides they had. */
  function Carry(h: seq<Item>): seq<Item> {
    var human, agent := LastOf(h, Real), LastOf(h, Agent);
    if human.None? then Optional(agent)
    else
      var query := CarriedItem(human.value);
      if agent.None? then [query]
      else if AgentIsLatest(h) then [query, agent.value] else [agent.value, query]
  }

  /** The side of the human query that the code computes from positions. */
  lemma PositionMeans(h: seq<Item>)
    ensures LatestAgentMessage(h).Some? <==> LastOf(h, Agent).Some?
    ensures LatestAgentMessage(h).Some? ==>
              && LatestAgentMessage(h).value.item == LastOf(h, Agent).value
              && (LatestAgentMessage(h).value.position.BeforeHuman? <==> LastOf(h, Real).Some? && !AgentIsLatest(h))
    ensures LastOf(h, Either).None? <==> LastOf(h, Real).None? && LastOf(h, Agent).None?
  {
    hide IsRealUserTurn;
    var human, agent, either := LastIndexOf(h, Real), LastIndexOf(h, Agent), LastIndexOf(h, Either);
    if agent.Some? {
      RealIsNotAgent(h[agent.value]);
      assert Is(Either, h[agent.value]);
    }
    if human.Some? {
      RealIsNotAgent(h[human.value]);
      assert Is(Either, h[human.value]);
    }
    if either.Some? {
      RealIsNotAgent(h[either.value]);
      assert Is(Real, h[either.value]) || Is(Agent, h[either.value]);
    }
  }

  lemma RealIsNotAgent(item: Item)
    ensures !(Is(Real, item) && Is(Agent, item))
    ensures IsAgentMessage(item) <==> Is(Agent, item)
  {
  }

  /** The only anchor among the recent messages is the latest agent message, if no human spoke since. */
  lemma {:induction false} RecentAnchors(h: seq<Item>)
    requires forall x :: x in h ==> !Is(Either, x)
    ensures Anchors(RecentOf(h)) == []
  {
    hide IsRealUserTurn;
    if h != [] {
      var g, x := h[..|h| - 1], h[|h| - 1];
      RecentAnchors(g);
      AnchorsConcat(RecentOf(g), Recent(x));
      assert x in h;
      RecentOfOther(x);
      NoAnchors(Recent(x));
    }
  }

  lemma RecentOfOther(x: Item)
    requires !IsAgentMessage(x)
    ensures forall y :: y in Recent(x) ==> !Is(Either, y)
  {
  }

  lemma MessagesAnchors(h: seq<Item>)
    ensures Anchors(MessagesSinceAnchor(h)) == if AgentIsLatest(h) then [LastOf(h, Agent).value] else []
    ensures AgentIsLatest(h) ==> LastOf(h, Agent).Some?
  {
    hide Is, RecentOf;
    PositionMeans(h);
    match LastIndexOf(h, Either)
    case None =>
      assert forall x :: x in h ==> !Is(Either, x);
      RecentAnchors(h);
    case Some(i) =>
      var t := h[i + 1..];
      assert forall x :: x in t ==> !Is(Either, x);
      RecentAnchors(t);
      if IsAgentMessage(h[i]) {
        AgentRecent(h, i);
      }
  }

  lemma AgentRecent(h: seq<Item>, i: nat)
    requires LastIndexOf(h, Either) == Some(i) && IsAgentMessage(h[i])
    ensures LastOf(h, Agent) == Some(h[i])
    ensures Anchors(RecentOf(h[i..])) == [h[i]] + Anchors(RecentOf(h[i + 1..]))
  {
    hide IsRealUserTurn, RecentOf, Anchors, LastOf;
    AgentIsLast(h, i);
    RecentKeepsFirst(h[i], h[i + 1..]);
    assert h[i..] == [h[i]] + h[i + 1..];
    AnchorsConcat([h[i]], RecentOf(h[i + 1..]));
    AnchorsOfOne(h[i]);
  }

  lemma AgentIsLast(h: seq<Item>, i: nat)
    requires LastIndexOf(h, Either) == Some(i) && IsAgentMessage(h[i])
    ensures LastOf(h, Agent) == Some(h[i])
  {
    hide IsRealUserTurn;
    assert Is(Agent, h[i]);
    forall j | i < j < |h| ensures !Is(Agent, h[j]) {
      assert !Is(Either, h[j]);
    }
  }

  lemma RecentOfAgent(x: Item)
    requires IsAgentMessage(x)
    ensures Recent(x) == [x]
  {
  }

  lemma {:induction false} RecentKeepsFirst(x: Item, t: seq<Item>)
    requires IsAgentMessage(x)
    ensures RecentOf([x] + t) == [x] + RecentOf(t)
  {
    hide Recent, IsAgentMessage;
    RecentOfAgent(x);
    if t == [] {
      assert [x] + t == [x] && [x][..0] == [];
    } else {
      RecentKeepsFirst(x, t[..|t| - 1]);
      assert ([x] + t)[..|t|] == [x] + t[..|t| - 1];
    }
  }

  // ----- the anchors of a compacted history

  lemma TaggedIsNoAnchor(text: string, reason: SyntheticReason)
    requires reason != AgentMessage
    ensures !Is(Either, Tagged(text, reason))
  {
  }

  lemma FramePartsHaveNoAnchors(input: Input, st: State)
    requires input.system.System?
    ensures Anchors(HeadPart(input)) == [] && Anchors(TailPart(input, st)) == []
  {
    hide Is, SummaryText, RenderAttachedNote, Tagged;
    assert !Is(Either, input.system) by { SystemIsNoAnchor(input.system); }
    forall x | x in HeadPart(input) ensures !Is(Either, x) {
      TaggedIsNoAnchor(input.prefix, CompactionMeta);
      if Instructions(input).Some? {
        TaggedIsNoAnchor(Instructions(input).value, ProjectInstructions);
      }
    }
    forall x | x in TailPart(input, st) ensures !Is(Either, x) {
      TaggedIsNoAnchor(SummaryText(input), CompactionMeta);
      TaggedIsNoAnchor(RenderAttachedNote(st.images.attached), CompactionMeta);
      if input.reminder.Some? {
        TaggedIsNoAnchor(input.reminder.value, SystemReminder);
      }
    }
    NoAnchors(HeadPart(input));
    NoAnchors(TailPart(input, st));
  }

  lemma SystemIsNoAnchor(x: Item)
    requires x.System?
    ensures !Is(Either, x)
  {
  }

  lemma AnchorsOfOne(x: Item)
    ensures Anchors([x]) == if Is(Either, x) then [x] else []
  {
    hide Is;
    assert [x][..0] == [];
  }

  lemma CompactedAnchorsSplit(input: Input, st: State)
    requires input.system.System?
    ensures Anchors(CompactedHistory(input, st)) ==
            Anchors(AnchorBefore(st)) + Anchors(QueryPart(st)) + Anchors(AnchorAfter(st)) + Anchors(st.recent)
  {
    hide Anchors, HeadPart, AnchorBefore, QueryPart, AnchorAfter, TailPart;
    var h, b, q, a, r, t := HeadPart(input), AnchorBefore(st), QueryPart(st), AnchorAfter(st), st.recent, TailPart(input, st);
    FramePartsHaveNoAnchors(input, st);
    AnchorsConcat(h, b);
    AnchorsConcat(h + b, q);
    AnchorsConcat(h + b + q, a);
    AnchorsConcat(h + b + q + a, r);
    AnchorsConcat(h + b + q + a + r, t);
    assert [] + Anchors(b) + Anchors(q) + Anchors(a) + Anchors(r) + [] == Anchors(b) + Anchors(q) + Anchors(a) + Anchors(r);
  }

  /** The anchor the state re-adds, in both forms of the state. */
  lemma ReaddedMeans(h: seq<Item>, goal: Option<string>, drop: bool)
    ensures var st := StateFor(h, goal, drop);
            && ReaddedAnchor(st) == (if !drop && AgentIsLatest(h) then None else LatestAgentMessage(h))
            && Anchors(st.recent) == (if !drop && AgentIsLatest(h) then Optional(LastOf(h, Agent)) else [])
  {
    hide Is, CarriedQuery, AttachedPaths, BlockPaths, MessagesSinceAnchor, LatestAgentMessage;
    MessagesAnchors(h);
    PositionMeans(h);
    var recent := MessagesSinceAnchor(h);
    LastOfAnchors(recent, Agent);
    PositionMeans(recent);
    if AgentIsLatest(h) {
      var m := LastOf(h, Agent).value;
      assert Anchors(recent) == [] + [m];
      LastOfSnoc([], m, Agent);
    }
  }

  lemma QueryPartMeans(h: seq<Item>, drop: bool)
    ensures var st := StateFor(h, None, drop);
            QueryPart(st) == match LastOf(h, Real) case None => [] case Some(c) => [CarriedItem(c)]
  {
    hide AttachedPaths, BlockPaths, MessagesSinceAnchor, LatestAgentMessage, IsRealUserTurn, LastQueryItem,
         ExtractUserQuery, UserText, ImageContextOf;
    var st := StateFor(h, None, drop);
    assert (st.lastQuery, st.images.(attached := [])) ==
           (CarriedQuery(h, None).0, CarriedQuery(h, None).1.(attached := []));
    LastRealIsUser(h);
    if LastOf(h, Real).Some? {
      var c := LastOf(h, Real).value;
      QueryItemIgnoresAttached(st.images, ImageContextOf(c), ExtractUserQuery(UserText(c)));
    }
  }

  lemma QueryItemIgnoresAttached(a: ImageContext, b: ImageContext, q: string)
    requires a.parts == b.parts && a.files == b.files
    ensures LastQueryItem(a, q) == LastQueryItem(b, q)
  {
  }

  /** The agent message ends up before the query or after it, as it stood. */
  lemma AgentSides(h: seq<Item>, goal: Option<string>, drop: bool)
    ensures var st, m := StateFor(h, goal, drop), LastOf(h, Agent);
            var before := m.Some? && LastOf(h, Real).Some? && !AgentIsLatest(h);
            && Anchors(AnchorBefore(st)) == (if before then [m.value] else [])
            && Anchors(AnchorAfter(st)) + Anchors(st.recent) == if m.Some? && !before then [m.value] else []
  {
    hide Anchors, StateFor, LatestAgentMessage, ReaddedAnchor, LastIndexOf, AgentIsLatest, LastOf;
    var m := LastOf(h, Agent);
    ReaddedMeans(h, goal, drop);
    PositionMeans(h);
    AgentLatestMeans(h);
    AnchorsOfNone();
    if m.Some? {
      LastOfIs(h, Agent);
      AnchorsOfOne(m.value);
    }
  }

  lemma LastRealIsUser(h: seq<Item>)
    ensures LastOf(h, Real).Some? ==> LastOf(h, Real).value.User?
  {
  }

  lemma AgentLatestMeans(h: seq<Item>)
    ensures AgentIsLatest(h) ==> LastOf(h, Agent).Some?
  {
    MessagesAnchors(h);
  }

  lemma LastOfIs(h: seq<Item>, kind: Kind)
    ensures LastOf(h, kind).Some? ==> Is(kind, LastOf(h, kind).value)
  {
  }

  /** One compaction leaves exactly the carried anchors, provided the carried query still counts as a
      real turn. */
  lemma CompactedAnchors(h: seq<Item>, drop: bool, input: Input)
    requires input.system.System?
    requires LastOf(h, Real).Some? ==> IsRealUserTurn(CarriedItem(LastOf(h, Real).value))
    ensures Anchors(CompactedHistory(input, StateFor(h, None, drop))) == Carry(h)
  {
    hide Anchors, StateFor, CompactedHistory, QueryPart, AnchorBefore, AnchorAfter, AgentIsLatest, LastOf, IsRealUserTurn, CarriedItem;
    var st := StateFor(h, None, drop);
    CompactedAnchorsSplit(input, st);
    AgentSides(h, None, drop);
    QueryPartMeans(h, drop);
    AgentLatestMeans(h);
    AnchorsOfNone();
    var human := LastOf(h, Real);
    LastRealIsUser(h);
    if human.Some? {
      AnchorsOfOne(CarriedItem(human.value));
    }
    var b, q, a, r := Anchors(AnchorBefore(st)), Anchors(QueryPart(st)), Anchors(AnchorAfter(st)), Anchors(st.recent);
    assert b + q + a + r == b + q + (a + r);
    NoHumanMeansAgentLatest(h);
  }

  lemma NoHumanMeansAgentLatest(h: seq<Item>)
    ensures LastOf(h, Real).None? && LastOf(h, Agent).Some? ==> AgentIsLatest(h)
  {
    PositionMeans(h);
    LastOfIs(h, Either);
    hide IsRealUserTurn;
    if LastOf(h, Real).None? && LastOf(h, Agent).Some? {
      var i := LastIndexOf(h, Either).value;
      assert !Is(Real, h[i]);
    }
  }

  lemma AnchorsOfNone()
    ensures Anchors([]) == []
  {
  }

  // ----- the carried query is a fixed point

  /** The query comes back from its wrapper, and a files block put before it opens no wrapper. */
  predicate Survives(turn: Item)
    requires turn.User?
  {
    var query, files := ExtractUserQuery(UserText(turn)), TagBlock(UserText(turn), IMAGE_FILES);
    Carriable(query) && (files.Some? && !Contains(query, files.value) ==> !Contains(files.value, QUERY_OPEN))
  }

  lemma {:induction false} ImagesHaveNoText(parts: seq<ContentPart>)
    requires forall p :: p in parts ==> p.Image?
    ensures TextsOf(parts) == [] && ImagesOf(parts) == parts
  {
    if parts != [] {
      assert parts[0] in parts;
      ImagesHaveNoText(parts[1..]);
    }
  }

  /** Text and images of a re-added query. */
  lemma QueryItemContent(images: ImageContext, query: string)
    requires forall p :: p in images.parts ==> p.Image?
    ensures UserText(LastQueryItem(images, query)) == QueryText(images, query)
    ensures ImagesOf(LastQueryItem(images, query).parts) == images.parts
  {
    hide QueryText;
    var item := LastQueryItem(images, query);
    ImagesHaveNoText(images.parts);
    assert item.parts[1..] == images.parts;
  }

  lemma PrefixedOpensLast(b: string, q: string)
    requires !Contains(b, QUERY_OPEN)
    ensures Find((b + "\n\n") + WrapUserQuery(q), QUERY_OPEN) == Some(|b| + 2)
  {
    hide OccursAt, WrapUserQuery;
    var w := WrapUserQuery(q);
    var text := (b + "\n\n") + w;
    assert text == (b + ['\n']) + ['\n'] + w && b + ['\n'] == b + ['\n'] + "";
    OpensWrapped(q);
    forall j: nat ensures OccursAt(text, QUERY_OPEN, j) <==> |b| + 2 <= j && OccursAt(w, QUERY_OPEN, j - |b| - 2) {
      NoStraddle(b + ['\n'], '\n', w, QUERY_OPEN, j);
      NoStraddle(b, '\n', "", QUERY_OPEN, j);
      if |b| < j {
        OccursNowhereBeyond("", QUERY_OPEN, j - |b| - 1);
      }
    }
    FirstOccurrence(text, QUERY_OPEN, 0, |b| + 2);
  }

  lemma OpensWrapped(q: string)
    ensures OccursAt(WrapUserQuery(q), QUERY_OPEN, 0)
  {
    assert WrapUserQuery(q)[0..|QUERY_OPEN|] == QUERY_OPEN;
  }

  /** A files block found in a wrapped query lies inside the query. */
  lemma BlockInWrapIsInQuery(q: string)
    ensures var block := TagBlock(WrapUserQuery(q), IMAGE_FILES); block.Some? ==> Contains(q, block.value)
  {
    hide OccursAt, Find, FindFrom;
    var text := WrapUserQuery(q);
    match TagBlockRange(text, IMAGE_FILES)
    case None =>
    case Some(r) =>
      var open, close := Open(IMAGE_FILES), Close(IMAGE_FILES);
      TagInWrapIsInQuery(q, open, r.start);
      TagInWrapIsInQuery(q, close, r.end - |close|);
      var off := |QUERY_OPEN| + 1;
      SliceOfWrap(q, r.start, r.end);
      OccursAsSlice(q, r.start - off, r.end - off);
  }

  lemma OccursAsSlice(q: string, lo: nat, hi: nat)
    requires lo <= hi <= |q|
    ensures Occurs(q, q[lo..hi])
  {
    assert OccursAt(q, q[lo..hi], lo);
  }

  lemma SliceOfWrap(q: string, lo: nat, hi: nat)
    requires |QUERY_OPEN| + 1 <= lo <= hi <= |QUERY_OPEN| + 1 + |q|
    ensures hi <= |WrapUserQuery(q)| && WrapUserQuery(q)[lo..hi] == q[lo - |QUERY_OPEN| - 1..hi - |QUERY_OPEN| - 1]
  {
  }

  lemma TagInWrapIsInQuery(q: string, tag: string, i: nat)
    requires tag == Open(IMAGE_FILES) || tag == Close(IMAGE_FILES)
    requires OccursAt(WrapUserQuery(q), tag, i)
    ensures |QUERY_OPEN| + 1 <= i && i + |tag| <= |QUERY_OPEN| + 1 + |q|
  {
    hide OccursAt;
    var after := q + ['\n'] + QUERY_CLOSE;
    TagLines();
    NoStraddle(QUERY_OPEN, '\n', after, tag, i);
    if OccursAt(QUERY_OPEN, tag, i) {
      OccurrenceInside(QUERY_OPEN, tag, i);
    }
    var j := i - |QUERY_OPEN| - 1;
    NoStraddle(q, '\n', QUERY_CLOSE, tag, j);
    if OccursAt(q, tag, j) {
      OccurrenceInside(q, tag, j);
    } else {
      OccurrenceInside(QUERY_CLOSE, tag, j - |q| - 1);
      OccurrenceChar(QUERY_CLOSE, tag, j - |q| - 1, 1);
    }
  }

  /** What the next compaction reads from the re-added query text. */
  lemma CarriedTextReads(images: ImageContext, q: string)
    requires Carriable(q)
    requires images.files.Some? ==> IsBlock(images.files.value)
    requires images.files.Some? && !Contains(q, images.files.value) ==> !Contains(images.files.value, QUERY_OPEN)
    ensures var text := QueryText(images, q);
            && ExtractUserQuery(text) == q
            && QueryText(ImageContext(images.parts, TagBlock(text, IMAGE_FILES), []), q) == text
            && (images.files.Some? && !Contains(q, images.files.value) ==> TagBlock(text, IMAGE_FILES) == images.files)
            && (!(images.files.Some? && !Contains(q, images.files.value)) && TagBlock(text, IMAGE_FILES).Some? ==>
                  Contains(q, TagBlock(text, IMAGE_FILES).value))
  {
    hide ExtractUserQuery, WrapUserQuery, Carriable, TagBlockRange, Contains, IsBlock;
    if images.files.Some? && !Contains(q, images.files.value) {
      var b := images.files.value;
      PrefixedOpensLast(b, q);
      ExtractReturnsExactlyCarriable(b + "\n\n", q);
      var rest := "\n\n" + WrapUserQuery(q);
      assert QueryText(images, q) == "" + b + rest;
      FirstBlockAround("", b, rest);
      assert ("" + b + rest)[0..|b|] == b;
    } else {
      WrapOpensFirst(q);
      ExtractReturnsExactlyCarriable("", q);
      assert "" + WrapUserQuery(q) == WrapUserQuery(q);
      BlockInWrapIsInQuery(q);
    }
  }

  lemma FoundBlockIsBlock(text: string)
    ensures TagBlock(text, IMAGE_FILES).Some? ==> IsBlock(TagBlock(text, IMAGE_FILES).value)
  {
    hide OccursAt;
    match TagBlockRange(text, IMAGE_FILES)
    case None =>
    case Some(r) =>
      var open, close, b := Open(IMAGE_FILES), Close(IMAGE_FILES), text[r.start..r.end];
      TagText(IMAGE_FILES);
      OpenInBlock(text, r, open, close);
      assert OccursAt(b, open, 0) by { OccursInSlice(text, open, r.start, r.end, 0); }
      assert OccursAt(b, close, |b| - |close|) by { OccursInSlice(text, close, r.start, r.end, |b| - |close|); }
      forall j: nat | j < |b| - |close| ensures !OccursAt(b, close, j) {
        OccursInSlice(text, close, r.start, r.end, j);
      }
      FirstOccurrence(b, open, 0, 0);
      FirstOccurrence(b, close, 0, |b| - |close|);
  }

  /** The opening tag of a found block lies inside it. */
  lemma OpenInBlock(text: string, r: Range, open: string, close: string)
    requires open == Open(IMAGE_FILES) && close == Close(IMAGE_FILES)
    requires OccursAt(text, open, r.start) && r.start + |close| <= r.end && OccursAt(text, close, r.end - |close|)
    ensures r.start + |open| <= r.end
  {
  }

  /** The re-added query is a real turn with the query and the images of the original, and re-adds
      as itself. */
  lemma CarriedIsFixedPoint(turn: Item)
    requires IsRealUserTurn(turn) && Survives(turn)
    ensures IsRealUserTurn(CarriedItem(turn)) && Survives(CarriedItem(turn))
    ensures CarriedItem(CarriedItem(turn)) == CarriedItem(turn)
    ensures ImagesOf(CarriedItem(turn).parts) == ImagesOf(turn.parts)
    ensures ExtractUserQuery(UserText(CarriedItem(turn))) == ExtractUserQuery(UserText(turn))
  {
    hide ExtractUserQuery, QueryText, Carriable, Contains, TagBlock, UserText, IsSyntheticQuery, IsBlock;
    var q, images := ExtractUserQuery(UserText(turn)), ImageContextOf(turn);
    var c := CarriedItem(turn);
    QueryItemContent(images, q);
    FoundBlockIsBlock(UserText(turn));
    CarriedTextReads(images, q);
    assert c.User? && c.reason == None && UserText(c) == QueryText(images, q) && ImagesOf(c.parts) == images.parts;
    assert ImageContextOf(c) == ImageContext(images.parts, TagBlock(QueryText(images, q), IMAGE_FILES), []);
  }

  // ----- any number of compactions

  /** One compaction and the items appended after it. */
  datatype Round = Round(input: Input, goal: Option<string>, dropRecent: bool, appended: seq<Item>)

  function Compact(h: seq<Item>, r: Round): seq<Item> {
    CompactedHistory(r.input, StateFor(h, r.goal, r.dropRecent)) + r.appended
  }

  function CompactAll(h: seq<Item>, rounds: seq<Round>): seq<Item>
    decreases |rounds|
  {
    if rounds == [] then h else CompactAll(Compact(h, rounds[0]), rounds[1..])
  }

  /** A system message heads each compaction, no goal objective overrides the query, and nothing
      human or agent-written follows. */
  ghost predicate Quiet(rounds: seq<Round>) {
    forall i :: 0 <= i < |rounds| ==>
      && rounds[i].input.system.System? && (rounds[i].goal.Some? ==> Trim(rounds[i].goal.value) == "")
      && forall x :: x in rounds[i].appended ==> !Is(Either, x)
  }

  lemma BlankGoal(h: seq<Item>, goal: Option<string>, drop: bool)
    requires goal.Some? ==> Trim(goal.value) == ""
    ensures StateFor(h, goal, drop) == StateFor(h, None, drop)
  {
    hide AttachedPaths, BlockPaths, MessagesSinceAnchor, LatestAgentMessage, ExtractUserQuery, ImageContextOf, Trim;
  }

  lemma CompactAnchors(h: seq<Item>, r: Round)
    requires Quiet([r])
    requires LastOf(h, Real).Some? ==> Survives(LastOf(h, Real).value)
    ensures Anchors(Compact(h, r)) == Carry(h)
  {
    hide Anchors, StateFor, CompactedHistory, LastOf, Survives, Carry, CarriedItem, Is;
    assert [r][0] == r;
    LastRealIsUser(h);
    LastOfReal(h);
    if LastOf(h, Real).Some? {
      CarriedIsFixedPoint(LastOf(h, Real).value);
    }
    CompactedAnchors(h, r.dropRecent, r.input);
    BlankGoal(h, r.goal, r.dropRecent);
    AnchorsConcat(CompactedHistory(r.input, StateFor(h, None, r.dropRecent)), r.appended);
    NoAnchors(r.appended);
    assert Carry(h) + [] == Carry(h);
  }

  lemma LastOfReal(h: seq<Item>)
    ensures LastOf(h, Real).Some? ==> IsRealUserTurn(LastOf(h, Real).value)
  {
    LastOfIs(h, Real);
  }

  /** The turns the next compaction will find are the ones carried. */
  lemma CarriedTurns(h: seq<Item>, g: seq<Item>)
    requires Anchors(g) == Carry(h)
    requires LastOf(h, Real).Some? ==> IsRealUserTurn(CarriedItem(LastOf(h, Real).value))
    ensures LastOf(g, Agent) == LastOf(h, Agent)
    ensures LastOf(g, Real) == match LastOf(h, Real) case None => None case Some(c) => Some(CarriedItem(c))
    ensures LastOf(h, Agent).Some? ==> (AgentIsLatest(g) <==> AgentIsLatest(h))
  {
    hide Anchors, LastOf, CarriedItem, IsRealUserTurn;
    LastOfAnchors(g, Agent);
    LastOfAnchors(g, Real);
    LastOfAnchors(g, Either);
    LastRealIsUser(h);
    NoHumanMeansAgentLatest(h);
    var human, agent := LastOf(h, Real), LastOf(h, Agent);
    LastOfIs(h, Agent);
    if agent.Some? {
      RealIsNotAgent(agent.value);
      LastOfPair(agent.value, None);
    }
    if human.Some? {
      var q := CarriedItem(human.value);
      RealIsNotAgent(q);
      LastOfPair(q, None);
      if agent.Some? {
        LastOfPair(q, Some(agent.value));
        LastOfPair(agent.value, Some(q));
      }
    } else {
      LastOfEmpty();
    }
  }

  lemma LastOfEmpty()
    ensures forall kind :: LastOf([], kind) == None
  {
  }

  /** The last of one item, or of two. */
  lemma LastOfPair(x: Item, y: Option<Item>)
    ensures forall kind ::
              LastOf([x] + Optional(y), kind) ==
              if y.Some? && Is(kind, y.value) then y else if Is(kind, x) then Some(x) else None
    ensures y.None? ==> [x] + Optional(y) == [x]
    ensures y.Some? ==> [x] + Optional(y) == [x, y.value]
  {
    hide Is, LastOf;
    LastOfEmpty();
    forall kind
      ensures LastOf([x] + Optional(y), kind) ==
              if y.Some? && Is(kind, y.value) then y else if Is(kind, x) then Some(x) else None
    {
      LastOfSnoc([], x, kind);
      assert [] + [x] == [x];
      if y.Some? {
        LastOfSnoc([x], y.value, kind);
      } else {
        assert [x] + Optional(y) == [x];
      }
    }
  }

  /** However many compactions follow, with or without recent messages and whatever summaries,
      prefixes and reminders they add, the history holds exactly one copy of the latest agent message,
      unchanged, and the same carried query with its images, on the same sides of each other. */
  lemma {:induction false} AnchorsSurviveAllCompactions(h: seq<Item>, rounds: seq<Round>)
    requires rounds != [] && Quiet(rounds)
    requires LastOf(h, Real).Some? ==> Survives(LastOf(h, Real).value)
    ensures Anchors(CompactAll(h, rounds)) == Carry(h)
    decreases |rounds|
  {
    hide Anchors, LastOf, CarriedItem, IsRealUserTurn, Survives, Compact, Is;
    var g := Compact(h, rounds[0]);
    assert Quiet([rounds[0]]) by { QuietParts(rounds); }
    CompactAnchors(h, rounds[0]);
    LastRealIsUser(h);
    LastOfReal(h);
    if |rounds| == 1 {
      assert rounds[1..] == [];
    } else {
      assert Quiet(rounds[1..]) by { QuietParts(rounds); }
      if LastOf(h, Real).Some? {
        CarriedIsFixedPoint(LastOf(h, Real).value);
      }
      CarriedTurns(h, g);
      LastRealIsUser(g);
      AnchorsSurviveAllCompactions(g, rounds[1..]);
      assert Carry(g) == Carry(h);
    }
  }

  lemma QuietParts(rounds: seq<Round>)
    requires rounds != [] && Quiet(rounds)
    ensures Quiet([rounds[0]]) && Quiet(rounds[1..])
  {
    hide Is;
  }

  // ----- attached image paths

  lemma NumberedPathIsTrimmed(line: string)
    ensures NumberedPath(line).Some? ==> NumberedPath(line).value != "" && Trimmed(NumberedPath(line).value)
  {
    hide Trim, OccursAt, IsWhitespace, AllDigits, Find, Occurs;
    var t := Trim(line);
    match Find(t, ". ")
    case None =>
    case Some(i) => AfterPointSpace(t, i);
  }

  lemma AfterPointSpace(t: string, i: nat)
    requires Trimmed(t) && OccursAt(t, ". ", i)
    ensures i + 2 < |t| && Trim(t[i + 2..]) != ""
  {
    OccurrenceChar(t, ". ", i, 1);
    assert IsWhitespace(' ');
    assert i + 2 < |t|;
    var rest := t[i + 2..];
    assert rest[|rest| - 1] == t[|t| - 1];
    TrimKeepsVisible(rest);
  }

  lemma TrimKeepsVisible(s: string)
    requires s != "" && !IsWhitespace(s[|s| - 1])
    ensures Trim(s) != ""
  {
    hide IsWhitespace;
    TrimEmptyIff(s);
  }

  lemma {:induction false} PathsOfLinesTrimmed(lines: seq<string>, path: string)
    requires path in PathsOfLines(lines)
    ensures path != "" && Trimmed(path)
  {
    hide NumberedPath, Trimmed;
    NumberedPathIsTrimmed(lines[0]);
    if NumberedPath(lines[0]) != Some(path) {
      PathsOfLinesTrimmed(lines[1..], path);
    }
  }

  lemma {:induction false} ParsedPathsTrimmed(text: string, path: string)
    requires path in ParsePaths(text)
    ensures path != "" && Trimmed(path)
    decreases |text|
  {
    hide TagBlockRange, PathsOfLines, Lines, Trimmed;
    match TagBlockRange(text, IMAGE_FILES)
    case Some(r) =>
      if path in PathsOfLines(Lines(text[r.start..r.end])) {
        PathsOfLinesTrimmed(Lines(text[r.start..r.end]), path);
      } else {
        ParsedPathsTrimmed(text[r.end..], path);
      }
  }

  lemma {:induction false} StablePathReadable(paths: seq<string>, path: string)
    requires path in paths && Scrub(path) == path && path != "" && Trimmed(path)
    ensures path in Readable(paths)
  {
    hide Scrub, Trimmed;
    if paths[0] != path {
      StablePathReadable(paths[1..], path);
    } else {
      assert Trim(path) == path;
    }
  }

  /** A path the envelope leaves as it is stays mentioned after a compaction: in the carried query's
      own block or in the note of attached paths. */
  lemma NoPathLost(h: seq<Item>, goal: Option<string>, drop: bool, input: Input, path: string)
    requires Mentions(h, path) && Scrub(path) == path
    ensures Mentions(CompactedHistory(input, StateFor(h, goal, drop)), path)
  {
    hide Mentions, Scrub, ParsePaths, AttachedPaths, Readable, CompactedHistory, CarriedQuery, Trimmed;
    var (query, images) := CarriedQuery(h, goal);
    var exclude := BlockPaths(images);
    var st := StateFor(h, goal, drop);
    assert st.lastQuery == query && st.images == images.(attached := AttachedPaths(h, exclude));
    MentionedIsTrimmed(h, path);
    AttachedPathsMean(h, exclude);
    if path in exclude {
      CarriedBlockMentions(h, goal, drop, path);
      QueryPartMentioned(input, st, path);
    } else {
      assert path in st.images.attached;
      StablePathReadable(st.images.attached, path);
      NoteParses(st.images.attached);
      NotePartMentioned(input, st, path);
    }
  }

  /** So no such path is lost over any number of compactions, whatever is appended in between. */
  lemma {:induction false} NoPathLostEver(h: seq<Item>, rounds: seq<Round>, path: string)
    requires Mentions(h, path) && Scrub(path) == path
    ensures Mentions(CompactAll(h, rounds), path)
    decreases |rounds|
  {
    hide Mentions, Scrub, CompactedHistory;
    if rounds != [] {
      var r := rounds[0];
      NoPathLost(h, r.goal, r.dropRecent, r.input, path);
      MentionedBefore(CompactedHistory(r.input, StateFor(h, r.goal, r.dropRecent)), r.appended, path);
      NoPathLostEver(Compact(h, r), rounds[1..], path);
    }
  }

  lemma MentionedBefore(h: seq<Item>, appended: seq<Item>, path: string)
    requires Mentions(h, path)
    ensures Mentions(h + appended, path)
  {
    hide PathsOf;
    var i :| 0 <= i < |h| && path in PathsOf(h[i]);
    assert (h + appended)[i] == h[i];
  }

  lemma MentionedIsTrimmed(h: seq<Item>, path: string)
    requires Mentions(h, path)
    ensures path != "" && Trimmed(path)
  {
    hide ParsePaths, Trimmed;
    var i :| 0 <= i < |h| && path in PathsOf(h[i]);
    ParsedPathsTrimmed(UserText(h[i]), path);
  }

  lemma TaggedText(text: string, reason: SyntheticReason)
    ensures UserText(Tagged(text, reason)) == text
  {
    assert TextsOf([Text(text)]) == [text] + TextsOf([Text(text)][1..]) == [text];
  }

  lemma NotePartMentioned(input: Input, st: State, path: string)
    requires st.images.attached != [] && path in ParsePaths(RenderAttachedNote(st.images.attached))
    ensures Mentions(CompactedHistory(input, st), path)
  {
    hide ParsePaths, RenderAttachedNote, SummaryText, HeadPart, AnchorBefore, QueryPart, AnchorAfter;
    var note := Tagged(RenderAttachedNote(st.images.attached), CompactionMeta);
    TaggedText(RenderAttachedNote(st.images.attached), CompactionMeta);
    var out := CompactedHistory(input, st);
    assert note in TailPart(input, st) && note in out;
    var i :| 0 <= i < |out| && out[i] == note;
    assert path in PathsOf(out[i]);
  }

  lemma QueryPartMentioned(input: Input, st: State, path: string)
    requires st.lastQuery.Some? && path in PathsOf(LastQueryItem(st.images, st.lastQuery.value))
    ensures Mentions(CompactedHistory(input, st), path)
  {
    hide PathsOf, LastQueryItem, SummaryText, HeadPart, AnchorBefore, AnchorAfter, TailPart;
    var q := LastQueryItem(st.images, st.lastQuery.value);
    var out := CompactedHistory(input, st);
    assert q in QueryPart(st) && q in out;
    var i :| 0 <= i < |out| && out[i] == q;
    assert path in PathsOf(out[i]);
  }

  /** The paths left out of the note are those of the block the carried query keeps. */
  lemma CarriedBlockMentions(h: seq<Item>, goal: Option<string>, drop: bool, path: string)
    requires path in BlockPaths(CarriedQuery(h, goal).1)
    ensures var st := StateFor(h, goal, drop);
            st.lastQuery.Some? && path in PathsOf(LastQueryItem(st.images, st.lastQuery.value))
  {
    hide ParsePaths, AttachedPaths, MessagesSinceAnchor, LatestAgentMessage, ExtractUserQuery, WrapUserQuery, IsRealUserTurn, TagBlock, Contains, UserText, IsBlock;
    var (query, images) := CarriedQuery(h, goal);
    NoBlockInEmpty();
    var b := images.files.value;
    var i := LastIndexOf(h, Real).value;
    FoundBlockIsBlock(UserText(h[i]));
    var q := query.value;
    QueryItemContent(StateFor(h, goal, drop).images, q);
    if Contains(q, b) {
      var k := Find(q, b).value;
      BlockInQuery(q, b, k, path);
    } else {
      ParseFindsEmbedded("", b, "\n\n" + WrapUserQuery(q), path);
      assert "" + b + ("\n\n" + WrapUserQuery(q)) == b + "\n\n" + WrapUserQuery(q);
    }
  }

  lemma BlockInQuery(q: string, b: string, k: nat, path: string)
    requires IsBlock(b) && OccursAt(q, b, k) && path in ParsePaths(b)
    ensures path in ParsePaths(WrapUserQuery(q))
  {
    hide ParsePaths, IsBlock;
    var pre, post := QUERY_OPEN + ['\n'] + q[..k], q[k + |b|..] + ['\n'] + QUERY_CLOSE;
    ParseFindsEmbedded(pre, b, post, path);
    AroundBlock(q, b, k, QUERY_OPEN, QUERY_CLOSE);
  }

  lemma AroundBlock(q: string, b: string, k: nat, open: string, close: string)
    requires OccursAt(q, b, k)
    ensures (open + ['\n'] + q[..k]) + b + (q[k + |b|..] + ['\n'] + close) == Wrap(q, open, close)
  {
    assert q == q[..k] + b + q[k + |b|..];
  }
}
