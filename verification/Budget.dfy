/** Fitting a history into a token budget: `fit_conversation_to_budget` and the truncation of the
    last turn it falls back to. */
module Budget {
  import opened Wrappers
  import opened Conversation
  import opened ToolPairing
  import opened Utf8

  const BYTES_PER_TOKEN: nat := 4
  const IMAGE_TOKEN_ESTIMATE: nat := 765

  // ----- token estimates

  function PartsBytes(parts: seq<ContentPart>): nat {
    if parts == [] then 0
    else (if parts[0].Text? then Utf8Len(parts[0].text) else 0) + PartsBytes(parts[1..])
  }

  function PartsImages(parts: seq<ContentPart>): nat {
    if parts == [] then 0 else (if parts[0].Image? then 1 else 0) + PartsImages(parts[1..])
  }

  function OutputBytes(parts: seq<OutputPart>): nat {
    if parts == [] then 0
    else (if parts[0].OutText? then Utf8Len(parts[0].text) else 0) + OutputBytes(parts[1..])
  }

  function OutputImages(parts: seq<OutputPart>): nat {
    if parts == [] then 0 else (if parts[0].OutImage? then 1 else 0) + OutputImages(parts[1..])
  }

  function ArgumentBytes(calls: seq<ToolCall>): nat {
    if calls == [] then 0 else Utf8Len(calls[0].arguments) + ArgumentBytes(calls[1..])
  }

  function Max(a: nat, b: nat): nat {
    if a < b then b else a
  }

  /** `estimate_item_tokens`. */
  function ItemTokens(item: Item): nat {
    match item
    case System(content) => Utf8Len(content) / BYTES_PER_TOKEN
    case User(parts, _, _) => PartsBytes(parts) / BYTES_PER_TOKEN + PartsImages(parts) * IMAGE_TOKEN_ESTIMATE
    case Assistant(content, calls, _) => (Utf8Len(content) + ArgumentBytes(calls)) / BYTES_PER_TOKEN
    case ToolResult(_, content, _, ordered) =>
      if ordered == [] then Utf8Len(content) / BYTES_PER_TOKEN
      else OutputBytes(ordered) / BYTES_PER_TOKEN + OutputImages(ordered) * IMAGE_TOKEN_ESTIMATE
    case CustomToolOutput(_, _, _, output) =>
      OutputBytes(output) / BYTES_PER_TOKEN + OutputImages(output) * IMAGE_TOKEN_ESTIMATE
    case BackendToolCall(contentLen) => contentLen / BYTES_PER_TOKEN
    case Reasoning(summary, encrypted) =>
      Max(Utf8Len(summary), (if encrypted.Some? then Utf8Len(encrypted.value) else 0) * 3 / 4) / BYTES_PER_TOKEN
  }

  function Tokens(items: seq<Item>): nat {
    if items == [] then 0 else ItemTokens(items[0]) + Tokens(items[1..])
  }

  lemma {:induction false} TokensConcat(a: seq<Item>, b: seq<Item>)
    ensures Tokens(a + b) == Tokens(a) + Tokens(b)
  {
    hide ItemTokens;
    if a == [] {
      assert a + b == b;
    } else {
      TokensConcat(a[1..], b);
      assert (a + b)[1..] == a[1..] + b;
    }
  }

  // ----- truncate_ordered_content_to_tokens

  const IMAGE_UNITS: nat := IMAGE_TOKEN_ESTIMATE * BYTES_PER_TOKEN

  /** Bytes of text plus the byte equivalent of images. */
  function PartUnits(part: OutputPart): nat {
    if part.OutText? then Utf8Len(part.text) else IMAGE_UNITS
  }

  function Units(parts: seq<OutputPart>): nat {
    if parts == [] then 0 else PartUnits(parts[0]) + Units(parts[1..])
  }

  function CutText(text: string, bytes: nat): (r: string)
    ensures Utf8Len(r) <= bytes
    ensures Utf8Len(text) <= bytes ==> r == text
  {
    match TruncateText(text, bytes) case Some(t) => t case None => text
  }

  /** What `truncate_ordered_content_to_tokens` keeps, given the units left. */
  function OrderedCut(content: seq<OutputPart>, remaining: nat): seq<OutputPart> {
    if content == [] then []
    else if PartUnits(content[0]) <= remaining then
      [content[0]] + OrderedCut(content[1..], remaining - PartUnits(content[0]))
    else if content[0].OutText? && remaining > 0 then [OutText(CutText(content[0].text, remaining))]
    else []
  }

  method TruncateOrderedContentToTokens(content: seq<OutputPart>, maxTokens: nat) returns (retained: seq<OutputPart>)
    ensures retained == OrderedCut(content, maxTokens * BYTES_PER_TOKEN)
  {
    var remaining: nat := maxTokens * BYTES_PER_TOKEN;
    retained := [];
    for i := 0 to |content|
      invariant retained + OrderedCut(content[i..], remaining) == OrderedCut(content, maxTokens * BYTES_PER_TOKEN)
    {
      var part := content[i];
      assert content[i..][1..] == content[i + 1..];
      if PartUnits(part) > remaining {
        if part.OutText? && remaining > 0 {
          retained := retained + [OutText(CutText(part.text, remaining))];
        }
        return;
      }
      remaining := remaining - PartUnits(part);
      retained := retained + [part];
    }
  }

  /** The units of what is kept never exceed the budget. */
  lemma {:induction false} OrderedCutWithin(content: seq<OutputPart>, budget: nat)
    ensures Units(OrderedCut(content, budget)) <= budget
  {
    hide Utf8Len, CutText;
    var cut := OrderedCut(content, budget);
    if content != [] {
      if PartUnits(content[0]) <= budget {
        OrderedCutWithin(content[1..], budget - PartUnits(content[0]));
        assert cut[1..] == OrderedCut(content[1..], budget - PartUnits(content[0]));
      } else if cut != [] {
        assert cut[1..] == [];
      }
    }
  }

  /** The result is the longest prefix within the budget, followed by the part that did not fit when
      that is a text and some budget is left, cut to that rest. */
  lemma {:induction false} OrderedCutIsLongest(content: seq<OutputPart>, budget: nat) returns (n: nat)
    ensures n <= |content| && Units(content[..n]) <= budget
    ensures n < |content| ==> budget < Units(content[..n + 1])
    ensures OrderedCut(content, budget) == content[..n] +
              if n < |content| && content[n].OutText? && Units(content[..n]) < budget
              then [OutText(CutText(content[n].text, budget - Units(content[..n])))] else []
  {
    hide CutText, PartUnits, Units;
    NoUnits();
    if content == [] {
      n := 0;
    } else {
      var x, t := content[0], content[1..];
      assert content == [x] + t && content[..0] == [] && content[..1] == [x] && [x][1..] == [];
      if PartUnits(x) <= budget {
        var m := OrderedCutIsLongest(t, budget - PartUnits(x));
        n := m + 1;
        UnitsCons(x, t[..m]);
        ConsPrefix(x, t, m);
        if m < |t| {
          UnitsCons(x, t[..m + 1]);
          ConsPrefix(x, t, m + 1);
          assert content[n] == t[m];
        }
      } else {
        n := 0;
        UnitsCons(x, []);
        assert [x] + [] == [x];
      }
    }
  }

  lemma NoUnits()
    ensures Units([]) == 0
  {
  }

  lemma ConsPrefix(x: OutputPart, t: seq<OutputPart>, m: nat)
    requires m <= |t|
    ensures ([x] + t)[..m + 1] == [x] + t[..m]
  {
  }

  lemma UnitsCons(x: OutputPart, t: seq<OutputPart>)
    ensures Units([x] + t) == PartUnits(x) + Units(t)
  {
    assert ([x] + t)[1..] == t;
  }

  // ----- truncate_item_to_tokens

  function JoinTexts(parts: seq<OutputPart>): string {
    if parts == [] then "" else (if parts[0].OutText? then parts[0].text else "") + JoinTexts(parts[1..])
  }

  function CutTexts(parts: seq<ContentPart>, bytes: nat): seq<ContentPart> {
    if parts == [] then []
    else [if parts[0].Text? then Text(CutText(parts[0].text, bytes)) else parts[0]] + CutTexts(parts[1..], bytes)
  }

  /** `truncate_item_to_tokens`. */
  function CutItem(item: Item, maxTokens: nat): (r: Item)
    ensures IsOutput(r) == IsOutput(item) && r.Assistant? == item.Assistant?
    ensures item.Assistant? ==> r.toolCalls == item.toolCalls
    ensures item.ToolResult? ==> r.ToolResult? && r.toolCallId == item.toolCallId
    ensures item.CustomToolOutput? ==> r.CustomToolOutput? && r.callId == item.callId
  {
    var bytes := maxTokens * BYTES_PER_TOKEN;
    match item
    case ToolResult(id, content, images, ordered) =>
      if ordered == [] then ToolResult(id, CutText(content, bytes), images, [])
      else
        var cut := OrderedCut(ordered, bytes);
        ToolResult(id, JoinTexts(cut), images, cut)
    case CustomToolOutput(id, itemId, name, output) => CustomToolOutput(id, itemId, name, OrderedCut(output, bytes))
    case Assistant(content, calls, model) => Assistant(CutText(content, bytes), calls, model)
    case User(parts, reason, turn) => User(CutTexts(parts, bytes), reason, turn)
    case _ => item
  }

  lemma {:induction false} JoinedWithinUnits(parts: seq<OutputPart>)
    ensures Utf8Len(JoinTexts(parts)) <= Units(parts)
  {
    hide Utf8Len;
    if parts == [] {
      NoBytes();
    } else {
      var first := if parts[0].OutText? then parts[0].text else "";
      NoBytes();
      JoinedWithinUnits(parts[1..]);
      Utf8LenConcat(first, JoinTexts(parts[1..]));
    }
  }

  lemma NoBytes()
    ensures Utf8Len("") == 0
  {
  }

  lemma {:induction false} CutTextsWithin(parts: seq<ContentPart>, bytes: nat)
    ensures |CutTexts(parts, bytes)| == |parts|
    ensures forall i :: 0 <= i < |parts| ==>
              var x, y := parts[i], CutTexts(parts, bytes)[i];
              if x.Text? then y.Text? && Utf8Len(y.text) <= bytes && (Utf8Len(x.text) <= bytes ==> y == x) else y == x
  {
    hide Utf8Len, CutText;
    if parts != [] {
      CutTextsWithin(parts[1..], bytes);
      var r := CutTexts(parts, bytes);
      assert r[1..] == CutTexts(parts[1..], bytes);
      forall i | 1 <= i < |parts| ensures r[i] == CutTexts(parts[1..], bytes)[i - 1] && parts[i] == parts[1..][i - 1] {}
    }
  }

  /** Every text of a truncated item is within the limit, and so are the texts and images of a
      structured output in total; each text part of a user message is cut by itself. */
  lemma CutItemWithin(item: Item, maxTokens: nat)
    ensures var r, bytes := CutItem(item, maxTokens), maxTokens * BYTES_PER_TOKEN;
            match item
            case ToolResult(id, _, images, ordered) =>
              && r.ToolResult? && r.toolCallId == id && r.images == images
              && Utf8Len(r.content) <= bytes && Units(r.ordered) <= bytes && (r.ordered == [] || ordered != [])
            case CustomToolOutput(id, itemId, name, _) =>
              && r.CustomToolOutput? && r.callId == id && r.itemId == itemId && r.name == name
              && Units(r.output) <= bytes
            case Assistant(_, calls, model) =>
              r.Assistant? && r.toolCalls == calls && r.model == model && Utf8Len(r.content) <= bytes
            case User(parts, reason, turn) =>
              && r.User? && r.reason == reason && r.turn == turn && |r.parts| == |parts|
              && forall i :: 0 <= i < |parts| ==>
                   if parts[i].Text? then r.parts[i].Text? && Utf8Len(r.parts[i].text) <= bytes else r.parts[i] == parts[i]
            case _ => r == item
  {
    hide Utf8Len, CutText, OrderedCut, JoinTexts, CutTexts;
    var bytes := maxTokens * BYTES_PER_TOKEN;
    NoUnits();
    match item
    case ToolResult(_, _, _, ordered) =>
      OrderedCutWithin(ordered, bytes);
      JoinedWithinUnits(OrderedCut(ordered, bytes));
    case CustomToolOutput(_, _, _, output) => OrderedCutWithin(output, bytes);
    case User(parts, _, _) => CutTextsWithin(parts, bytes);
    case _ =>
  }

  function CutItems(items: seq<Item>, maxTokens: nat): (r: seq<Item>)
    ensures |r| == |items| && forall i :: 0 <= i < |items| ==> r[i] == CutItem(items[i], maxTokens)
  {
    if items == [] then [] else [CutItem(items[0], maxTokens)] + CutItems(items[1..], maxTokens)
  }

  // ----- recover_truncated_tail_unit

  /** Length of the run of outputs at the end of `body`. */
  function TrailingRun(body: seq<Item>): (n: nat)
    ensures n <= |body| && AllOutputs(body[|body| - n..])
    ensures n < |body| ==> !IsOutput(body[|body| - n - 1])
  {
    if body != [] && IsOutput(body[|body| - 1]) then
      var n := TrailingRun(body[..|body| - 1]);
      assert body[|body| - n - 1..] == body[..|body| - 1][|body| - 1 - n..] + [body[|body| - 1]];
      n + 1
    else 0
  }

  function Minus(a: nat, b: nat): nat {
    if a < b then 0 else a - b
  }

  /** The share of each of `n` results once the owner is paid for, at least one token. */
  function Share(budget: nat, owner: seq<Item>, n: nat): nat
    requires n > 0
  {
    Max(Minus(budget, Tokens(owner)) / n, 1)
  }

  function RecoveredTail(body: seq<Item>, budget: nat): seq<Item> {
    var n := TrailingRun(body);
    var k := |body| - n;
    if n == 0 then if body == [] then [] else [CutItem(body[k - 1], budget)]
    else
      var owner := if k > 0 && body[k - 1].Assistant? && body[k - 1].toolCalls != [] then [body[k - 1]] else [];
      owner + CutItems(body[k..], Share(budget, owner, n))
  }

  lemma {:induction false} TrailingRunIs(body: seq<Item>, results: seq<Item>)
    requires AllOutputs(results)
    requires body != [] ==> !IsOutput(body[|body| - 1])
    ensures TrailingRun(body + results) == |results|
  {
    if results == [] {
      assert body + results == body;
    } else {
      var n := |results| - 1;
      assert results[n] in results;
      TrailingRunIs(body, results[..n]);
      assert (body + results)[..|body| + n] == body + results[..n];
    }
  }

  /** The tail unit of a body split into what precedes its trailing run and that run. */
  lemma RecoveredTailIs(body: seq<Item>, results: seq<Item>, budget: nat)
    requires AllOutputs(results) && results != []
    requires body != [] ==> !IsOutput(body[|body| - 1])
    ensures var owner := if body != [] && body[|body| - 1].Assistant? && body[|body| - 1].toolCalls != [] then [body[|body| - 1]] else [];
            RecoveredTail(body + results, budget) ==
            owner + CutItems(results, Share(budget, owner, |results|))
  {
    hide CutItems, Share, TrailingRun, AllOutputs;
    TrailingRunIs(body, results);
    assert (body + results)[|body|..] == results;
    assert body != [] ==> (body + results)[|body| - 1] == body[|body| - 1];
  }

  lemma RecoveredTailSingle(body: seq<Item>, budget: nat)
    requires body != [] ==> !IsOutput(body[|body| - 1])
    ensures RecoveredTail(body, budget) == if body == [] then [] else [CutItem(body[|body| - 1], budget)]
  {
    hide CutItem, TrailingRun;
    TrailingRunIs(body, []);
    assert body + [] == body;
  }

  method PopTrailingRun(tail: seq<Item>) returns (body: seq<Item>, results: seq<Item>)
    ensures tail == body + results && AllOutputs(results)
    ensures body != [] ==> !IsOutput(body[|body| - 1])
  {
    body, results := tail, [];
    while body != [] && IsOutput(body[|body| - 1])
      invariant tail == body + results && AllOutputs(results)
    {
      results := [body[|body| - 1]] + results;
      body := body[..|body| - 1];
    }
  }

  method RecoverTruncatedTailUnit(tail: seq<Item>, budget: nat) returns (unit: seq<Item>)
    ensures unit == RecoveredTail(tail, budget)
  {
    hide RecoveredTail, CutItem, Share, CutItems, AllOutputs;
    var body, results := PopTrailingRun(tail);
    if results == [] {
      assert tail == body;
      RecoveredTailSingle(body, budget);
      if body == [] {
        return [];
      }
      return [CutItem(body[|body| - 1], budget)];
    }
    RecoveredTailIs(body, results, budget);
    var owner := [];
    if body != [] && body[|body| - 1].Assistant? && body[|body| - 1].toolCalls != [] {
      owner := [body[|body| - 1]];
    }
    var per := Share(budget, owner, |results|);
    unit := owner;
    for i := 0 to |results|
      invariant unit == owner + CutItems(results, per)[..i]
    {
      unit := unit + [CutItem(results[i], per)];
    }
  }

  // ----- fit_conversation_to_budget

  /** Start of the longest suffix of `body` that costs at most `budget`. */
  function FittingStart(body: seq<Item>, budget: nat): (s: nat)
    ensures s <= |body| && Tokens(body[s..]) <= budget
    ensures forall j :: 0 <= j < s ==> budget < Tokens(body[j..])
  {
    if Tokens(body) <= budget then assert body[0..] == body; 0
    else
      var s := FittingStart(body[1..], budget);
      assert body[1..][s..] == body[s + 1..];
      assert forall j :: 1 <= j <= s ==> body[j..] == body[1..][j - 1..];
      assert body[0..] == body;
      s + 1
  }

  function SystemHead(h: seq<Item>): seq<Item> {
    if h != [] && h[0].System? then h[..1] else []
  }

  function Body(h: seq<Item>): seq<Item> {
    h[|SystemHead(h)|..]
  }

  /** Where the kept suffix of the body starts: past the outputs whose owner did not fit. */
  function KeepFrom(h: seq<Item>, maxTokens: nat): (k: nat)
    ensures k <= |Body(h)|
  {
    var s := FittingStart(Body(h), Minus(maxTokens, Tokens(SystemHead(h))));
    s + RunLength(Body(h)[s..])
  }

  function Fitted(h: seq<Item>, maxTokens: nat): seq<Item> {
    if Tokens(h) <= maxTokens then h
    else if KeepFrom(h, maxTokens) < |Body(h)| then SystemHead(h) + Body(h)[KeepFrom(h, maxTokens)..]
    else SystemHead(h) + RecoveredTail(Body(h), Minus(maxTokens, Tokens(SystemHead(h))))
  }

  lemma TokensCons(x: Item, t: seq<Item>)
    ensures Tokens([x] + t) == ItemTokens(x) + Tokens(t)
  {
    hide ItemTokens;
    assert ([x] + t)[1..] == t;
  }

  /** The backward loop: take items while they fit. */
  method LongestFittingSuffix(body: seq<Item>, budget: nat) returns (start: nat)
    ensures start == FittingStart(body, budget)
  {
    hide Tokens, ItemTokens, FittingStart;
    var remaining: nat := budget;
    start := |body|;
    TokensEmpty();
    assert body[|body|..] == [];
    while start > 0
      invariant 0 <= start <= |body|
      invariant remaining + Tokens(body[start..]) == budget
    {
      var i := start - 1;
      TokensCons(body[i], body[start..]);
      assert body[i..] == [body[i]] + body[start..];
      if ItemTokens(body[i]) > remaining {
        break;
      }
      remaining := remaining - ItemTokens(body[i]);
      start := i;
    }
    FittingStartIs(body, budget, start);
  }

  lemma TokensEmpty()
    ensures Tokens([]) == 0
  {
  }

  lemma FittingStartIs(body: seq<Item>, budget: nat, start: nat)
    requires start <= |body| && Tokens(body[start..]) <= budget
    requires start > 0 ==> budget < Tokens(body[start - 1..])
    ensures FittingStart(body, budget) == start
  {
    hide Tokens, FittingStart;
    var s := FittingStart(body, budget);
    forall j | 0 <= j < start ensures budget < Tokens(body[j..]) {
      TokensConcat(body[j..start - 1], body[start - 1..]);
      assert body[j..] == body[j..start - 1] + body[start - 1..];
    }
  }

  /** The forward loop: drop outputs whose assistant was cut off. */
  method SkipOutputs(body: seq<Item>, first: nat) returns (start: nat)
    requires first <= |body|
    ensures start == first + RunLength(body[first..])
  {
    start := first;
    while start < |body| && IsOutput(body[start])
      invariant first <= start <= |body|
      invariant start + RunLength(body[start..]) == first + RunLength(body[first..])
    {
      assert body[start..][1..] == body[start + 1..];
      start := start + 1;
    }
  }

  method FitConversationToBudget(conversation: seq<Item>, maxTokens: nat) returns (r: seq<Item>)
    ensures r == Fitted(conversation, maxTokens)
  {
    hide Tokens, RecoveredTail, FittingStart, RunLength;
    if Tokens(conversation) <= maxTokens {
      return conversation;
    }
    var head, body := [], conversation;
    if body != [] && body[0].System? {
      head, body := [body[0]], body[1..];
    }
    assert head == SystemHead(conversation) && body == Body(conversation);
    var budget := Minus(maxTokens, Tokens(head));
    var start := LongestFittingSuffix(body, budget);
    start := SkipOutputs(body, start);
    if start < |body| {
      r := head + body[start..];
    } else {
      var tail := RecoverTruncatedTailUnit(body, budget);
      r := head + tail;
    }
  }

  // ----- the main results about fitting

  /** Some whole items of the body survive the cut. */
  predicate WholeSuffixSurvives(h: seq<Item>, maxTokens: nat) {
    Tokens(h) > maxTokens && KeepFrom(h, maxTokens) < |Body(h)|
  }

  /** When whole items survive, the result is within the budget (or is the system prompt alone over
      it), and it is the longest suffix that fits, less the outputs it would have started with. */
  lemma FitIsLongestSuffix(h: seq<Item>, maxTokens: nat) returns (s: nat)
    requires WholeSuffixSurvives(h, maxTokens)
    ensures Tokens(Fitted(h, maxTokens)) <= Max(maxTokens, Tokens(SystemHead(h)))
    ensures s <= KeepFrom(h, maxTokens) && AllOutputs(Body(h)[s..KeepFrom(h, maxTokens)])
    ensures !IsOutput(Body(h)[KeepFrom(h, maxTokens)])
    ensures Fitted(h, maxTokens) == SystemHead(h) + Body(h)[KeepFrom(h, maxTokens)..]
    ensures Tokens(SystemHead(h) + Body(h)[s..]) <= Max(maxTokens, Tokens(SystemHead(h)))
    ensures forall j :: 0 <= j < s ==> maxTokens < Tokens(SystemHead(h) + Body(h)[j..])
  {
    hide Tokens, RecoveredTail, FittingStart;
    var head, body, k := SystemHead(h), Body(h), KeepFrom(h, maxTokens);
    var budget := Minus(maxTokens, Tokens(head));
    s := FittingStart(body, budget);
    assert body[s..k] == body[s..][..k - s];
    SuffixCosts(head, body, s, k);
    forall j | 0 <= j < s ensures maxTokens < Tokens(head + body[j..]) {
      TokensConcat(head, body[j..]);
    }
  }

  lemma SuffixCosts(head: seq<Item>, body: seq<Item>, s: nat, k: nat)
    requires s <= k <= |body|
    ensures Tokens(head + body[s..]) == Tokens(head) + Tokens(body[s..])
    ensures Tokens(head + body[k..]) == Tokens(head) + Tokens(body[k..])
    ensures Tokens(body[k..]) <= Tokens(body[s..])
  {
    hide Tokens;
    assert body[s..] == body[s..k] + body[k..];
    TokensConcat(body[s..k], body[k..]);
    TokensConcat(head, body[k..]);
    TokensConcat(head, body[s..]);
  }

  /** A leading system item stays first, and a nonempty body never becomes empty. */
  lemma FitKeepsHeadAndTail(h: seq<Item>, maxTokens: nat)
    ensures SystemHead(h) <= Fitted(h, maxTokens)
    ensures h != [] && h[0].System? ==> Fitted(h, maxTokens) != [] && Fitted(h, maxTokens)[0] == h[0]
    ensures Body(h) != [] ==> |SystemHead(h)| < |Fitted(h, maxTokens)|
  {
    hide ItemTokens, CutItem, TrailingRun;
  }

  lemma {:induction false} CutRunAdjacent(d: IdCodec, owner: Item, run: seq<Item>, maxTokens: nat)
    requires AllOutputs(run) && Adjacent(d, [owner] + run)
    ensures Adjacent(d, [owner] + CutItems(run, maxTokens))
  {
    hide CutItem;
    var h, g := [owner] + run, [owner] + CutItems(run, maxTokens);
    forall k | 0 < k < |h| ensures IsOutput(h[k]) && g[k] == CutItem(h[k], maxTokens) {
      assert h[k] == run[k - 1] && run[k - 1] in run;
    }
    forall i | 0 <= i < |g| && IsOutput(g[i]) ensures exists a :: AnsweredBy(d, RunOwner, g, a, i) {
      var a :| AnsweredBy(d, RunOwner, h, a, i);
      assert h[a].Assistant?;
      assert AnsweredBy(d, RunOwner, g, 0, i);
    }
  }

  /** In an adjacent history the item right before a run of outputs is the run's owner. */
  lemma RunHasOwner(d: IdCodec, h: seq<Item>, i: nat)
    requires Adjacent(d, h) && i < |h| && IsOutput(h[i])
    requires i > 0 ==> !IsOutput(h[i - 1])
    ensures i > 0 && h[i - 1].Assistant? && h[i - 1].toolCalls != []
  {
    var a :| AnsweredBy(d, RunOwner, h, a, i);
    assert a == i - 1;
  }

  lemma AdjacentTail(d: IdCodec, body: seq<Item>, budget: nat)
    requires Adjacent(d, body)
    ensures Adjacent(d, RecoveredTail(body, budget))
  {
    hide RecoveredTail, Share, CutItem, TrailingRun, Paired, CutItems;
    var k := |body| - TrailingRun(body);
    if k == |body| {
      RecoveredTailSingle(body, budget);
      NoOutputsPaired(d, RunOwner, RecoveredTail(body, budget));
    } else {
      var results := body[k..];
      assert body[k] == results[0] && results[0] in results;
      RunHasOwner(d, body, k);
      RecoveredTailIs(body[..k], results, budget);
      assert body[..k] + results == body;
      AdjacentSuffix(d, body, k - 1);
      assert body[k - 1..] == [body[k - 1]] + results;
      CutRunAdjacent(d, body[k - 1], results, Share(budget, [body[k - 1]], |results|));
    }
  }

  /** Fitting never separates an output from the assistant that called for it. */
  lemma FitKeepsAdjacent(d: IdCodec, h: seq<Item>, maxTokens: nat)
    requires Adjacent(d, h)
    ensures Adjacent(d, Fitted(h, maxTokens))
  {
    hide Tokens, RecoveredTail, FittingStart, RunLength, Paired;
    var head, body := SystemHead(h), Body(h);
    if Tokens(h) > maxTokens {
      NoOutputsPaired(d, RunOwner, head);
      BodyAdjacent(d, h);
      var k := KeepFrom(h, maxTokens);
      if k < |body| {
        var s := FittingStart(body, Minus(maxTokens, Tokens(head)));
        assert body[k] == body[s..][k - s];
        AdjacentSuffix(d, body, k);
        PairedConcat(d, RunOwner, head, body[k..]);
      } else {
        AdjacentTail(d, body, Minus(maxTokens, Tokens(head)));
        PairedConcat(d, RunOwner, head, RecoveredTail(body, Minus(maxTokens, Tokens(head))));
      }
    }
  }

  lemma BodyAdjacent(d: IdCodec, h: seq<Item>)
    requires Adjacent(d, h)
    ensures Adjacent(d, Body(h))
  {
    var off := |SystemHead(h)|;
    if off < |h| && IsOutput(h[off]) {
      RunHasOwner(d, h, off);
    } else {
      AdjacentSuffix(d, h, off);
    }
  }
}
