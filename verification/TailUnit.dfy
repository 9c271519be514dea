/** What truncation keeps: the form of a truncated item, which items the truncated tail of a
    conversation holds, and what they cost. */
module TailUnit {
  import opened Wrappers
  import opened Conversation
  import opened Utf8
  import opened Budget

  // ----- a truncated item

  /** `r` is the longest prefix of the parts within the budget, then the next part cut to the rest of
      the budget, if that is a text and any budget is left. */
  ghost predicate IsOrderedCut(content: seq<OutputPart>, budget: nat, r: seq<OutputPart>) {
    exists n: nat :: IsCutAfter(content, budget, n, r)
  }

  ghost predicate IsCutAfter(content: seq<OutputPart>, budget: nat, n: nat, r: seq<OutputPart>) {
    && n <= |content| && Units(content[..n]) <= budget
    && (n < |content| ==> budget < Units(content[..n + 1]))
    && if n < |content| && content[n].OutText? && Units(content[..n]) < budget
       then |r| == n + 1 && r[..n] == content[..n] && r[n].OutText?
            && IsCut(content[n].text, budget - Units(content[..n]), r[n].text)
       else r == content[..n]
  }

  /** `r` is the item with each of its texts cut to the limit, or with its ordered output cut to it in
      total; everything else is as it was. */
  ghost predicate IsCutItem(item: Item, maxTokens: nat, r: Item) {
    var bytes := maxTokens * 4;
    match item
    case Assistant(content, calls, model) =>
      r.Assistant? && r.toolCalls == calls && r.model == model && IsCut(content, bytes, r.content)
    case ToolResult(id, content, images, ordered) =>
      && r.ToolResult? && r.toolCallId == id && r.images == images
      && if ordered == [] then r.ordered == [] && IsCut(content, bytes, r.content)
         else IsOrderedCut(ordered, bytes, r.ordered) && r.content == JoinTexts(r.ordered)
    case CustomToolOutput(id, itemId, name, output) =>
      && r.CustomToolOutput? && r.callId == id && r.itemId == itemId && r.name == name
      && IsOrderedCut(output, bytes, r.output)
    case User(parts, reason, turn) =>
      && r.User? && r.reason == reason && r.turn == turn && |r.parts| == |parts|
      && forall i :: 0 <= i < |parts| ==>
           if parts[i].Text? then r.parts[i].Text? && IsCut(parts[i].text, bytes, r.parts[i].text)
           else r.parts[i] == parts[i]
    case _ => r == item
  }

  lemma CutTextIsCut(text: string, bytes: nat)
    ensures IsCut(text, bytes, CutText(text, bytes))
  {
    hide IsCut;
    TruncatedIsCut(text, bytes);
  }

  lemma OrderedCutIsCut(content: seq<OutputPart>, budget: nat)
    ensures IsOrderedCut(content, budget, OrderedCut(content, budget))
  {
    hide OrderedCut, Units, CutText, IsCut;
    var n := OrderedCutIsLongest(content, budget);
    var r := OrderedCut(content, budget);
    if n < |content| && content[n].OutText? && Units(content[..n]) < budget {
      CutTextIsCut(content[n].text, budget - Units(content[..n]));
      assert r[..n] == content[..n];
    } else {
      assert r == content[..n];
    }
    assert IsCutAfter(content, budget, n, r);
  }

  lemma {:induction false} CutTextsAreCut(parts: seq<ContentPart>, bytes: nat)
    ensures |CutTexts(parts, bytes)| == |parts|
    ensures forall i :: 0 <= i < |parts| ==>
              var x, y := parts[i], CutTexts(parts, bytes)[i];
              if x.Text? then y.Text? && IsCut(x.text, bytes, y.text) else y == x
  {
    hide CutText, IsCut;
    if parts != [] {
      CutTextsAreCut(parts[1..], bytes);
      if parts[0].Text? {
        CutTextIsCut(parts[0].text, bytes);
      }
      var r := CutTexts(parts, bytes);
      forall i | 1 <= i < |parts| ensures r[i] == CutTexts(parts[1..], bytes)[i - 1] && parts[i] == parts[1..][i - 1] {}
    }
  }

  /** Truncating an item cuts its texts and nothing else. */
  lemma CutItemIsCut(item: Item, maxTokens: nat)
    ensures IsCutItem(item, maxTokens, CutItem(item, maxTokens))
  {
    hide CutText, CutTexts, OrderedCut, JoinTexts, IsCut, IsOrderedCut;
    var bytes := maxTokens * 4;
    match item
    case Assistant(content, _, _) => CutTextIsCut(content, bytes);
    case ToolResult(_, content, _, ordered) =>
      CutTextIsCut(content, bytes);
      OrderedCutIsCut(ordered, bytes);
    case CustomToolOutput(_, _, _, output) => OrderedCutIsCut(output, bytes);
    case User(parts, _, _) => CutTextsAreCut(parts, bytes);
    case _ =>
  }

  /** The content of a structured result is its texts in order, without its images. */
  lemma {:induction false} JoinTextsConcat(a: seq<OutputPart>, b: seq<OutputPart>)
    ensures JoinTexts(a + b) == JoinTexts(a) + JoinTexts(b)
    ensures forall t :: JoinTexts([OutText(t)]) == t
    ensures forall u, d :: JoinTexts([OutImage(u, d)]) == ""
  {
    forall t ensures JoinTexts([OutText(t)]) == t { assert [OutText(t)][1..] == []; }
    forall u, d ensures JoinTexts([OutImage(u, d)]) == "" { assert [OutImage(u, d)][1..] == []; }
    if a == [] {
      assert a + b == b;
    } else {
      JoinTextsConcat(a[1..], b);
      assert (a + b)[1..] == a[1..] + b;
    }
  }

  // ----- estimates

  lemma {:induction false} PartsEstimateConcat(a: seq<ContentPart>, b: seq<ContentPart>)
    ensures PartsBytes(a + b) == PartsBytes(a) + PartsBytes(b)
    ensures PartsImages(a + b) == PartsImages(a) + PartsImages(b)
  {
    hide Utf8Len;
    if a == [] {
      assert a + b == b;
    } else {
      PartsEstimateConcat(a[1..], b);
      assert (a + b)[1..] == a[1..] + b;
    }
  }

  /** A text adds a quarter of its bytes to the estimate of a user message, within one token of
      rounding, and an image adds 765 tokens. */
  lemma EstimateAdds(parts: seq<ContentPart>, part: ContentPart, reason: Option<SyntheticReason>, turn: TurnMeta)
    ensures var before, after := ItemTokens(User(parts, reason, turn)), ItemTokens(User(parts + [part], reason, turn));
            if part.Image? then after == before + 765
            else before + Utf8Len(part.text) / 4 <= after <= before + Utf8Len(part.text) / 4 + 1
  {
    hide Utf8Len;
    PartsEstimateConcat(parts, [part]);
    assert [part][1..] == [];
    assert PartsBytes([part]) == if part.Text? then Utf8Len(part.text) else 0;
    assert PartsImages([part]) == if part.Image? then 1 else 0;
  }

  lemma {:induction false} ArgumentsConcat(a: seq<ToolCall>, b: seq<ToolCall>)
    ensures ArgumentBytes(a + b) == ArgumentBytes(a) + ArgumentBytes(b)
  {
    hide Utf8Len;
    if a == [] {
      assert a + b == b;
    } else {
      ArgumentsConcat(a[1..], b);
      assert (a + b)[1..] == a[1..] + b;
    }
  }

  /** The arguments of a call count like the text of the assistant that makes it. */
  lemma EstimateAddsCall(content: string, calls: seq<ToolCall>, call: ToolCall, model: string)
    ensures var before, after := ItemTokens(Assistant(content, calls, model)), ItemTokens(Assistant(content, calls + [call], model));
            before + Utf8Len(call.arguments) / 4 <= after <= before + Utf8Len(call.arguments) / 4 + 1
    ensures ItemTokens(Assistant(content, [], model)) == Utf8Len(content) / 4
  {
    hide Utf8Len;
    ArgumentsConcat(calls, [call]);
    assert [call][1..] == [];
    assert ArgumentBytes([call]) == Utf8Len(call.arguments);
  }

  // ----- the tail of a conversation

  predicate HasCalls(item: Item) {
    item.Assistant? && item.toolCalls != []
  }

  /** `body[k..]` is the last unit of the body: the trailing tool outputs with the assistant that
      called for them, or the last item alone. */
  predicate IsLastUnit(body: seq<Item>, k: nat) {
    && k < |body| && (forall i :: k < i < |body| ==> IsOutput(body[i]))
    && if IsOutput(body[k]) then k > 0 ==> !IsOutput(body[k - 1]) && !HasCalls(body[k - 1])
       else k == |body| - 1 || HasCalls(body[k])
  }

  /** `per` is the largest equal share of `n` results that fits beside the owner, at least one token. */
  predicate IsShare(budget: nat, owner: nat, n: nat, per: nat) {
    && 1 <= per && (per == 1 || owner + per * n <= budget)
    && budget < owner + (per + 1) * n
  }

  lemma ShareMeans(budget: nat, owner: seq<Item>, n: nat)
    requires n > 0
    ensures IsShare(budget, Tokens(owner), n, Share(budget, owner, n))
  {
    hide Tokens, IsShare;
    var left := Minus(budget, Tokens(owner));
    DivisionFits(left, n);
    EqualShare(budget, Tokens(owner), n, left, left / n);
  }

  lemma EqualShare(budget: nat, owner: nat, n: nat, left: nat, whole: nat)
    requires n > 0 && left == Minus(budget, owner) && whole * n <= left < (whole + 1) * n
    ensures IsShare(budget, owner, n, Max(whole, 1))
  {
    if whole == 0 {
      OneMore(1, n);
    }
  }

  lemma DivisionFits(x: nat, n: nat)
    requires n > 0
    ensures x / n * n <= x < (x / n + 1) * n
  {
  }

  /** `r` holds every item of the last unit `body[k..]`, in order: the owner unchanged and each result
      cut to its share of the budget, or the one other item cut to the whole budget. */
  ghost predicate IsCutUnit(body: seq<Item>, k: nat, budget: nat, per: nat, r: seq<Item>)
    requires IsLastUnit(body, k)
  {
    && |r| == |body| - k
    && if !IsOutput(body[|body| - 1]) then IsCutItem(body[k], budget, r[0])
       else
         var owned := if IsOutput(body[k]) then 0 else 1;
         && IsShare(budget, Tokens(body[k..k + owned]), |r| - owned, per)
         && (owned == 1 ==> r[0] == body[k])
         && forall i :: owned <= i < |r| ==> IsCutItem(body[k + i], per, r[i])
  }

  lemma LastItemUnit(body: seq<Item>, budget: nat)
    requires body != [] && !IsOutput(body[|body| - 1])
    ensures IsLastUnit(body, |body| - 1) && IsCutUnit(body, |body| - 1, budget, 0, RecoveredTail(body, budget))
  {
    hide CutItem, RecoveredTail, IsCutItem;
    RecoveredTailSingle(body, budget);
    CutItemIsCut(body[|body| - 1], budget);
  }

  lemma RunUnit(front: seq<Item>, results: seq<Item>, k: nat)
    requires AllOutputs(results) && results != [] && (front != [] ==> !IsOutput(front[|front| - 1]))
    requires k == if front != [] && HasCalls(front[|front| - 1]) then |front| - 1 else |front|
    ensures IsLastUnit(front + results, k) && IsOutput((front + results)[|front| + |results| - 1])
    ensures IsOutput((front + results)[k]) <==> k == |front|
  {
    var body := front + results;
    forall i | |front| <= i < |body| ensures IsOutput(body[i]) {
      assert body[i] == results[i - |front|] && results[i - |front|] in results;
    }
  }

  lemma CutResults(results: seq<Item>, per: nat, i: nat)
    requires i < |results|
    ensures IsCutItem(results[i], per, CutItems(results, per)[i])
  {
    hide CutItem, CutItems, IsCutItem;
    CutItemIsCut(results[i], per);
  }

  lemma RunIsCutUnit(front: seq<Item>, results: seq<Item>, budget: nat) returns (k: nat, per: nat)
    requires AllOutputs(results) && results != [] && (front != [] ==> !IsOutput(front[|front| - 1]))
    ensures IsLastUnit(front + results, k) && IsCutUnit(front + results, k, budget, per, RecoveredTail(front + results, budget))
  {
    hide CutItem, CutItems, Share, RecoveredTail, IsCutItem, Tokens, IsShare, IsLastUnit, IsCutUnit;
    var body := front + results;
    RecoveredTailIs(front, results, budget);
    var owner := if front != [] && HasCalls(front[|front| - 1]) then [front[|front| - 1]] else [];
    k, per := |front| - |owner|, Share(budget, owner, |results|);
    RunUnit(front, results, k);
    ShareMeans(budget, owner, |results|);
    OwnedRun(front, results, owner, k);
    forall i | 0 <= i < |results| ensures IsCutItem(results[i], per, CutItems(results, per)[i]) {
      CutResults(results, per, i);
    }
    UnitAssembled(body, k, budget, per, owner, results, CutItems(results, per));
  }

  lemma OwnedRun(front: seq<Item>, results: seq<Item>, owner: seq<Item>, k: nat)
    requires owner == if front != [] && HasCalls(front[|front| - 1]) then [front[|front| - 1]] else []
    requires k == |front| - |owner|
    ensures (front + results)[k..] == owner + results
  {
  }

  lemma UnitAssembled(body: seq<Item>, k: nat, budget: nat, per: nat, owner: seq<Item>, results: seq<Item>, cut: seq<Item>)
    requires IsLastUnit(body, k) && IsOutput(body[|body| - 1]) && body[k..] == owner + results && |owner| <= 1
    requires IsOutput(body[k]) <==> owner == []
    requires |cut| == |results| && forall i :: 0 <= i < |cut| ==> IsCutItem(results[i], per, cut[i])
    requires IsShare(budget, Tokens(owner), |results|, per)
    ensures IsCutUnit(body, k, budget, per, owner + cut)
  {
    hide IsCutItem, Tokens, IsShare;
    assert k < |body|;
    hide IsLastUnit;
    var n, r := |owner|, owner + cut;
    assert body[k..k + n] == owner by { assert body[k..][..n] == body[k..k + n]; }
    forall i | n <= i < |r| ensures IsCutItem(body[k + i], per, r[i]) {
      assert body[k..][i] == body[k + i] == results[i - n];
    }
    assert n == 1 ==> r[0] == body[k..][0] == body[k];
  }

  /** The truncated tail of every nonempty body. */
  lemma TailUnitMeans(body: seq<Item>, budget: nat) returns (k: nat, per: nat)
    requires body != []
    ensures IsLastUnit(body, k) && IsCutUnit(body, k, budget, per, RecoveredTail(body, budget))
  {
    hide RecoveredTail, IsCutUnit, TrailingRun;
    var n := TrailingRun(body);
    var front, results := body[..|body| - n], body[|body| - n..];
    assert body == front + results;
    if n == 0 {
      LastItemUnit(body, budget);
      k, per := |body| - 1, 0;
    } else {
      k, per := RunIsCutUnit(front, results, budget);
    }
  }

  /** When no whole suffix survives, the fitted conversation is the system message, if it leads, and
      the truncated last unit of the rest. */
  lemma FitFallsBackToUnit(h: seq<Item>, maxTokens: nat) returns (k: nat, per: nat)
    requires Tokens(h) > maxTokens && !WholeSuffixSurvives(h, maxTokens) && Body(h) != []
    ensures var head, r := SystemHead(h), Fitted(h, maxTokens);
            && head <= r && IsLastUnit(Body(h), k)
            && IsCutUnit(Body(h), k, Minus(maxTokens, Tokens(head)), per, r[|head|..])
  {
    hide Tokens, RecoveredTail, IsCutUnit, IsLastUnit, KeepFrom;
    k, per := TailUnitMeans(Body(h), Minus(maxTokens, Tokens(SystemHead(h))));
    var head, r := SystemHead(h), Fitted(h, maxTokens);
    assert r[|head|..] == RecoveredTail(Body(h), Minus(maxTokens, Tokens(head)));
  }

  // ----- what the tail costs

  lemma {:induction false} OutputEstimate(parts: seq<OutputPart>)
    ensures OutputBytes(parts) + OutputImages(parts) * 3060 == Units(parts)
  {
    hide Utf8Len;
    if parts != [] { OutputEstimate(parts[1..]); }
  }

  lemma CutOutputWithin(item: Item, per: nat)
    requires IsOutput(item)
    ensures ItemTokens(CutItem(item, per)) <= per
  {
    hide CutText, OrderedCut, JoinTexts, Utf8Len, Units, OutputBytes, OutputImages;
    CutItemWithin(item, per);
    var r := CutItem(item, per);
    OutputEstimate(if r.ToolResult? then r.ordered else r.output);
  }

  lemma {:induction false} CutOutputsWithin(items: seq<Item>, per: nat)
    requires forall x :: x in items ==> IsOutput(x)
    ensures Tokens(CutItems(items, per)) <= |items| * per
  {
    hide ItemTokens, CutItem;
    if items != [] {
      CutOutputWithin(items[0], per);
      CutOutputsWithin(items[1..], per);
      assert CutItems(items, per)[1..] == CutItems(items[1..], per);
      OneMore(|items| - 1, per);
    }
  }

  lemma OneMore(n: nat, per: nat)
    ensures (n + 1) * per == n * per + per
  {
  }

  /** A tail of tool outputs is cut to the budget in total, as soon as the budget covers the owner and
      one token for each result. */
  lemma TailRunWithin(body: seq<Item>, budget: nat, k: nat)
    requires IsLastUnit(body, k) && IsOutput(body[|body| - 1])
    requires var owned := if IsOutput(body[k]) then 0 else 1;
             Tokens(body[k..k + owned]) + (|body| - k - owned) <= budget
    ensures Tokens(RecoveredTail(body, budget)) <= budget
  {
    hide Tokens, RecoveredTail, Share, CutItems;
    var owned := if IsOutput(body[k]) then 0 else 1;
    var owner, results := body[k..k + owned], body[k + owned..];
    var front := body[..k + owned];
    assert body == front + results && results != [];
    forall x | x in results ensures IsOutput(x) {
      var i :| 0 <= i < |results| && results[i] == x;
      assert x == body[k + owned + i];
    }
    RecoveredTailIs(front, results, budget);
    assert owned == 1 ==> owner == [front[|front| - 1]];
    var n, per := |results|, Share(budget, owner, |results|);
    ShareMeans(budget, owner, n);
    CutOutputsWithin(results, per);
    TokensConcat(owner, CutItems(results, per));
    ShareCovers(budget, Tokens(owner), n, per);
  }

  lemma ShareCovers(budget: nat, owner: nat, n: nat, per: nat)
    requires IsShare(budget, owner, n, per) && owner + n <= budget
    ensures owner + n * per <= budget
  {
    assert per * n == n * per;
  }
}
