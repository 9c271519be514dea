/** Fitting a conversation to a budget a second time changes nothing. */
module FitTwice {
  import opened Conversation
  import opened Utf8
  import opened Budget

  // ----- truncating an item twice

  lemma {:induction false} OrderedCutFixed(content: seq<OutputPart>, budget: nat)
    requires Units(content) <= budget
    ensures OrderedCut(content, budget) == content
  {
    hide PartUnits;
    if content != [] {
      OrderedCutFixed(content[1..], budget - PartUnits(content[0]));
    }
  }

  lemma CutTextsTwice(parts: seq<ContentPart>, bytes: nat)
    ensures CutTexts(CutTexts(parts, bytes), bytes) == CutTexts(parts, bytes)
  {
    hide CutTexts, Utf8Len;
    var once := CutTexts(parts, bytes);
    var twice := CutTexts(once, bytes);
    CutTextsWithin(parts, bytes);
    CutTextsWithin(once, bytes);
    forall i | 0 <= i < |parts| ensures twice[i] == once[i] {}
  }

  lemma CutItemTwice(item: Item, maxTokens: nat)
    ensures CutItem(CutItem(item, maxTokens), maxTokens) == CutItem(item, maxTokens)
  {
    hide CutTexts, OrderedCut, JoinTexts, Utf8Len, CutText;
    var bytes := maxTokens * BYTES_PER_TOKEN;
    match item
    case ToolResult(_, content, _, ordered) =>
      CutTextTwice(content, bytes);
      var cut := OrderedCut(ordered, bytes);
      OrderedCutWithin(ordered, bytes);
      OrderedCutFixed(cut, bytes);
      NothingJoined(bytes);
    case CustomToolOutput(_, _, _, output) =>
      OrderedCutWithin(output, bytes);
      OrderedCutFixed(OrderedCut(output, bytes), bytes);
    case Assistant(content, _, _) => CutTextTwice(content, bytes);
    case User(parts, _, _) => CutTextsTwice(parts, bytes);
    case _ =>
  }

  lemma CutTextTwice(text: string, bytes: nat)
    ensures CutText(CutText(text, bytes), bytes) == CutText(text, bytes)
  {
  }

  lemma NothingJoined(bytes: nat)
    ensures JoinTexts([]) == "" && CutText("", bytes) == ""
  {
    NoBytes();
  }

  lemma CutItemsTwice(items: seq<Item>, maxTokens: nat)
    requires AllOutputs(items)
    ensures CutItems(CutItems(items, maxTokens), maxTokens) == CutItems(items, maxTokens)
    ensures AllOutputs(CutItems(items, maxTokens))
  {
    hide CutItems;
    var once := CutItems(items, maxTokens);
    var twice := CutItems(once, maxTokens);
    forall i | 0 <= i < |items| ensures twice[i] == once[i] && IsOutput(once[i]) {
      assert items[i] in items;
      CutItemTwice(items[i], maxTokens);
    }
  }

  // ----- the truncated tail

  /** At most the first item is no tool output. */
  predicate OneUnit(t: seq<Item>) {
    forall i :: 1 <= i < |t| ==> IsOutput(t[i])
  }

  lemma OwnedRunTwice(owner: seq<Item>, results: seq<Item>, budget: nat)
    requires |owner| <= 1 && AllOutputs(results) && results != []
    requires owner != [] ==> owner[0].Assistant? && owner[0].toolCalls != []
    ensures var t := owner + CutItems(results, Share(budget, owner, |results|));
            RecoveredTail(t, budget) == t && OneUnit(t)
  {
    hide CutItem, CutItems, Share, RecoveredTail, OneUnit;
    var per := Share(budget, owner, |results|);
    var cut := CutItems(results, per);
    CutItemsTwice(results, per);
    assert owner != [] ==> [owner[|owner| - 1]] == owner;
    RecoveredTailIs(owner, cut, budget);
    OwnedRunIsUnit(owner, cut);
  }

  lemma OwnedRunIsUnit(owner: seq<Item>, run: seq<Item>)
    requires |owner| <= 1 && AllOutputs(run)
    ensures OneUnit(owner + run)
  {
    var t := owner + run;
    forall i | 1 <= i < |t| ensures IsOutput(t[i]) {
      assert t[i] == run[i - |owner|] && run[i - |owner|] in run;
    }
  }

  lemma RecoveredTwice(body: seq<Item>, budget: nat)
    ensures var t := RecoveredTail(body, budget); RecoveredTail(t, budget) == t && OneUnit(t)
  {
    hide CutItem, CutItems, Share, TrailingRun, RecoveredTail;
    var n := TrailingRun(body);
    var front, results := body[..|body| - n], body[|body| - n..];
    assert body == front + results;
    if n == 0 {
      assert body == front;
      RecoveredTailSingle(body, budget);
      if body == [] {
        RecoveredTailSingle([], budget);
      } else {
        var x := body[|body| - 1];
        CutItemTwice(x, budget);
        RecoveredTailSingle([CutItem(x, budget)], budget);
      }
    } else {
      RecoveredTailIs(front, results, budget);
      var owner := if front != [] && front[|front| - 1].Assistant? && front[|front| - 1].toolCalls != [] then [front[|front| - 1]] else [];
      OwnedRunTwice(owner, results, budget);
    }
  }

  // ----- fitting twice

  lemma {:induction false} RunOfOutputs(run: seq<Item>)
    requires AllOutputs(run)
    ensures RunLength(run) == |run|
  {
    if run != [] { RunOfOutputs(run[1..]); }
  }

  /** What is kept of one unit is all of it, or the unit is truncated as a whole. */
  lemma UnitKeptWhole(h: seq<Item>, maxTokens: nat)
    requires OneUnit(Body(h))
    ensures KeepFrom(h, maxTokens) == 0 || KeepFrom(h, maxTokens) == |Body(h)|
  {
    hide Tokens, FittingStart, SystemHead;
    var t := Body(h);
    var s := FittingStart(t, Minus(maxTokens, Tokens(SystemHead(h))));
    if s > 0 || (t != [] && IsOutput(t[0])) {
      assert AllOutputs(t[s..]);
      RunOfOutputs(t[s..]);
    }
  }

  lemma UnitFitted(head: seq<Item>, t: seq<Item>, maxTokens: nat)
    requires SystemHead(head + t) == head
    requires OneUnit(t) && RecoveredTail(t, Minus(maxTokens, Tokens(head))) == t
    ensures Fitted(head + t, maxTokens) == head + t
  {
    hide Tokens, FittingStart, KeepFrom, RecoveredTail;
    assert Body(head + t) == t;
    UnitKeptWhole(head + t, maxTokens);
    assert t[0..] == t;
  }

  lemma LoneSystem(x: Item, maxTokens: nat)
    requires x.System?
    ensures Fitted([x], maxTokens) == [x]
  {
    hide Tokens, FittingStart, RecoveredTail;
    assert Body([x]) == [];
    RecoveredTailSingle([], Minus(maxTokens, Tokens([x])));
    assert SystemHead([x]) == [x] && [x] + [] == [x];
  }

  /** A suffix that was kept is kept again, even where the system message alone is over the budget. */
  lemma SuffixFitted(h: seq<Item>, maxTokens: nat)
    requires WholeSuffixSurvives(h, maxTokens)
    ensures Fitted(Fitted(h, maxTokens), maxTokens) == Fitted(h, maxTokens)
  {
    hide Tokens, FittingStart, RecoveredTail, Fitted, KeepFrom;
    var head, k := SystemHead(h), KeepFrom(h, maxTokens);
    var t := Body(h)[k..];
    var s := FitIsLongestSuffix(h, maxTokens);
    var r := head + t;
    TokensConcat(head, t);
    FittedMeans(r, maxTokens);
    if Tokens(r) > maxTokens {
      assert Tokens(head) > maxTokens || Tokens(t) == 0;
      NoTokens();
      assert head != [];
      assert SystemHead(r) == head && Body(r) == t;
      FreeBodyKept(r, maxTokens);
    }
  }

  lemma NoTokens()
    ensures Tokens([]) == 0
  {
  }

  lemma FittedMeans(h: seq<Item>, maxTokens: nat)
    ensures Tokens(h) <= maxTokens ==> Fitted(h, maxTokens) == h
    ensures WholeSuffixSurvives(h, maxTokens) ==> Fitted(h, maxTokens) == SystemHead(h) + Body(h)[KeepFrom(h, maxTokens)..]
  {
    hide Tokens, FittingStart, RecoveredTail, KeepFrom;
  }

  lemma FreeBodyKept(h: seq<Item>, maxTokens: nat)
    requires Body(h) != [] && !IsOutput(Body(h)[0]) && Tokens(Body(h)) == 0
    ensures KeepFrom(h, maxTokens) == 0
  {
    hide Tokens;
    assert Body(h)[0..] == Body(h);
  }

  /** Fitting is idempotent, for every conversation and budget, the truncated tail included. */
  lemma FitIsIdempotent(h: seq<Item>, maxTokens: nat)
    ensures Fitted(Fitted(h, maxTokens), maxTokens) == Fitted(h, maxTokens)
  {
    hide Tokens, FittingStart, RecoveredTail, KeepFrom;
    if WholeSuffixSurvives(h, maxTokens) {
      SuffixFitted(h, maxTokens);
    } else if Tokens(h) > maxTokens {
      var head, budget := SystemHead(h), Minus(maxTokens, Tokens(SystemHead(h)));
      var t := RecoveredTail(Body(h), budget);
      RecoveredTwice(Body(h), budget);
      TailStart(Body(h), budget);
      if head == [] && t != [] && t[0].System? {
        assert head + t == [t[0]];
        LoneSystem(t[0], maxTokens);
      } else {
        UnitFitted(head, t, maxTokens);
      }
    }
  }

  /** A truncated tail that starts with a system message is that message. */
  lemma TailStart(body: seq<Item>, budget: nat)
    ensures var t := RecoveredTail(body, budget); t != [] && t[0].System? ==> |t| == 1
  {
    hide TrailingRun, CutItem, Share;
    var n := TrailingRun(body);
    if n > 0 {
      var results := body[|body| - n..];
      assert results[0] in results;
    }
  }
}
