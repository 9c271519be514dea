/** Tool-call / tool-result pairing: the provider invariants and the passes that enforce them
    (`strip_displaced_tool_results`, `sanitize_compacted_history`, `validate_compacted_history`). */
module ToolPairing {
  import opened Conversation

  // ----- the provider invariants, by position

  /** Which assistants may own an output: only the one its contiguous run of outputs directly
      follows, or any earlier one. */
  datatype Rule = RunOwner | AnyEarlier

  ghost predicate AnsweredBy(d: IdCodec, rule: Rule, h: seq<Item>, a: int, i: int) {
    && 0 <= a < i < |h| && IsOutput(h[i])
    && OutputId(d, h[i]) in DeclaredIds(d, h[a])
    && (rule.RunOwner? ==> forall k :: a < k < i ==> IsOutput(h[k]))
  }

  ghost predicate Paired(d: IdCodec, rule: Rule, h: seq<Item>) {
    forall i :: 0 <= i < |h| && IsOutput(h[i]) ==> exists a :: AnsweredBy(d, rule, h, a, i)
  }

  /** Every output lies in the run right after an assistant that declares its id. */
  ghost predicate Adjacent(d: IdCodec, h: seq<Item>) {
    Paired(d, RunOwner, h)
  }

  /** Every output comes after some assistant that declares its id. */
  ghost predicate Preceded(d: IdCodec, h: seq<Item>) {
    Paired(d, AnyEarlier, h)
  }

  // ----- one scan, two rules

  /** Ids open after the prefix `h`. */
  function OpenIds(d: IdCodec, rule: Rule, h: seq<Item>): set<string> {
    if h == [] then {}
    else
      var x, rest := h[|h| - 1], h[..|h| - 1];
      if IsOutput(x) then OpenIds(d, rule, rest)
      else if rule.RunOwner? then DeclaredIds(d, x)
      else OpenIds(d, rule, rest) + DeclaredIds(d, x)
  }

  predicate Accepts(d: IdCodec, rule: Rule, h: seq<Item>, x: Item) {
    IsOutput(x) ==> OutputId(d, x) in OpenIds(d, rule, h)
  }

  /** The items the scan keeps. */
  function Kept(d: IdCodec, rule: Rule, h: seq<Item>): seq<Item> {
    if h == [] then []
    else
      var x, rest := h[|h| - 1], h[..|h| - 1];
      if Accepts(d, rule, rest, x) then Kept(d, rule, rest) + [x] else Kept(d, rule, rest)
  }

  /** The ids of the outputs the scan drops, in order. */
  function Dropped(d: IdCodec, rule: Rule, h: seq<Item>): seq<string> {
    if h == [] then []
    else
      var x, rest := h[|h| - 1], h[..|h| - 1];
      if Accepts(d, rule, rest, x) then Dropped(d, rule, rest) else Dropped(d, rule, rest) + [OutputId(d, x)]
  }

  ghost predicate Conforms(d: IdCodec, rule: Rule, h: seq<Item>) {
    h != [] ==> Accepts(d, rule, h[..|h| - 1], h[|h| - 1]) && Conforms(d, rule, h[..|h| - 1])
  }

  function NonOutputs(h: seq<Item>): seq<Item> {
    if h == [] then []
    else
      var x, rest := h[|h| - 1], h[..|h| - 1];
      if IsOutput(x) then NonOutputs(rest) else NonOutputs(rest) + [x]
  }

  ghost predicate IsSubsequence(g: seq<Item>, h: seq<Item>) {
    g == [] ||
    (h != [] &&
     ((g[|g| - 1] == h[|h| - 1] && IsSubsequence(g[..|g| - 1], h[..|h| - 1])) ||
      IsSubsequence(g, h[..|h| - 1])))
  }

  // ----- the passes, as the source runs them

  /** `strip_displaced_tool_results`. */
  method StripDisplacedToolResults(d: IdCodec, items: seq<Item>) returns (kept: seq<Item>, stripped: seq<string>)
    ensures kept == Kept(d, RunOwner, items) && stripped == Dropped(d, RunOwner, items)
  {
    var runIds := {};
    kept, stripped := [], [];
    for i := 0 to |items|
      invariant runIds == OpenIds(d, RunOwner, items[..i])
      invariant kept == Kept(d, RunOwner, items[..i])
      invariant stripped == Dropped(d, RunOwner, items[..i])
    {
      var item := items[i];
      assert items[..i + 1][..i] == items[..i];
      if item.Assistant? {
        runIds := CallIds(d, item.toolCalls);
        kept := kept + [item];
      } else if IsOutput(item) {
        if OutputId(d, item) in runIds {
          kept := kept + [item];
        } else {
          stripped := stripped + [OutputId(d, item)];
        }
      } else {
        runIds := {};
        kept := kept + [item];
      }
    }
    assert items[..|items|] == items;
  }

  /** `sanitize_compacted_history`. */
  method SanitizeCompactedHistory(d: IdCodec, items: seq<Item>) returns (kept: seq<Item>, stripped: seq<string>)
    ensures kept == Kept(d, AnyEarlier, items) && stripped == Dropped(d, AnyEarlier, items)
  {
    var seenIds := {};
    kept, stripped := [], [];
    for i := 0 to |items|
      invariant seenIds == OpenIds(d, AnyEarlier, items[..i])
      invariant kept == Kept(d, AnyEarlier, items[..i])
      invariant stripped == Dropped(d, AnyEarlier, items[..i])
    {
      var item := items[i];
      assert items[..i + 1][..i] == items[..i];
      if item.Assistant? {
        seenIds := seenIds + CallIds(d, item.toolCalls);
        kept := kept + [item];
      } else if IsOutput(item) {
        if OutputId(d, item) in seenIds {
          kept := kept + [item];
        } else {
          stripped := stripped + [OutputId(d, item)];
        }
      } else {
        kept := kept + [item];
      }
    }
    assert items[..|items|] == items;
  }

  /** `validate_compacted_history`. */
  method ValidateCompactedHistory(d: IdCodec, items: seq<Item>) returns (invalid: seq<string>)
    ensures invalid == Dropped(d, AnyEarlier, items)
    ensures invalid == [] <==> Preceded(d, items)
  {
    var seenIds := {};
    invalid := [];
    for i := 0 to |items|
      invariant seenIds == OpenIds(d, AnyEarlier, items[..i])
      invariant invalid == Dropped(d, AnyEarlier, items[..i])
    {
      var item := items[i];
      assert items[..i + 1][..i] == items[..i];
      if item.Assistant? {
        seenIds := seenIds + CallIds(d, item.toolCalls);
      } else if IsOutput(item) && OutputId(d, item) !in seenIds {
        invalid := invalid + [OutputId(d, item)];
      }
    }
    assert items[..|items|] == items;
    ConformsIffKept(d, AnyEarlier, items);
    PairedIffConforms(d, AnyEarlier, items);
  }

  // ----- the scan decides exactly the positional invariants

  lemma {:induction false} OpenIdsMeaning(d: IdCodec, rule: Rule, h: seq<Item>, x: Item)
    requires IsOutput(x)
    ensures OutputId(d, x) in OpenIds(d, rule, h) <==> exists a :: AnsweredBy(d, rule, h + [x], a, |h|)
  {
    if h != [] {
      var n := |h| - 1;
      var g := h[..n];
      OpenIdsMeaning(d, rule, g, x);
      if OutputId(d, x) in OpenIds(d, rule, h) {
        if IsOutput(h[n]) || (rule.AnyEarlier? && OutputId(d, x) in OpenIds(d, rule, g)) {
          var a :| AnsweredBy(d, rule, g + [x], a, n);
          assert forall k :: 0 <= k < n ==> (g + [x])[k] == (h + [x])[k];
          assert AnsweredBy(d, rule, h + [x], a, |h|);
        } else {
          assert AnsweredBy(d, rule, h + [x], n, |h|);
        }
      }
      if a :| AnsweredBy(d, rule, h + [x], a, |h|) {
        if a < n {
          assert (h + [x])[n] == h[n];
          assert forall k :: 0 <= k < n ==> (g + [x])[k] == (h + [x])[k];
          assert AnsweredBy(d, rule, g + [x], a, n);
        }
      }
    }
  }

  lemma {:induction false} PairedIffConforms(d: IdCodec, rule: Rule, h: seq<Item>)
    ensures Paired(d, rule, h) <==> Conforms(d, rule, h)
  {
    if h != [] {
      var n := |h| - 1;
      var g, x := h[..n], h[n];
      assert h == g + [x];
      PairedIffConforms(d, rule, g);
      forall i, a | 0 <= i < n ensures AnsweredBy(d, rule, h, a, i) <==> AnsweredBy(d, rule, g, a, i) {
      }
      if IsOutput(x) {
        OpenIdsMeaning(d, rule, g, x);
      }
      if Paired(d, rule, h) {
        forall i | 0 <= i < n && IsOutput(g[i]) ensures exists a :: AnsweredBy(d, rule, g, a, i) {
          assert IsOutput(h[i]);
          var a :| AnsweredBy(d, rule, h, a, i);
          assert AnsweredBy(d, rule, g, a, i);
        }
        assert Conforms(d, rule, h);
      }
      if Conforms(d, rule, h) {
        forall i | 0 <= i < |h| && IsOutput(h[i]) ensures exists a :: AnsweredBy(d, rule, h, a, i) {
          if i < n {
            assert IsOutput(g[i]);
            var a :| AnsweredBy(d, rule, g, a, i);
            assert AnsweredBy(d, rule, h, a, i);
          }
        }
      }
    }
  }

  lemma {:induction false} ConformsIffKept(d: IdCodec, rule: Rule, h: seq<Item>)
    ensures Conforms(d, rule, h) <==> Kept(d, rule, h) == h
    ensures Conforms(d, rule, h) <==> Dropped(d, rule, h) == []
    ensures |Kept(d, rule, h)| <= |h|
  {
    if h != [] {
      var n := |h| - 1;
      ConformsIffKept(d, rule, h[..n]);
      assert h == h[..n] + [h[n]];
    }
  }

  // ----- what the passes return

  /** One step of the scan, appended at the end. */
  lemma ScanSnoc(d: IdCodec, rule: Rule, h: seq<Item>, x: Item)
    ensures Kept(d, rule, h + [x]) == if Accepts(d, rule, h, x) then Kept(d, rule, h) + [x] else Kept(d, rule, h)
    ensures Conforms(d, rule, h + [x]) <==> Accepts(d, rule, h, x) && Conforms(d, rule, h)
    ensures NonOutputs(h + [x]) == if IsOutput(x) then NonOutputs(h) else NonOutputs(h) + [x]
    ensures OpenIds(d, rule, h + [x]) ==
            if IsOutput(x) then OpenIds(d, rule, h)
            else if rule.RunOwner? then DeclaredIds(d, x) else OpenIds(d, rule, h) + DeclaredIds(d, x)
  {
    assert (h + [x])[..|h|] == h;
  }

  lemma {:induction false} NonOutputsAreNot(h: seq<Item>)
    ensures forall x :: x in NonOutputs(h) ==> !IsOutput(x)
    ensures |NonOutputs(h)| <= |h|
  {
    if h != [] { NonOutputsAreNot(h[..|h| - 1]); }
  }

  /** The open ids are those of the items that are not outputs, so dropping outputs changes nothing. */
  lemma {:induction false} OpenIdsIgnoreOutputs(d: IdCodec, rule: Rule, h: seq<Item>)
    ensures OpenIds(d, rule, h) == OpenIds(d, rule, NonOutputs(h))
  {
    if h != [] {
      var n := |h| - 1;
      OpenIdsIgnoreOutputs(d, rule, h[..n]);
      ScanSnoc(d, rule, NonOutputs(h[..n]), h[n]);
    }
  }

  lemma {:induction false} KeptKeepsNonOutputs(d: IdCodec, rule: Rule, h: seq<Item>)
    ensures NonOutputs(Kept(d, rule, h)) == NonOutputs(h)
    ensures IsSubsequence(Kept(d, rule, h), h)
  {
    if h != [] {
      var n := |h| - 1;
      var r := Kept(d, rule, h[..n]);
      KeptKeepsNonOutputs(d, rule, h[..n]);
      ScanSnoc(d, rule, r, h[n]);
      assert (r + [h[n]])[..|r|] == r;
    }
  }

  lemma {:induction false} KeptConforms(d: IdCodec, rule: Rule, h: seq<Item>)
    ensures Conforms(d, rule, Kept(d, rule, h))
  {
    if h != [] {
      var g, x := h[..|h| - 1], h[|h| - 1];
      KeptConforms(d, rule, g);
      KeptKeepsNonOutputs(d, rule, g);
      OpenIdsIgnoreOutputs(d, rule, g);
      OpenIdsIgnoreOutputs(d, rule, Kept(d, rule, g));
      ScanSnoc(d, rule, Kept(d, rule, g), x);
    }
  }

  lemma SubsequenceSnoc(g: seq<Item>, h: seq<Item>, x: Item)
    ensures IsSubsequence(g, h) ==> IsSubsequence(g, h + [x]) && IsSubsequence(g + [x], h + [x])
  {
    assert (h + [x])[..|h|] == h && (g + [x])[..|g|] == g;
  }

  lemma {:induction false} SubsequenceNonOutputs(g: seq<Item>, h: seq<Item>)
    requires IsSubsequence(g, h)
    ensures |NonOutputs(g)| <= |NonOutputs(h)|
    decreases |h|
  {
    if g != [] {
      if IsSubsequence(g, h[..|h| - 1]) {
        SubsequenceNonOutputs(g, h[..|h| - 1]);
      } else {
        SubsequenceNonOutputs(g[..|g| - 1], h[..|h| - 1]);
      }
    }
  }

  /** The passes keep as much as any sub-history meeting the rule could: every conforming
      subsequence with all the non-output items is a subsequence of what the scan keeps. */
  lemma {:induction false} KeptIsGreatest(d: IdCodec, rule: Rule, g: seq<Item>, h: seq<Item>)
    requires IsSubsequence(g, h) && NonOutputs(g) == NonOutputs(h)
    requires Conforms(d, rule, g)
    ensures IsSubsequence(g, Kept(d, rule, h))
    decreases |h|
  {
    if g != [] {
      var g', h', x := g[..|g| - 1], h[..|h| - 1], h[|h| - 1];
      var r := Kept(d, rule, h');
      SubsequenceSnoc(g, r, x);
      if IsSubsequence(g, h') {
        SubsequenceNonOutputs(g, h');
        KeptIsGreatest(d, rule, g, h');
      } else {
        if !IsOutput(x) {
          assert NonOutputs(g)[..|NonOutputs(g)| - 1] == NonOutputs(g');
          assert NonOutputs(h)[..|NonOutputs(h)| - 1] == NonOutputs(h');
        }
        KeptIsGreatest(d, rule, g', h');
        OpenIdsIgnoreOutputs(d, rule, g');
        OpenIdsIgnoreOutputs(d, rule, h');
        SubsequenceSnoc(g', r, x);
        assert g == g' + [x];
      }
    }
  }

  // ----- the main results about the passes

  /** `strip_displaced_tool_results` returns the largest adjacent sub-history: adjacent, nothing
      but outputs gone, and containing every adjacent sub-history with the same other items. */
  lemma StripIsLargestAdjacent(d: IdCodec, h: seq<Item>)
    ensures Adjacent(d, Kept(d, RunOwner, h))
    ensures NonOutputs(Kept(d, RunOwner, h)) == NonOutputs(h) && IsSubsequence(Kept(d, RunOwner, h), h)
    ensures forall g :: IsSubsequence(g, h) && NonOutputs(g) == NonOutputs(h) && Adjacent(d, g) ==>
                          IsSubsequence(g, Kept(d, RunOwner, h))
  {
    LargestPaired(d, RunOwner, h);
  }

  /** `sanitize_compacted_history` likewise, for the weaker rule. */
  lemma SanitizeIsLargestPreceded(d: IdCodec, h: seq<Item>)
    ensures Preceded(d, Kept(d, AnyEarlier, h))
    ensures NonOutputs(Kept(d, AnyEarlier, h)) == NonOutputs(h) && IsSubsequence(Kept(d, AnyEarlier, h), h)
    ensures forall g :: IsSubsequence(g, h) && NonOutputs(g) == NonOutputs(h) && Preceded(d, g) ==>
                          IsSubsequence(g, Kept(d, AnyEarlier, h))
  {
    LargestPaired(d, AnyEarlier, h);
  }

  lemma LargestPaired(d: IdCodec, rule: Rule, h: seq<Item>)
    ensures Paired(d, rule, Kept(d, rule, h))
    ensures NonOutputs(Kept(d, rule, h)) == NonOutputs(h) && IsSubsequence(Kept(d, rule, h), h)
    ensures forall g :: IsSubsequence(g, h) && NonOutputs(g) == NonOutputs(h) && Paired(d, rule, g) ==>
                          IsSubsequence(g, Kept(d, rule, h))
  {
    KeptConforms(d, rule, h);
    PairedIffConforms(d, rule, Kept(d, rule, h));
    KeptKeepsNonOutputs(d, rule, h);
    forall g | IsSubsequence(g, h) && NonOutputs(g) == NonOutputs(h) && Paired(d, rule, g)
      ensures IsSubsequence(g, Kept(d, rule, h))
    {
      PairedIffConforms(d, rule, g);
      KeptIsGreatest(d, rule, g, h);
    }
  }

  /** Each pass leaves a history alone, and reports no id, exactly when the history already meets
      its invariant; so each pass is idempotent. */
  lemma PassesFixExactlyPaired(d: IdCodec, rule: Rule, h: seq<Item>)
    ensures Kept(d, rule, h) == h <==> Paired(d, rule, h)
    ensures Dropped(d, rule, h) == [] <==> Paired(d, rule, h)
    ensures Kept(d, rule, Kept(d, rule, h)) == Kept(d, rule, h)
  {
    PairedIffConforms(d, rule, h);
    ConformsIffKept(d, rule, h);
    KeptConforms(d, rule, h);
    ConformsIffKept(d, rule, Kept(d, rule, h));
  }

  lemma AdjacentIsPreceded(d: IdCodec, h: seq<Item>)
    requires Adjacent(d, h)
    ensures Preceded(d, h)
  {
    forall i | 0 <= i < |h| && IsOutput(h[i]) ensures exists a :: AnsweredBy(d, AnyEarlier, h, a, i) {
      var a :| AnsweredBy(d, RunOwner, h, a, i);
      assert AnsweredBy(d, AnyEarlier, h, a, i);
    }
  }

  /** What the strict pass keeps, the lenient pass keeps, and validation accepts it. */
  lemma SanitizeKeepsWhatStripKeeps(d: IdCodec, h: seq<Item>)
    ensures IsSubsequence(Kept(d, RunOwner, h), Kept(d, AnyEarlier, h))
    ensures Dropped(d, AnyEarlier, Kept(d, RunOwner, h)) == []
  {
    var r := Kept(d, RunOwner, h);
    StripIsLargestAdjacent(d, h);
    AdjacentIsPreceded(d, r);
    SanitizeIsLargestPreceded(d, h);
    PassesFixExactlyPaired(d, AnyEarlier, r);
  }

  // ----- cutting and joining

  lemma PairedConcat(d: IdCodec, rule: Rule, a: seq<Item>, b: seq<Item>)
    requires Paired(d, rule, a) && Paired(d, rule, b)
    ensures Paired(d, rule, a + b)
  {
    var h := a + b;
    forall i | 0 <= i < |h| && IsOutput(h[i]) ensures exists o :: AnsweredBy(d, rule, h, o, i) {
      if i < |a| {
        assert IsOutput(a[i]);
        var o :| AnsweredBy(d, rule, a, o, i);
        assert AnsweredBy(d, rule, h, o, i);
      } else {
        assert IsOutput(b[i - |a|]);
        var o :| AnsweredBy(d, rule, b, o, i - |a|);
        assert forall k :: 0 <= k < |b| ==> h[|a| + k] == b[k];
        assert AnsweredBy(d, rule, h, |a| + o, i);
      }
    }
  }

  /** A suffix that does not start inside a run keeps the owners of its outputs. */
  lemma AdjacentSuffix(d: IdCodec, h: seq<Item>, k: nat)
    requires Adjacent(d, h) && k <= |h|
    requires k < |h| ==> !IsOutput(h[k])
    ensures Adjacent(d, h[k..])
  {
    var t := h[k..];
    forall i | 0 <= i < |t| && IsOutput(t[i]) ensures exists o :: AnsweredBy(d, RunOwner, t, o, i) {
      var o :| AnsweredBy(d, RunOwner, h, o, k + i);
      assert k <= o;
      assert forall j :: 0 <= j < |t| ==> t[j] == h[k + j];
      assert AnsweredBy(d, RunOwner, t, o - k, i);
    }
  }

  lemma NoOutputsPaired(d: IdCodec, rule: Rule, h: seq<Item>)
    requires forall x :: x in h ==> !IsOutput(x)
    ensures Paired(d, rule, h)
  {
    assert forall i :: 0 <= i < |h| ==> h[i] in h;
  }
}
