/** The image budget as a policy over growing histories: what eviction leaves alone, what stays
    evicted as the history grows, and when the next request keeps the prefix of this one. */
module ImagePolicy {
  import opened Wrappers
  import opened Conversation
  import opened Strings
  import opened ImageBudget
  import opened ImageEviction

  // ----- limits

  const MAX_REQUEST_BYTES: nat := 50 * 1024 * 1024
  const TRIGGER_HEADROOM_BYTES: nat := 3 * 1024 * 1024
  const MIN_REQUEST_BYTES: nat := 4 * TRIGGER_HEADROOM_BYTES

  datatype Limits = Limits(trigger: nat, target: nat)

  /** `image_budget_limits`, on a machine whose `usize` ends at `usizeMax`: reclaiming always goes
      strictly below the trigger, and a body below the trigger leaves 3 MiB of the cap; a cap under
      12 MiB counts as 12 MiB, and no cap as 50 MiB. */
  function ImageBudgetLimits(maxRequestBytes: Option<nat>, usizeMax: nat): (r: Limits)
    ensures r.target < r.trigger
    ensures match maxRequestBytes
            case None => r.trigger == 49_283_072 && r.target == 26_214_400
            case Some(n) =>
              && (12_582_912 <= n <= usizeMax ==> r.trigger + 3_145_728 == n && n - 1 <= 2 * r.target <= n)
              && (n < 12_582_912 ==> r.trigger == 9_437_184 && r.target == 6_291_456)
  {
    match maxRequestBytes
    case None => Limits(MAX_REQUEST_BYTES - TRIGGER_HEADROOM_BYTES, MAX_REQUEST_BYTES / 2)
    case Some(n) =>
      var cap := if n <= usizeMax then n else usizeMax;
      var raised := if cap < MIN_REQUEST_BYTES then MIN_REQUEST_BYTES else cap;
      Limits(raised - TRIGGER_HEADROOM_BYTES, raised / 2)
  }

  // ----- applying the budget

  function Evicted(z: Sizes, t: Texts, h: seq<Item>, limits: Limits): nat {
    if BodySize(z, Fast, h) >= limits.trigger then EvictCount(z, t, h, limits.target) else 0
  }

  function Budgeted(z: Sizes, t: Texts, h: seq<Item>, limits: Limits): (r: seq<Item>)
    ensures |r| == |h|
  {
    EvictTimes(t, h, Evicted(z, t, h, limits))
  }

  datatype Outcome = Outcome(bodyBytes: nat, bodyBytesAfter: nat, inlineImages: nat, needsImageCompaction: bool, evicted: nat)

  /** `apply_image_budget_with_limits`. */
  method ApplyImageBudgetWithLimits(z: Sizes, t: Texts, items: array<Item>, limits: Limits) returns (o: Outcome)
    modifies items
    ensures items[..] == Budgeted(z, t, old(items[..]), limits)
    ensures o.bodyBytes == BodySize(z, Fast, old(items[..])) && o.bodyBytesAfter == BodySize(z, Fast, items[..])
    ensures o.inlineImages == |Urls(old(items[..]))|
    ensures o.needsImageCompaction <==> BodySize(z, Fast, old(items[..])) >= limits.trigger
    ensures o.evicted == Evicted(z, t, old(items[..]), limits)
  {
    hide BodySize, Urls, EvictCount;
    var bodyBytes := ConversationBodyBytes(z, items[..]);
    var inlineImages := |Urls(items[..])|;
    var evicted, after := 0, bodyBytes;
    if bodyBytes >= limits.trigger {
      evicted, after := CompactImagesToByteBudget(z, t, items, bodyBytes, limits.target);
    }
    o := Outcome(bodyBytes, after, inlineImages, bodyBytes >= limits.trigger, evicted);
  }

  /** Images after plus evicted images are the images before, oldest first; the body then fits the
      target unless it never reached the trigger or no image is left. */
  lemma BudgetKeepsNewest(z: Sizes, t: Texts, h: seq<Item>, limits: Limits)
    ensures Evicted(z, t, h, limits) <= |Urls(h)|
    ensures Urls(Budgeted(z, t, h, limits)) == Urls(h)[Evicted(z, t, h, limits)..]
    ensures BodySize(z, Fast, h) >= limits.trigger && Urls(Budgeted(z, t, h, limits)) != [] ==>
              BodySize(z, Fast, Budgeted(z, t, h, limits)) <= limits.target
  {
    hide BodySize, Urls, EvictCount;
    EvictCountIsLeast(z, t, h, limits.target);
    EvictTimesUrls(t, h, Evicted(z, t, h, limits));
  }

  /** The reported sizes are serialized sizes exactly when the images concerned need no escape in
      their base64 tails: all of them before, the ones kept after. Then the serialized body fits too. */
  lemma BudgetInSerializedBytes(z: Sizes, t: Texts, h: seq<Item>, limits: Limits)
    ensures Evicted(z, t, h, limits) <= |Urls(h)|
    ensures var after := Budgeted(z, t, h, limits);
            BodySize(z, Fast, after) == BodySize(z, Plain, after) <==>
            forall u :: u in Urls(h)[Evicted(z, t, h, limits)..] ==> CleanUrl(u)
    ensures (forall u :: u in Urls(h) ==> CleanUrl(u)) ==>
              var after := Budgeted(z, t, h, limits);
              && BodySize(z, Fast, h) == BodySize(z, Plain, h) && BodySize(z, Fast, after) == BodySize(z, Plain, after)
              && (BodySize(z, Plain, h) >= limits.trigger && Urls(after) != [] ==> BodySize(z, Plain, after) <= limits.target)
  {
    hide BodySize, Urls, CleanUrl, Budgeted, Evicted;
    BudgetKeepsNewest(z, t, h, limits);
    FastBodyExactIff(z, h);
    FastBodyExactIff(z, Budgeted(z, t, h, limits));
  }

  lemma BudgetIsIdempotent(z: Sizes, t: Texts, h: seq<Item>, limits: Limits)
    ensures Budgeted(z, t, Budgeted(z, t, h, limits), limits) == Budgeted(z, t, h, limits)
  {
    hide BodySize, Urls;
    var g := Budgeted(z, t, h, limits);
    BudgetKeepsNewest(z, t, h, limits);
    assert Evicted(z, t, g, limits) == 0;
  }

  // ----- what eviction leaves alone

  function KeepNonImage(part: ContentPart): seq<ContentPart> {
    if part.Image? then [] else [part]
  }

  function NonImages(parts: seq<ContentPart>): seq<ContentPart> {
    if parts == [] then [] else KeepNonImage(parts[0]) + NonImages(parts[1..])
  }

  predicate PartsFaded(t: Texts, x: seq<ContentPart>, y: seq<ContentPart>) {
    |x| == |y| && forall k :: 0 <= k < |x| ==> y[k] == x[k] || (x[k].Image? && y[k] == Text(t.placeholder))
  }

  predicate OutsFaded(t: Texts, x: seq<OutputPart>, y: seq<OutputPart>) {
    |x| == |y| && forall k :: 0 <= k < |x| ==> y[k] == x[k] || (x[k].OutImage? && y[k] == OutText(t.placeholder))
  }

  /** `y` is `x` with some images gone: ids, metadata, texts and positions are as they were, and a
      tool result carries the note exactly when its image list lost one. */
  predicate Faded(t: Texts, x: Item, y: Item) {
    match (x, y)
    case (User(xs, xr, xt), User(ys, yr, yt)) => xr == yr && xt == yt && PartsFaded(t, xs, ys)
    case (ToolResult(xi, xc, xs, xo), ToolResult(yi, yc, ys, yo)) =>
      && xi == yi && OutsFaded(t, xo, yo)
      && NonImages(xs) == NonImages(ys)
      && ((xs == ys && xc == yc) || (|ys| < |xs| && yc == WithNote(t, xc)))
    case (CustomToolOutput(xi, xt, xn, xo), CustomToolOutput(yi, yt, yn, yo)) =>
      xi == yi && xt == yt && xn == yn && OutsFaded(t, xo, yo)
    case _ => x == y
  }

  lemma WithNoteOnce(t: Texts, content: string)
    ensures Contains(WithNote(t, content), t.note) && content <= WithNote(t, content)
    ensures WithNote(t, content) == content <==> Contains(content, t.note)
    ensures WithNote(t, WithNote(t, content)) == WithNote(t, content)
  {
    var s := content + "\n\n" + t.note;
    assert OccursAt(s, t.note, |content| + 2);
  }

  lemma {:induction false} NonImagesRemoved(parts: seq<ContentPart>, p: nat)
    requires p < |parts| && parts[p].Image?
    ensures NonImages(parts[..p] + parts[p + 1..]) == NonImages(parts)
    decreases p
  {
    var r := parts[..p] + parts[p + 1..];
    if p == 0 {
      assert r == parts[1..] && [] + NonImages(parts[1..]) == NonImages(parts[1..]);
    } else {
      NonImagesRemoved(parts[1..], p - 1);
      assert r[0] == parts[0] && r[1..] == parts[1..][..p - 1] + parts[1..][p..];
    }
  }

  lemma EvictItemFades(t: Texts, item: Item)
    requires HasImage(item)
    ensures Faded(t, item, EvictItem(t, item))
  {
    hide WithNote, NonImages;
    if item.ToolResult? && FirstPart(item.images) < |item.images| {
      NonImagesRemoved(item.images, FirstPart(item.images));
    }
  }

  lemma FadedTransitive(t: Texts, x: Item, y: Item, w: Item)
    requires Faded(t, x, y) && Faded(t, y, w)
    ensures Faded(t, x, w)
  {
    hide WithNote, NonImages;
    if x.ToolResult? {
      WithNoteOnce(t, x.content);
    }
  }

  /** Every id, every text, every position and every item without images survives any number of
      evictions. */
  lemma {:induction false} EvictionOnlyFades(t: Texts, h: seq<Item>, k: nat, i: nat)
    requires i < |h|
    ensures Faded(t, h[i], EvictTimes(t, h, k)[i])
    decreases k
  {
    hide Faded, EvictItem, HasImage;
    if k == 0 {
      FadedReflexive(t, h[i]);
    } else {
      var g := EvictTimes(t, h, k - 1);
      EvictionOnlyFades(t, h, k - 1, i);
      if i == FirstItem(g, 0) {
        EvictItemFades(t, g[i]);
        FadedTransitive(t, h[i], g[i], EvictItem(t, g[i]));
      }
    }
  }

  lemma FadedReflexive(t: Texts, x: Item)
    ensures Faded(t, x, x)
  {
  }

  // ----- growing histories

  lemma {:induction false} FirstItemAppend(h: seq<Item>, e: seq<Item>, from: nat)
    requires from <= |h|
    ensures FirstItem(h, from) < |h| ==> FirstItem(h + e, from) == FirstItem(h, from)
    ensures FirstItem(h, from) == |h| ==> FirstItem(h + e, from) >= |h|
    decreases |h| - from
  {
    hide HasImage;
    if from < |h| {
      FirstItemAppend(h, e, from + 1);
    }
  }

  lemma EvictFirstAppend(t: Texts, h: seq<Item>, e: seq<Item>)
    ensures Urls(h) != [] ==> EvictFirst(t, h + e) == EvictFirst(t, h) + e
    ensures Urls(h) == [] ==> EvictFirst(t, h + e)[..|h|] == h
  {
    hide HasImage, EvictItem, Urls, FirstItem;
    FirstItemBound(h);
    FirstItemBound(h + e);
    FirstItemAppend(h, e, 0);
    EvictFirstUrls(t, h);
  }

  /** Evictions reach the appended items only after every older image is gone. */
  lemma {:induction false} EvictTimesAppend(t: Texts, h: seq<Item>, e: seq<Item>, k: nat)
    ensures k <= |Urls(h)| ==> EvictTimes(t, h + e, k) == EvictTimes(t, h, k) + e
    ensures EvictTimes(t, h + e, k)[..|h|] == EvictTimes(t, h, if k <= |Urls(h)| then k else |Urls(h)|)
    decreases k
  {
    hide EvictFirst, Urls;
    if k > 0 {
      EvictTimesAppend(t, h, e, k - 1);
      if k <= |Urls(h)| {
        EvictTimesUrls(t, h, k - 1);
        EvictFirstAppend(t, EvictTimes(t, h, k - 1), e);
      } else {
        var g := EvictTimes(t, h + e, k - 1);
        var done := EvictTimes(t, h, |Urls(h)|);
        EvictTimesUrls(t, h, |Urls(h)|);
        assert g == done + g[|h|..];
        EvictFirstAppend(t, done, g[|h|..]);
      }
    }
  }

  lemma BodyGrows(z: Sizes, h: seq<Item>, e: seq<Item>)
    ensures BodySize(z, Fast, h) <= BodySize(z, Fast, h + e)
  {
    hide ItemSize;
    ItemsSizeConcat(z, Fast, h, e);
  }

  lemma StopsAppend(z: Sizes, t: Texts, h: seq<Item>, e: seq<Item>, target: nat, j: nat)
    requires !Stops(z, t, h, target, j)
    ensures !Stops(z, t, h + e, target, j)
  {
    hide BodySize, Urls, EvictTimes;
    EvictTimesAppend(t, h, e, j);
    BodyGrows(z, EvictTimes(t, h, j), e);
    UrlsConcat(h, e);
  }

  lemma CountAppend(z: Sizes, t: Texts, h: seq<Item>, e: seq<Item>, target: nat)
    ensures EvictCount(z, t, h, target) <= EvictCount(z, t, h + e, target)
  {
    hide Stops, EvictCount;
    EvictCountIsLeast(z, t, h, target);
    EvictCountIsLeast(z, t, h + e, target);
    var n := EvictCount(z, t, h + e, target);
    if n < EvictCount(z, t, h, target) {
      StopsAppend(z, t, h, e, target, n);
      assert false;
    }
  }

  /** Eviction is sticky: as a history grows, every image evicted before is evicted again, because
      both requests drop a prefix of the same image order and the later prefix is no shorter. */
  lemma StickyEviction(z: Sizes, t: Texts, h: seq<Item>, e: seq<Item>, limits: Limits)
    ensures Evicted(z, t, h, limits) <= |Urls(h)|
    ensures Evicted(z, t, h, limits) <= Evicted(z, t, h + e, limits) <= |Urls(h)| + |Urls(e)|
    ensures Urls(Budgeted(z, t, h, limits)) == Urls(h)[Evicted(z, t, h, limits)..]
    ensures Urls(Budgeted(z, t, h + e, limits)) == (Urls(h) + Urls(e))[Evicted(z, t, h + e, limits)..]
  {
    hide BodySize, Urls, EvictCount, EvictTimes;
    CountAppend(z, t, h, e, limits.target);
    BodyGrows(z, h, e);
    UrlsConcat(h, e);
    BudgetKeepsNewest(z, t, h, limits);
    BudgetKeepsNewest(z, t, h + e, limits);
  }

  /** What must hold for a request to start with the whole of the request before it, when `e` was
      appended to the stored history in between: the room left below the reclaim target, not the
      room up to the trigger, decides. */
  predicate RoomFor(z: Sizes, t: Texts, h: seq<Item>, e: seq<Item>, limits: Limits) {
    var sent := Budgeted(z, t, h, limits);
    || Urls(sent) == []
    || if BodySize(z, Fast, h) >= limits.trigger then BodySize(z, Fast, sent + e) <= limits.target
       else BodySize(z, Fast, h + e) < limits.trigger
  }

  lemma SameEvictionIff(t: Texts, h: seq<Item>, k: nat, n: nat)
    requires k <= n <= |Urls(h)|
    ensures EvictTimes(t, h, n) == EvictTimes(t, h, k) <==> n == k
  {
    hide Urls, EvictTimes;
    EvictTimesUrls(t, h, k);
    EvictTimesUrls(t, h, n);
  }

  /** The count for the longer history is the count for the shorter exactly when that one stops. */
  lemma CountSameIff(z: Sizes, t: Texts, h: seq<Item>, e: seq<Item>, target: nat)
    ensures EvictCount(z, t, h + e, target) == EvictCount(z, t, h, target) <==>
            Stops(z, t, h + e, target, EvictCount(z, t, h, target))
  {
    hide Stops, EvictCount;
    EvictCountIsLeast(z, t, h, target);
    EvictCountIsLeast(z, t, h + e, target);
    var k := EvictCount(z, t, h, target);
    CountAppend(z, t, h, e, target);
    if Stops(z, t, h + e, target, k) {
      assert EvictCount(z, t, h + e, target) <= k;
    }
  }

  lemma RoomMeansNoMore(z: Sizes, t: Texts, h: seq<Item>, e: seq<Item>, limits: Limits)
    requires limits.target < limits.trigger
    requires Evicted(z, t, h, limits) < |Urls(h)|
    ensures RoomFor(z, t, h, e, limits) <==> Evicted(z, t, h + e, limits) == Evicted(z, t, h, limits)
  {
    hide BodySize, Urls, EvictTimes, EvictCount;
    var k := Evicted(z, t, h, limits);
    BodyGrows(z, h, e);
    UrlsConcat(h, e);
    EvictTimesUrls(t, h, k);
    EvictTimesAppend(t, h, e, k);
    if BodySize(z, Fast, h) >= limits.trigger {
      CountSameIff(z, t, h, e, limits.target);
    } else {
      EvictNothing(t, h);
      ZeroCount(z, t, h + e, limits.target);
    }
  }

  lemma EvictNothing(t: Texts, h: seq<Item>)
    ensures EvictTimes(t, h, 0) == h
  {
  }

  lemma ZeroCount(z: Sizes, t: Texts, h: seq<Item>, target: nat)
    ensures EvictCount(z, t, h, target) == 0 <==> BodySize(z, Fast, h) <= target || Urls(h) == []
  {
    hide BodySize, Urls;
  }

  /** The next request starts with the whole of this one exactly when there is room. */
  lemma PrefixKeptIff(z: Sizes, t: Texts, h: seq<Item>, e: seq<Item>, limits: Limits)
    requires limits.target < limits.trigger
    ensures Budgeted(z, t, h + e, limits)[..|h|] == Budgeted(z, t, h, limits) <==> RoomFor(z, t, h, e, limits)
  {
    hide BodySize, Urls, EvictTimes, Evicted;
    var k, n := Evicted(z, t, h, limits), Evicted(z, t, h + e, limits);
    StickyEviction(z, t, h, e, limits);
    BudgetKeepsNewest(z, t, h, limits);
    EvictTimesAppend(t, h, e, n);
    SameEvictionIff(t, h, k, if n <= |Urls(h)| then n else |Urls(h)|);
    if k < |Urls(h)| {
      RoomMeansNoMore(z, t, h, e, limits);
    }
  }

  // ----- the hysteresis does not carry over to the next request

  /** Eviction starts at the trigger and stops at the target, but the next request starts again from
      the stored history: as long as an image is left, every append that lands above the target
      rewrites the prefix, however far it stays below the trigger. */
  lemma AppendAboveTargetRewrites(z: Sizes, t: Texts, h: seq<Item>, e: seq<Item>, limits: Limits)
    requires limits.target < limits.trigger <= BodySize(z, Fast, h)
    requires Urls(Budgeted(z, t, h, limits)) != []
    requires limits.target < BodySize(z, Fast, Budgeted(z, t, h, limits) + e)
    ensures Budgeted(z, t, h + e, limits)[..|h|] != Budgeted(z, t, h, limits)
  {
    hide Urls, BodySize, Budgeted;
    PrefixKeptIff(z, t, h, e, limits);
  }

  /** A URL of `n` bytes. */
  function Letters(n: nat): (s: string)
    ensures |s| == n
  {
    if n == 0 then "" else "a" + Letters(n - 1)
  }

  lemma {:induction false} LettersBytes(n: nat)
    ensures Escaped(Letters(n)) == n && ',' !in Letters(n)
  {
    if n > 0 {
      LettersBytes(n - 1);
      assert Letters(n)[1..] == Letters(n - 1);
    }
  }

  lemma LettersUrl(n: nat)
    ensures EncodedUrlBytes(Letters(n)) == n
  {
    hide Find;
    LettersBytes(n);
    var f := Find(Letters(n), COMMA);
    if f.Some? {
      OccurrenceChar(Letters(n), COMMA, f.value, 0);
      assert false;
    }
  }

  /** A tool output of two parts. */
  function Pair(x: OutputPart, y: OutputPart): Item {
    CustomToolOutput("", None, None, [x, y])
  }

  lemma PairSize(z: Sizes, x: OutputPart, y: OutputPart)
    ensures BodySize(z, Fast, [Pair(x, y)]) == 58 + OutSize(Fast, x) + OutSize(Fast, y)
  {
    hide OutSize;
    OneItemBody(z, Fast, Pair(x, y));
    assert [x, y][1..] == [y] && [y][1..] == [];
    assert OutsSize(Fast, [y]) == OutSize(Fast, y);
    assert OutsSize(Fast, [x, y]) == OutSize(Fast, x) + OutSize(Fast, y);
  }

  lemma PairEviction(t: Texts, x: OutputPart, y: OutputPart)
    requires x.OutImage? && y.OutImage?
    ensures EvictFirst(t, [Pair(x, y)]) == [Pair(OutText(t.placeholder), y)]
    ensures Urls([Pair(x, y)]) != [] && Urls([Pair(OutText(t.placeholder), y)]) != []
  {
    hide OutSize;
    var after := Pair(OutText(t.placeholder), y);
    assert FirstOut([x, y]) == 0 && FirstItem([Pair(x, y)], 0) == 0;
    assert EvictItem(t, Pair(x, y)) == after;
    assert OutImages([OutText(t.placeholder), y])[1].Some?;
    HasImageMeans(Pair(x, y));
    HasImageMeans(after);
  }

  lemma {:induction false} EscapedAtMost(s: string)
    ensures Escaped(s) <= 6 * |s|
  {
    if s != "" {
      EscapedAtMost(s[1..]);
    }
  }

  /** This happens under every request cap, whatever the sizes of other items: here with two images,
      the older of which is evicted, and one empty tool output appended, which uses 56 of the bytes
      between target and trigger. The placeholder is any text of at most 1000 characters. */
  lemma HysteresisIsLost(z: Sizes, t: Texts, maxRequestBytes: Option<nat>, usizeMax: nat)
    returns (h: seq<Item>, e: seq<Item>)
    requires |t.placeholder| <= 1000
    ensures var limits := ImageBudgetLimits(maxRequestBytes, usizeMax);
            var sent := Budgeted(z, t, h, limits);
            && limits.trigger <= BodySize(z, Fast, h)
            && limits.target < BodySize(z, Fast, sent + e) < limits.trigger
            && Budgeted(z, t, h + e, limits)[..|h|] != sent
  {
    hide Urls, EvictFirst, BodySize, OutSize;
    var limits := ImageBudgetLimits(maxRequestBytes, usizeMax);
    LimitsApart(maxRequestBytes, usizeMax);
    EscapedAtMost(t.placeholder);
    var text := Escaped(t.placeholder);
    var x := OutImage(Letters(limits.trigger - limits.target - 16 + text), Auto);
    var y := OutImage(Letters(limits.target - 124 - text), Auto);
    PartSizes(t, x, limits.trigger - limits.target - 16 + text);
    PartSizes(t, y, limits.target - 124 - text);
    h, e := [Pair(x, y)], [CustomToolOutput("", None, None, [])];
    var after := [Pair(OutText(t.placeholder), y)];
    PairSize(z, x, y);
    PairSize(z, OutText(t.placeholder), y);
    PairEviction(t, x, y);
    assert EvictCount(z, t, after, limits.target) == 0;
    assert Evicted(z, t, h, limits) == 1;
    EvictNothing(t, h);
    assert Budgeted(z, t, h, limits) == after;
    EmptyOutputAdds(z, after, e);
    AppendAboveTargetRewrites(z, t, h, e, limits);
  }

  lemma LimitsApart(maxRequestBytes: Option<nat>, usizeMax: nat)
    ensures var limits := ImageBudgetLimits(maxRequestBytes, usizeMax);
            limits.target >= 6 * 1024 * 1024 && limits.trigger - limits.target >= 3 * 1024 * 1024
  {
  }

  lemma PartSizes(t: Texts, x: OutputPart, n: nat)
    requires x == OutImage(Letters(n), Auto)
    ensures OutSize(Fast, x) == 41 + n && OutSize(Fast, OutText(t.placeholder)) == 25 + Escaped(t.placeholder)
  {
    LettersUrl(n);
  }

  lemma EmptyOutputAdds(z: Sizes, h: seq<Item>, e: seq<Item>)
    requires |h| == 1 && e == [CustomToolOutput("", None, None, [])]
    ensures BodySize(z, Fast, h + e) == BodySize(z, Fast, h) + 56
  {
    ItemsSizeSnoc(z, Fast, h, e[0]);
    assert OutsSize(Fast, []) == 0 && Escaped("") == 0;
  }
}
