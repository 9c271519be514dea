/** Oldest-first eviction of inline images, which brings a request history under a byte target. */
module ImageEviction {
  import opened Wrappers
  import opened Conversation
  import opened Strings
  import opened ImageBudget

  /** What stands in the place of an evicted image, and what a tool result says once after losing
      an image from its image list. Nothing depends on the wording. */
  datatype Texts = Texts(placeholder: string, note: string)

  function WithNote(t: Texts, content: string): string {
    if Contains(content, t.note) then content else content + "\n\n" + t.note
  }

  // ----- evicting one image: the specification

  /** The sizes of the images among some parts, `None` for a part that is not an image. */
  function PartImages(parts: seq<ContentPart>): (r: seq<Option<nat>>)
    ensures |r| == |parts|
    ensures forall k :: 0 <= k < |parts| ==> r[k].Some? == parts[k].Image?
    ensures forall k :: 0 <= k < |parts| && parts[k].Image? ==> r[k] == Some(PartSize(Fast, parts[k]))
  {
    seq(|parts|, k requires 0 <= k < |parts| => if parts[k].Image? then Some(PartSize(Fast, parts[k])) else None)
  }

  function OutImages(parts: seq<OutputPart>): (r: seq<Option<nat>>)
    ensures |r| == |parts|
    ensures forall k :: 0 <= k < |parts| ==> r[k].Some? == parts[k].OutImage?
    ensures forall k :: 0 <= k < |parts| && parts[k].OutImage? ==> r[k] == Some(OutSize(Fast, parts[k]))
  {
    seq(|parts|, k requires 0 <= k < |parts| => if parts[k].OutImage? then Some(OutSize(Fast, parts[k])) else None)
  }

  /** Index of the first image at or after `from`, or the length when there is none. */
  function FirstSome(images: seq<Option<nat>>, from: nat): (p: nat)
    requires from <= |images|
    ensures from <= p <= |images|
    ensures forall k :: from <= k < p ==> images[k].None?
    ensures p < |images| ==> images[p].Some?
    decreases |images| - from
  {
    if from == |images| || images[from].Some? then from else FirstSome(images, from + 1)
  }

  function FirstPart(parts: seq<ContentPart>): nat {
    FirstSome(PartImages(parts), 0)
  }

  function FirstOut(parts: seq<OutputPart>): nat {
    FirstSome(OutImages(parts), 0)
  }

  predicate HasImage(item: Item) {
    match item
    case User(parts, _, _) => FirstPart(parts) < |parts|
    case ToolResult(_, _, images, ordered) => FirstPart(images) < |images| || FirstOut(ordered) < |ordered|
    case CustomToolOutput(_, _, _, output) => FirstOut(output) < |output|
    case _ => false
  }

  /** The item without its oldest image. */
  function EvictItem(t: Texts, item: Item): Item
    requires HasImage(item)
  {
    match item
    case User(parts, reason, turn) => User(parts[FirstPart(parts) := Text(t.placeholder)], reason, turn)
    case ToolResult(id, content, images, ordered) =>
      var p := FirstPart(images);
      if p < |images| then ToolResult(id, WithNote(t, content), images[..p] + images[p + 1..], ordered)
      else ToolResult(id, content, images, ordered[FirstOut(ordered) := OutText(t.placeholder)])
    case CustomToolOutput(id, itemId, name, output) =>
      CustomToolOutput(id, itemId, name, output[FirstOut(output) := OutText(t.placeholder)])
  }

  /** Index of the first item with an image at or after `from`, or the length when there is none. */
  function FirstItem(h: seq<Item>, from: nat): (i: nat)
    requires from <= |h|
    ensures from <= i <= |h|
    ensures forall k :: from <= k < i ==> !HasImage(h[k])
    ensures i < |h| ==> HasImage(h[i])
    decreases |h| - from
  {
    if from == |h| || HasImage(h[from]) then from else FirstItem(h, from + 1)
  }

  /** The history without its oldest image. */
  function EvictFirst(t: Texts, h: seq<Item>): (r: seq<Item>)
    ensures |r| == |h|
  {
    var i := FirstItem(h, 0);
    if i < |h| then h[i := EvictItem(t, h[i])] else h
  }

  function EvictTimes(t: Texts, h: seq<Item>, k: nat): (r: seq<Item>)
    ensures |r| == |h|
    decreases k
  {
    if k == 0 then h else EvictFirst(t, EvictTimes(t, h, k - 1))
  }

  // ----- the images that remain

  lemma {:induction false} PartUrlsConcat(a: seq<ContentPart>, b: seq<ContentPart>)
    ensures PartUrls(a + b) == PartUrls(a) + PartUrls(b)
  {
    if a == [] {
      assert a + b == b;
    } else {
      PartUrlsConcat(a[1..], b);
      assert (a + b)[1..] == a[1..] + b;
    }
  }

  lemma {:induction false} OutUrlsConcat(a: seq<OutputPart>, b: seq<OutputPart>)
    ensures OutUrls(a + b) == OutUrls(a) + OutUrls(b)
  {
    if a == [] {
      assert a + b == b;
    } else {
      OutUrlsConcat(a[1..], b);
      assert (a + b)[1..] == a[1..] + b;
    }
  }

  lemma {:induction false} UrlsConcat(a: seq<Item>, b: seq<Item>)
    ensures Urls(a + b) == Urls(a) + Urls(b)
  {
    hide ItemUrls;
    if a == [] {
      assert a + b == b;
    } else {
      UrlsConcat(a[1..], b);
      assert (a + b)[1..] == a[1..] + b;
      assert Urls(a + b) == ItemUrls(a[0]) + (Urls(a[1..]) + Urls(b));
    }
  }

  lemma {:induction false} NoPartUrls(parts: seq<ContentPart>)
    requires forall k :: 0 <= k < |parts| ==> !parts[k].Image?
    ensures PartUrls(parts) == []
  {
    if parts != [] {
      NoPartUrls(parts[1..]);
    }
  }

  lemma {:induction false} NoOutUrls(parts: seq<OutputPart>)
    requires forall k :: 0 <= k < |parts| ==> !parts[k].OutImage?
    ensures OutUrls(parts) == []
  {
    if parts != [] {
      NoOutUrls(parts[1..]);
    }
  }

  /** The oldest image of some parts is the first URL, and the others follow it. */
  lemma PartUrlsSplit(parts: seq<ContentPart>)
    ensures FirstPart(parts) == |parts| ==> PartUrls(parts) == []
    ensures FirstPart(parts) < |parts| ==>
              var p := FirstPart(parts);
              parts[p].Image? && PartUrls(parts) == [parts[p].url] + PartUrls(parts[p + 1..])
  {
    hide PartSize, PartUrls, FirstSome, PartImages;
    PartUrlsFrom(parts, FirstPart(parts));
  }

  lemma {:induction false} PartUrlsFrom(parts: seq<ContentPart>, p: nat)
    requires p <= |parts| && forall k :: 0 <= k < p ==> !parts[k].Image?
    ensures p == |parts| ==> PartUrls(parts) == []
    ensures p < |parts| && parts[p].Image? ==> PartUrls(parts) == [parts[p].url] + PartUrls(parts[p + 1..])
    decreases p
  {
    if p > 0 {
      PartUrlsFrom(parts[1..], p - 1);
      assert p < |parts| ==> parts[1..][p..] == parts[p + 1..];
    }
  }

  lemma OutUrlsSplit(parts: seq<OutputPart>)
    ensures FirstOut(parts) == |parts| ==> OutUrls(parts) == []
    ensures FirstOut(parts) < |parts| ==>
              var p := FirstOut(parts);
              parts[p].OutImage? && OutUrls(parts) == [parts[p].url] + OutUrls(parts[p + 1..])
  {
    hide OutSize, OutUrls, FirstSome, OutImages;
    OutUrlsFrom(parts, FirstOut(parts));
  }

  lemma {:induction false} OutUrlsFrom(parts: seq<OutputPart>, p: nat)
    requires p <= |parts| && forall k :: 0 <= k < p ==> !parts[k].OutImage?
    ensures p == |parts| ==> OutUrls(parts) == []
    ensures p < |parts| && parts[p].OutImage? ==> OutUrls(parts) == [parts[p].url] + OutUrls(parts[p + 1..])
    decreases p
  {
    if p > 0 {
      OutUrlsFrom(parts[1..], p - 1);
      assert p < |parts| ==> parts[1..][p..] == parts[p + 1..];
    }
  }

  lemma EvictedPartUrls(t: Texts, parts: seq<ContentPart>)
    requires FirstPart(parts) < |parts|
    ensures var p := FirstPart(parts);
            && PartUrls(parts) != []
            && PartUrls(parts[p := Text(t.placeholder)]) == PartUrls(parts)[1..]
            && PartUrls(parts[..p] + parts[p + 1..]) == PartUrls(parts)[1..]
  {
    hide PartSize, PartUrls, FirstSome, PartImages;
    var p := FirstPart(parts);
    PartUrlsSplit(parts);
    NoPartUrls(parts[..p]);
    PartUrlsConcat(parts[..p], parts[p + 1..]);
    var text := [Text(t.placeholder)];
    assert parts[p := text[0]] == parts[..p] + (text + parts[p + 1..]);
    PartUrlsConcat(parts[..p], text + parts[p + 1..]);
    PartUrlsConcat(text, parts[p + 1..]);
    NoPartUrls(text);
  }

  lemma EvictedOutUrls(t: Texts, parts: seq<OutputPart>)
    requires FirstOut(parts) < |parts|
    ensures OutUrls(parts) != []
    ensures OutUrls(parts[FirstOut(parts) := OutText(t.placeholder)]) == OutUrls(parts)[1..]
  {
    hide OutSize, OutUrls, FirstSome, OutImages;
    var p := FirstOut(parts);
    OutUrlsSplit(parts);
    NoOutUrls(parts[..p]);
    var text := [OutText(t.placeholder)];
    assert parts[p := text[0]] == parts[..p] + (text + parts[p + 1..]);
    OutUrlsConcat(parts[..p], text + parts[p + 1..]);
    OutUrlsConcat(text, parts[p + 1..]);
    NoOutUrls(text);
  }

  lemma HasImageMeans(item: Item)
    ensures HasImage(item) <==> ItemUrls(item) != []
  {
    hide PartUrls, OutUrls, FirstPart, FirstOut;
    match item
    case User(parts, _, _) =>
      PartBounds(parts);
      PartUrlsSplit(parts);
    case ToolResult(_, _, images, ordered) =>
      PartBounds(images);
      OutBounds(ordered);
      PartUrlsSplit(images);
      OutUrlsSplit(ordered);
    case CustomToolOutput(_, _, _, output) =>
      OutBounds(output);
      OutUrlsSplit(output);
    case _ =>
  }

  lemma EvictItemUrls(t: Texts, item: Item)
    requires HasImage(item)
    ensures ItemUrls(item) != [] && ItemUrls(EvictItem(t, item)) == ItemUrls(item)[1..]
  {
    hide WithNote, PartUrls, OutUrls, FirstPart, FirstOut;
    HasImageMeans(item);
    match item
    case User(parts, _, _) => EvictedPartUrls(t, parts);
    case ToolResult(_, _, images, ordered) =>
      PartBounds(images);
      PartUrlsSplit(images);
      if FirstPart(images) < |images| {
        EvictedPartUrls(t, images);
      } else {
        EvictedOutUrls(t, ordered);
      }
    case CustomToolOutput(_, _, _, output) => EvictedOutUrls(t, output);
  }

  lemma PartBounds(parts: seq<ContentPart>)
    ensures FirstPart(parts) <= |parts|
  {
  }

  lemma OutBounds(parts: seq<OutputPart>)
    ensures FirstOut(parts) <= |parts|
  {
  }

  lemma {:induction false} NoUrlsIn(h: seq<Item>)
    requires forall k :: 0 <= k < |h| ==> !HasImage(h[k])
    ensures Urls(h) == []
  {
    hide HasImage, ItemUrls;
    if h != [] {
      HasImageMeans(h[0]);
      NoUrlsIn(h[1..]);
    }
  }

  lemma UrlsAround(h: seq<Item>, i: nat)
    requires i < |h|
    ensures Urls(h) == Urls(h[..i]) + (ItemUrls(h[i]) + Urls(h[i + 1..]))
  {
    hide ItemUrls, Urls;
    UrlsConcat(h[..i], h[i..]);
    assert h == h[..i] + h[i..];
    UrlsCons(h[i..]);
    assert h[i..][1..] == h[i + 1..];
  }

  lemma UrlsCons(h: seq<Item>)
    requires h != []
    ensures Urls(h) == ItemUrls(h[0]) + Urls(h[1..])
  {
  }

  lemma UrlsReplaced(h: seq<Item>, i: nat, x: Item)
    requires i < |h| && Urls(h[..i]) == [] && ItemUrls(h[i]) != []
    requires ItemUrls(x) == ItemUrls(h[i])[1..]
    ensures Urls(h) != [] && Urls(h[i := x]) == Urls(h)[1..]
  {
    hide ItemUrls, Urls;
    UrlsAround(h, i);
    UrlsAround(h[i := x], i);
    assert h[i := x][..i] == h[..i] && h[i := x][i + 1..] == h[i + 1..];
  }

  /** Evicting removes exactly the oldest image of the history. */
  lemma EvictFirstUrls(t: Texts, h: seq<Item>)
    ensures FirstItem(h, 0) == |h| <==> Urls(h) == []
    ensures Urls(h) == [] ==> EvictFirst(t, h) == h
    ensures Urls(h) != [] ==> Urls(EvictFirst(t, h)) == Urls(h)[1..]
  {
    hide HasImage, ItemUrls, EvictItem, Urls;
    var i := FirstItem(h, 0);
    NoUrlsIn(h[..i]);
    if i < |h| {
      EvictItemUrls(t, h[i]);
      UrlsReplaced(h, i, EvictItem(t, h[i]));
    } else {
      assert h[..i] == h;
    }
  }

  /** Evictions take images off the old end of the image order, one each. */
  lemma {:induction false} EvictTimesUrls(t: Texts, h: seq<Item>, k: nat)
    requires k <= |Urls(h)|
    ensures Urls(EvictTimes(t, h, k)) == Urls(h)[k..]
    decreases k
  {
    hide EvictFirst, Urls;
    if k > 0 {
      EvictTimesUrls(t, h, k - 1);
      EvictFirstUrls(t, EvictTimes(t, h, k - 1));
    }
  }

  // ----- the candidates the evictor collects before it starts

  datatype Location =
    | UserPart(item: nat, part: nat)
    | ToolImage(item: nat)
    | ToolOrdered(item: nat, part: nat)
    | CustomPart(item: nat, part: nat)

  datatype Candidate = Candidate(location: Location, imageBytes: nat, placeholderBytes: nat)

  /** The list of an item that an image is in. */
  datatype Slot = InUser | InImages | InOrdered | InCustom

  function At(slot: Slot, item: nat, part: nat): Location {
    match slot
    case InUser => UserPart(item, part)
    case InImages => ToolImage(item)
    case InOrdered => ToolOrdered(item, part)
    case InCustom => CustomPart(item, part)
  }

  function PlaceholderBytes(t: Texts, slot: Slot): nat {
    if slot.InUser? || slot.InImages? then PartSize(Fast, Text(t.placeholder)) else OutSize(Fast, OutText(t.placeholder))
  }

  function Listed(t: Texts, slot: Slot, item: nat, images: seq<Option<nat>>, from: nat): seq<Candidate>
    requires from <= |images|
    decreases |images| - from
  {
    if from == |images| then []
    else
      (if images[from].Some? then [Candidate(At(slot, item, from), images[from].value, PlaceholderBytes(t, slot))] else [])
      + Listed(t, slot, item, images, from + 1)
  }

  function ItemCandidates(t: Texts, item: Item, i: nat): seq<Candidate> {
    match item
    case User(parts, _, _) => Listed(t, InUser, i, PartImages(parts), 0)
    case ToolResult(_, _, images, ordered) =>
      Listed(t, InImages, i, PartImages(images), 0) + Listed(t, InOrdered, i, OutImages(ordered), 0)
    case CustomToolOutput(_, _, _, output) => Listed(t, InCustom, i, OutImages(output), 0)
    case _ => []
  }

  function Candidates(t: Texts, h: seq<Item>, from: nat): seq<Candidate>
    requires from <= |h|
    decreases |h| - from
  {
    if from == |h| then [] else ItemCandidates(t, h[from], from) + Candidates(t, h, from + 1)
  }

  lemma {:induction false} ListedSkip(t: Texts, slot: Slot, item: nat, images: seq<Option<nat>>, from: nat, p: nat)
    requires from <= p <= |images|
    requires forall k :: from <= k < p ==> images[k].None?
    ensures Listed(t, slot, item, images, from) == Listed(t, slot, item, images, p)
    decreases p - from
  {
    hide At, PlaceholderBytes;
    if from < p {
      ListedSkip(t, slot, item, images, from + 1, p);
    }
  }

  /** Later images are listed alike after a replacement, and, where locations carry no index,
      after a removal. */
  lemma {:induction false} ListedSame(t: Texts, slot: Slot, item: nat,
                                      a: seq<Option<nat>>, x: nat, b: seq<Option<nat>>, y: nat)
    requires x <= |a| && y <= |b| && a[x..] == b[y..]
    requires x == y || slot.InImages?
    ensures Listed(t, slot, item, a, x) == Listed(t, slot, item, b, y)
    decreases |a| - x
  {
    hide PlaceholderBytes;
    assert |a| - x == |a[x..]| == |b[y..]| == |b| - y;
    if x < |a| {
      assert a[x] == a[x..][0] == b[y..][0] == b[y];
      assert a[x + 1..] == a[x..][1..] == b[y..][1..] == b[y + 1..];
      ListedSame(t, slot, item, a, x + 1, b, y + 1);
    }
  }

  lemma ListedFirst(t: Texts, slot: Slot, item: nat, images: seq<Option<nat>>)
    ensures var p := FirstSome(images, 0);
            Listed(t, slot, item, images, 0) ==
              if p == |images| then []
              else [Candidate(At(slot, item, p), images[p].value, PlaceholderBytes(t, slot))]
                   + Listed(t, slot, item, images, p + 1)
  {
    hide At, PlaceholderBytes;
    ListedSkip(t, slot, item, images, 0, FirstSome(images, 0));
  }

  /** Replacing the first image by a text leaves the candidates after it as they were. */
  lemma ListedReplaced(t: Texts, slot: Slot, item: nat, a: seq<Option<nat>>, b: seq<Option<nat>>)
    requires FirstSome(a, 0) < |a| && b == a[FirstSome(a, 0) := None]
    ensures Listed(t, slot, item, a, 0) != []
    ensures Listed(t, slot, item, b, 0) == Listed(t, slot, item, a, 0)[1..]
  {
    hide At, PlaceholderBytes;
    var p := FirstSome(a, 0);
    ListedFirst(t, slot, item, a);
    ListedSkip(t, slot, item, b, 0, p + 1);
    assert a[p + 1..] == b[p + 1..];
    ListedSame(t, slot, item, a, p + 1, b, p + 1);
  }

  /** Removing the first image shifts the later ones, whose locations do not tell. */
  lemma ListedRemoved(t: Texts, item: nat, a: seq<Option<nat>>, b: seq<Option<nat>>)
    requires FirstSome(a, 0) < |a| && b == a[..FirstSome(a, 0)] + a[FirstSome(a, 0) + 1..]
    ensures Listed(t, InImages, item, a, 0) != []
    ensures Listed(t, InImages, item, b, 0) == Listed(t, InImages, item, a, 0)[1..]
  {
    hide At, PlaceholderBytes;
    var p := FirstSome(a, 0);
    ListedFirst(t, InImages, item, a);
    ListedSkip(t, InImages, item, b, 0, p);
    assert a[p + 1..] == b[p..];
    ListedSame(t, InImages, item, a, p + 1, b, p);
  }

  lemma PartsReplaced(t: Texts, slot: Slot, i: nat, parts: seq<ContentPart>)
    requires FirstPart(parts) < |parts|
    ensures var p := FirstPart(parts);
            var rest := Listed(t, slot, i, PartImages(parts), 0);
            && rest != [] && rest[0] == Candidate(At(slot, i, p), PartSize(Fast, parts[p]), PlaceholderBytes(t, slot))
            && Listed(t, slot, i, PartImages(parts[p := Text(t.placeholder)]), 0) == rest[1..]
  {
    hide At, PlaceholderBytes, Listed, PartSize;
    var p := FirstPart(parts);
    ListedFirst(t, slot, i, PartImages(parts));
    assert PartImages(parts[p := Text(t.placeholder)]) == PartImages(parts)[p := None];
    ListedReplaced(t, slot, i, PartImages(parts), PartImages(parts[p := Text(t.placeholder)]));
  }

  lemma PartsRemoved(t: Texts, i: nat, parts: seq<ContentPart>)
    requires FirstPart(parts) < |parts|
    ensures var p := FirstPart(parts);
            var rest := Listed(t, InImages, i, PartImages(parts), 0);
            && rest != [] && rest[0] == Candidate(ToolImage(i), PartSize(Fast, parts[p]), PlaceholderBytes(t, InImages))
            && Listed(t, InImages, i, PartImages(parts[..p] + parts[p + 1..]), 0) == rest[1..]
  {
    hide PlaceholderBytes, Listed, PartSize;
    var p := FirstPart(parts);
    ListedFirst(t, InImages, i, PartImages(parts));
    assert PartImages(parts[..p] + parts[p + 1..]) == PartImages(parts)[..p] + PartImages(parts)[p + 1..];
    ListedRemoved(t, i, PartImages(parts), PartImages(parts[..p] + parts[p + 1..]));
  }

  lemma OutsReplaced(t: Texts, slot: Slot, i: nat, parts: seq<OutputPart>)
    requires FirstOut(parts) < |parts|
    ensures var p := FirstOut(parts);
            var rest := Listed(t, slot, i, OutImages(parts), 0);
            && rest != [] && rest[0] == Candidate(At(slot, i, p), OutSize(Fast, parts[p]), PlaceholderBytes(t, slot))
            && Listed(t, slot, i, OutImages(parts[p := OutText(t.placeholder)]), 0) == rest[1..]
  {
    hide At, PlaceholderBytes, Listed, OutSize;
    var p := FirstOut(parts);
    ListedFirst(t, slot, i, OutImages(parts));
    assert OutImages(parts[p := OutText(t.placeholder)]) == OutImages(parts)[p := None];
    ListedReplaced(t, slot, i, OutImages(parts), OutImages(parts[p := OutText(t.placeholder)]));
  }

  lemma NoneListed(t: Texts, slot: Slot, i: nat, images: seq<Option<nat>>)
    requires FirstSome(images, 0) == |images|
    ensures Listed(t, slot, i, images, 0) == []
  {
    ListedFirst(t, slot, i, images);
  }

  lemma NoItemCandidates(t: Texts, item: Item, i: nat)
    requires !HasImage(item)
    ensures ItemCandidates(t, item, i) == []
  {
    hide Listed;
    match item
    case User(parts, _, _) => NoneListed(t, InUser, i, PartImages(parts));
    case ToolResult(_, _, images, ordered) =>
      NoneListed(t, InImages, i, PartImages(images));
      NoneListed(t, InOrdered, i, OutImages(ordered));
    case CustomToolOutput(_, _, _, output) => NoneListed(t, InCustom, i, OutImages(output));
    case _ =>
  }

  /** Where the oldest image of an item is, and what its replacement weighs. */
  function FirstCandidate(t: Texts, item: Item, i: nat): Candidate
    requires HasImage(item)
  {
    match item
    case User(parts, _, _) =>
      var p := FirstPart(parts);
      Candidate(UserPart(i, p), PartSize(Fast, parts[p]), PlaceholderBytes(t, InUser))
    case ToolResult(_, _, images, ordered) =>
      var p, q := FirstPart(images), FirstOut(ordered);
      if p < |images| then Candidate(ToolImage(i), PartSize(Fast, images[p]), PlaceholderBytes(t, InImages))
      else Candidate(ToolOrdered(i, q), OutSize(Fast, ordered[q]), PlaceholderBytes(t, InOrdered))
    case CustomToolOutput(_, _, _, output) =>
      var p := FirstOut(output);
      Candidate(CustomPart(i, p), OutSize(Fast, output[p]), PlaceholderBytes(t, InCustom))
  }

  lemma ItemStep(t: Texts, item: Item, i: nat)
    requires HasImage(item)
    ensures var rest := ItemCandidates(t, item, i);
            && rest != [] && rest[0] == FirstCandidate(t, item, i)
            && ItemCandidates(t, EvictItem(t, item), i) == rest[1..]
  {
    hide Listed, PlaceholderBytes, PartSize, OutSize, WithNote, FirstSome;
    match item
    case User(parts, _, _) => PartsReplaced(t, InUser, i, parts);
    case ToolResult(_, _, images, ordered) =>
      PartBounds(images);
      if FirstPart(images) < |images| {
        PartsRemoved(t, i, images);
      } else {
        NoneListed(t, InImages, i, PartImages(images));
        OutsReplaced(t, InOrdered, i, ordered);
      }
    case CustomToolOutput(_, _, _, output) => OutsReplaced(t, InCustom, i, output);
  }

  lemma {:induction false} CandidatesSkip(t: Texts, h: seq<Item>, from: nat, i: nat)
    requires from <= i <= |h|
    requires forall k :: from <= k < i ==> !HasImage(h[k])
    ensures Candidates(t, h, from) == Candidates(t, h, i)
    decreases i - from
  {
    hide ItemCandidates, HasImage;
    if from < i {
      NoItemCandidates(t, h[from], from);
      CandidatesSkip(t, h, from + 1, i);
    }
  }

  lemma {:induction false} CandidatesSame(t: Texts, a: seq<Item>, b: seq<Item>, from: nat)
    requires |a| == |b| && from <= |a| && forall k :: from <= k < |a| ==> a[k] == b[k]
    ensures Candidates(t, a, from) == Candidates(t, b, from)
    decreases |a| - from
  {
    hide ItemCandidates;
    if from < |a| {
      CandidatesSame(t, a, b, from + 1);
    }
  }

  /** The first candidate is the oldest image, and evicting it leaves exactly the other candidates,
      with their locations and sizes. */
  lemma CandidatesStep(t: Texts, h: seq<Item>)
    ensures FirstItem(h, 0) == |h| <==> Candidates(t, h, 0) == []
    ensures FirstItem(h, 0) < |h| ==>
              var i := FirstItem(h, 0);
              && Candidates(t, h, 0)[0] == FirstCandidate(t, h[i], i)
              && Candidates(t, EvictFirst(t, h), 0) == Candidates(t, h, 0)[1..]
  {
    hide ItemCandidates, HasImage, EvictItem, FirstCandidate;
    var i := FirstItem(h, 0);
    CandidatesSkip(t, h, 0, i);
    if i < |h| {
      ItemStep(t, h[i], i);
      var g := EvictFirst(t, h);
      CandidatesSkip(t, g, 0, i);
      CandidatesSame(t, h, g, i + 1);
    }
  }

  // ----- accounting

  lemma {:induction false} PartsSizeConcat(m: Measure, a: seq<ContentPart>, b: seq<ContentPart>)
    ensures PartsSize(m, a + b) == PartsSize(m, a) + PartsSize(m, b)
  {
    hide PartSize;
    if a == [] {
      assert a + b == b;
    } else {
      PartsSizeConcat(m, a[1..], b);
      assert (a + b)[1..] == a[1..] + b;
    }
  }

  lemma {:induction false} OutsSizeConcat(m: Measure, a: seq<OutputPart>, b: seq<OutputPart>)
    ensures OutsSize(m, a + b) == OutsSize(m, a) + OutsSize(m, b)
  {
    hide OutSize;
    if a == [] {
      assert a + b == b;
    } else {
      OutsSizeConcat(m, a[1..], b);
      assert (a + b)[1..] == a[1..] + b;
    }
  }

  lemma PartsSizeReplaced(m: Measure, parts: seq<ContentPart>, p: nat, x: ContentPart)
    requires p < |parts|
    ensures PartsSize(m, parts[p := x]) + PartSize(m, parts[p]) == PartsSize(m, parts) + PartSize(m, x)
  {
    hide PartSize;
    assert parts == parts[..p] + ([parts[p]] + parts[p + 1..]);
    assert parts[p := x] == parts[..p] + ([x] + parts[p + 1..]);
    PartsSizeConcat(m, parts[..p], [parts[p]] + parts[p + 1..]);
    PartsSizeConcat(m, parts[..p], [x] + parts[p + 1..]);
    assert ([x] + parts[p + 1..])[1..] == parts[p + 1..] == ([parts[p]] + parts[p + 1..])[1..];
  }

  lemma OutsSizeReplaced(m: Measure, parts: seq<OutputPart>, p: nat, x: OutputPart)
    requires p < |parts|
    ensures OutsSize(m, parts[p := x]) + OutSize(m, parts[p]) == OutsSize(m, parts) + OutSize(m, x)
  {
    hide OutSize;
    assert parts == parts[..p] + ([parts[p]] + parts[p + 1..]);
    assert parts[p := x] == parts[..p] + ([x] + parts[p + 1..]);
    OutsSizeConcat(m, parts[..p], [parts[p]] + parts[p + 1..]);
    OutsSizeConcat(m, parts[..p], [x] + parts[p + 1..]);
    assert ([x] + parts[p + 1..])[1..] == parts[p + 1..] == ([parts[p]] + parts[p + 1..])[1..];
  }

  /** A replaced image changes the size of its item by exactly placeholder minus image. */
  lemma ItemAccounting(z: Sizes, t: Texts, item: Item, i: nat)
    requires HasImage(item) && !FirstCandidate(t, item, i).location.ToolImage?
    ensures var c := FirstCandidate(t, item, i);
            ItemSize(z, Fast, EvictItem(t, item)) + c.imageBytes == ItemSize(z, Fast, item) + c.placeholderBytes
  {
    hide PartSize, OutSize, PartsSize, OutsSize, WithNote, FirstPart, FirstOut;
    match item
    case User(parts, _, _) => PartsSizeReplaced(Fast, parts, FirstPart(parts), Text(t.placeholder));
    case ToolResult(_, _, images, ordered) => OutsSizeReplaced(Fast, ordered, FirstOut(ordered), OutText(t.placeholder));
    case CustomToolOutput(_, _, _, output) => OutsSizeReplaced(Fast, output, FirstOut(output), OutText(t.placeholder));
  }

  lemma BodyReplaced(z: Sizes, m: Measure, h: seq<Item>, i: nat, x: Item)
    requires i < |h|
    ensures BodySize(z, m, h[i := x]) + ItemSize(z, m, h[i]) == BodySize(z, m, h) + ItemSize(z, m, x)
  {
    hide ItemSize;
    assert h == h[..i] + ([h[i]] + h[i + 1..]);
    assert h[i := x] == h[..i] + ([x] + h[i + 1..]);
    ItemsSizeConcat(z, m, h[..i], [h[i]] + h[i + 1..]);
    ItemsSizeConcat(z, m, h[..i], [x] + h[i + 1..]);
    assert ([x] + h[i + 1..])[1..] == h[i + 1..] == ([h[i]] + h[i + 1..])[1..];
  }

  lemma OneItemBody(z: Sizes, m: Measure, x: Item)
    ensures BodySize(z, m, [x]) == 2 + ItemSize(z, m, x)
  {
    hide ItemSize;
    assert ItemsSize(z, m, [x]) == ItemSize(z, m, x) + ItemsSize(z, m, [x][1..]);
  }

  // ----- how many images are evicted

  /** The least number of evictions after which the body fits or no image is left. */
  function EvictCount(z: Sizes, t: Texts, h: seq<Item>, target: nat): nat
    decreases |Urls(h)|
  {
    if BodySize(z, Fast, h) <= target || Urls(h) == [] then 0
    else
      EvictFirstUrls(t, h);
      1 + EvictCount(z, t, EvictFirst(t, h), target)
  }

  lemma {:induction false} EvictTimesFront(t: Texts, h: seq<Item>, k: nat)
    ensures EvictTimes(t, h, k + 1) == EvictTimes(t, EvictFirst(t, h), k)
    decreases k
  {
    hide EvictFirst;
    if k == 0 {
      assert EvictTimes(t, h, 1) == EvictFirst(t, EvictTimes(t, h, 0));
    } else {
      EvictTimesFront(t, h, k - 1);
    }
  }

  predicate Stops(z: Sizes, t: Texts, h: seq<Item>, target: nat, k: nat) {
    BodySize(z, Fast, EvictTimes(t, h, k)) <= target || k >= |Urls(h)|
  }

  /** The evictor stops as soon as the body fits, and not before: the final body is at most the
      target unless no image remains, and one eviction fewer leaves it above the target. */
  lemma {:induction false} EvictCountIsLeast(z: Sizes, t: Texts, h: seq<Item>, target: nat)
    ensures EvictCount(z, t, h, target) <= |Urls(h)|
    ensures Stops(z, t, h, target, EvictCount(z, t, h, target))
    ensures forall j: nat :: j < EvictCount(z, t, h, target) ==> !Stops(z, t, h, target, j)
    decreases |Urls(h)|
  {
    hide BodySize, Urls, EvictFirst;
    if BodySize(z, Fast, h) > target && Urls(h) != [] {
      EvictFirstUrls(t, h);
      var g := EvictFirst(t, h);
      EvictCountIsLeast(z, t, g, target);
      var k := EvictCount(z, t, g, target);
      EvictTimesFront(t, h, k);
      forall j: nat | j < k + 1 ensures !Stops(z, t, h, target, j) {
        if j > 0 {
          EvictTimesFront(t, h, j - 1);
          assert !Stops(z, t, g, target, j - 1);
        }
      }
    }
  }

  // ----- the evictor

  lemma ListedNext(t: Texts, slot: Slot, item: nat, images: seq<Option<nat>>, p: nat, found: seq<Candidate>)
    requires p < |images|
    ensures found + Listed(t, slot, item, images, p) ==
            (if images[p].Some? then found + [Candidate(At(slot, item, p), images[p].value, PlaceholderBytes(t, slot))] else found)
            + Listed(t, slot, item, images, p + 1)
  {
    hide At, PlaceholderBytes;
  }

  lemma ListedEnd(t: Texts, slot: Slot, item: nat, images: seq<Option<nat>>)
    ensures Listed(t, slot, item, images, |images|) == []
  {
  }

  method CollectParts(t: Texts, slot: Slot, i: nat, parts: seq<ContentPart>) returns (found: seq<Candidate>)
    requires slot.InUser? || slot.InImages?
    ensures found == Listed(t, slot, i, PartImages(parts), 0)
  {
    hide PartSize, At, PlaceholderBytes, PartImages, Listed;
    found := [];
    ghost var images := PartImages(parts);
    ListedEnd(t, slot, i, images);
    for p := 0 to |parts|
      invariant found + Listed(t, slot, i, images, p) == Listed(t, slot, i, images, 0)
    {
      ListedNext(t, slot, i, images, p, found);
      if parts[p].Image? {
        found := found + [Candidate(At(slot, i, p), PartSize(Fast, parts[p]), PlaceholderBytes(t, slot))];
      }
    }
  }

  method CollectOutput(t: Texts, slot: Slot, i: nat, parts: seq<OutputPart>) returns (found: seq<Candidate>)
    requires slot.InOrdered? || slot.InCustom?
    ensures found == Listed(t, slot, i, OutImages(parts), 0)
  {
    hide OutSize, At, PlaceholderBytes, OutImages, Listed;
    found := [];
    ghost var images := OutImages(parts);
    ListedEnd(t, slot, i, images);
    for p := 0 to |parts|
      invariant found + Listed(t, slot, i, images, p) == Listed(t, slot, i, images, 0)
    {
      ListedNext(t, slot, i, images, p, found);
      if parts[p].OutImage? {
        found := found + [Candidate(At(slot, i, p), OutSize(Fast, parts[p]), PlaceholderBytes(t, slot))];
      }
    }
  }

  method CollectItem(t: Texts, item: Item, i: nat) returns (found: seq<Candidate>)
    ensures found == ItemCandidates(t, item, i)
  {
    hide Listed;
    found := [];
    if item.User? {
      found := CollectParts(t, InUser, i, item.parts);
    } else if item.ToolResult? {
      var images := CollectParts(t, InImages, i, item.images);
      var ordered := CollectOutput(t, InOrdered, i, item.ordered);
      found := images + ordered;
    } else if item.CustomToolOutput? {
      found := CollectOutput(t, InCustom, i, item.output);
    }
  }

  method CollectImages(t: Texts, h: seq<Item>) returns (found: seq<Candidate>)
    ensures found == Candidates(t, h, 0)
  {
    hide ItemCandidates;
    found := [];
    for i := 0 to |h|
      invariant found + Candidates(t, h, i) == Candidates(t, h, 0)
    {
      var more := CollectItem(t, h[i], i);
      found := found + more;
    }
  }

  method RemoveFirstImage(images: seq<ContentPart>) returns (p: nat)
    ensures p == FirstPart(images)
  {
    hide PartSize;
    p := 0;
    ghost var all := PartImages(images);
    while p < |images| && !images[p].Image?
      invariant p <= |images| && FirstSome(all, p) == FirstSome(all, 0)
    {
      p := p + 1;
    }
  }

  /** One candidate is evicted in place; the outcome is the item's new and old weight. */
  method EvictAt(z: Sizes, t: Texts, a: array<Item>, c: Candidate) returns (replaced: bool, imageBytes: nat, placeholderBytes: nat)
    requires FirstItem(a[..], 0) < a.Length
    requires c == FirstCandidate(t, a[FirstItem(a[..], 0)], FirstItem(a[..], 0))
    modifies a
    ensures replaced && a[..] == EvictFirst(t, old(a[..]))
    ensures BodySize(z, Fast, a[..]) + imageBytes == BodySize(z, Fast, old(a[..])) + placeholderBytes
  {
    hide ItemSize, BodySize, PartSize, OutSize, WithNote, FirstPart, FirstOut, PlaceholderBytes;
    ghost var h := a[..];
    ghost var first := FirstItem(h, 0);
    replaced, imageBytes, placeholderBytes := false, c.imageBytes, c.placeholderBytes;
    var i := c.location.item;
    var item := a[i];
    if !c.location.ToolImage? {
      ItemAccounting(z, t, item, i);
    }
    match c.location {
      case UserPart(_, p) =>
        if item.User? && p < |item.parts| {
          a[i] := item.(parts := item.parts[p := Text(t.placeholder)]);
          replaced := true;
        }
      case ToolImage(_) =>
        imageBytes := ConversationBodyBytes(z, [item]);
        if item.ToolResult? {
          var p := RemoveFirstImage(item.images);
          if p < |item.images| {
            a[i] := item.(images := item.images[..p] + item.images[p + 1..], content := WithNote(t, item.content));
            placeholderBytes := ConversationBodyBytes(z, [a[i]]);
            replaced := true;
          }
        }
        OneItemBody(z, Fast, item);
        OneItemBody(z, Fast, a[i]);
      case ToolOrdered(_, p) =>
        if item.ToolResult? && p < |item.ordered| {
          a[i] := item.(ordered := item.ordered[p := OutText(t.placeholder)]);
          replaced := true;
        }
      case CustomPart(_, p) =>
        if item.CustomToolOutput? && p < |item.output| {
          a[i] := item.(output := item.output[p := OutText(t.placeholder)]);
          replaced := true;
        }
    }
    assert ItemSize(z, Fast, a[i]) + imageBytes == ItemSize(z, Fast, item) + placeholderBytes;
    ghost var x := a[i];
    BodyReplaced(z, Fast, h, first, x);
    assert a[..] == h[first := x];
  }

  /** `compact_images_to_byte_budget`: the running size is the measured size of the body after every
      eviction, so it never underflows. */
  method CompactImagesToByteBudget(z: Sizes, t: Texts, a: array<Item>, currentBytes: nat, target: nat)
    returns (evicted: nat, bodyBytesAfter: nat)
    requires currentBytes == BodySize(z, Fast, a[..])
    modifies a
    ensures evicted == EvictCount(z, t, old(a[..]), target)
    ensures a[..] == EvictTimes(t, old(a[..]), evicted)
    ensures bodyBytesAfter == BodySize(z, Fast, a[..])
  {
    hide BodySize, Candidates, FirstItem, FirstCandidate, EvictFirst, EvictCount, EvictTimes, Urls;
    EvictionStarts(z, t, a[..], target);
    if currentBytes <= target {
      return 0, currentBytes;
    }
    var images := CollectImages(t, a[..]);
    evicted, bodyBytesAfter := 0, currentBytes;
    var k := 0;
    while k < |images| && bodyBytesAfter > target
      invariant 0 <= k == evicted <= |images|
      invariant Candidates(t, a[..], 0) == images[k..]
      invariant bodyBytesAfter == BodySize(z, Fast, a[..])
      invariant a[..] == EvictTimes(t, old(a[..]), evicted)
      invariant EvictCount(z, t, old(a[..]), target) == evicted + EvictCount(z, t, a[..], target)
      decreases |images| - k
    {
      ghost var h := a[..];
      CandidatesStep(t, h);
      FirstItemBound(h);
      EvictionStep(z, t, old(a[..]), h, evicted, target);
      var replaced, imageBytes, placeholderBytes := EvictAt(z, t, a, images[k]);
      if replaced {
        if imageBytes >= placeholderBytes {
          bodyBytesAfter := bodyBytesAfter - (imageBytes - placeholderBytes);
        } else {
          bodyBytesAfter := bodyBytesAfter + (placeholderBytes - imageBytes);
        }
        evicted := evicted + 1;
      }
      k := k + 1;
    }
    CandidatesStep(t, a[..]);
    EvictionStarts(z, t, a[..], target);
  }

  lemma EvictionStarts(z: Sizes, t: Texts, h: seq<Item>, target: nat)
    ensures EvictTimes(t, h, 0) == h
    ensures BodySize(z, Fast, h) <= target || FirstItem(h, 0) == |h| ==> EvictCount(z, t, h, target) == 0
  {
    hide BodySize, FirstItem, Urls;
    EvictFirstUrls(t, h);
  }

  lemma EvictionStep(z: Sizes, t: Texts, start: seq<Item>, h: seq<Item>, k: nat, target: nat)
    requires h == EvictTimes(t, start, k) && BodySize(z, Fast, h) > target && FirstItem(h, 0) != |h|
    ensures EvictFirst(t, h) == EvictTimes(t, start, k + 1)
    ensures EvictCount(z, t, h, target) == 1 + EvictCount(z, t, EvictFirst(t, h), target)
  {
    hide BodySize, FirstItem, EvictFirst, Urls;
    EvictFirstUrls(t, h);
  }

  lemma FirstItemBound(h: seq<Item>)
    ensures FirstItem(h, 0) <= |h|
  {
  }
}
