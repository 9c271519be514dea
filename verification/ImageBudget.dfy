/** Sizes of serialized histories, measured without scanning base64 image data. */
module ImageBudget {
  import opened Wrappers
  import opened Conversation
  import opened Strings
  import opened Utf8

  // ----- JSON strings (section 7 of RFC 8259, as serde_json writes them)

  function EscapedWidth(c: char): (n: nat)
    ensures Width(c) <= n
  {
    if c == '\"' || c == '\\' || c == '\n' || c == '\r' || c == '\t' || c == '\U{8}' || c == '\U{C}' then 2
    else if c < ' ' then 6
    else Width(c)
  }

  /** Bytes of the text between the quotes. */
  function Escaped(s: string): nat {
    if s == "" then 0 else EscapedWidth(s[0]) + Escaped(s[1..])
  }

  predicate NeedsNoEscape(s: string) {
    forall c :: c in s ==> EscapedWidth(c) == Width(c)
  }

  // ----- image URLs

  const COMMA := ","

  /** A data URL with a base64 body, whose tail is then not scanned. */
  predicate IsBase64Data(url: string) {
    var comma := Find(url, COMMA);
    comma.Some? && "data:" <= url[..comma.value] && EndsWith(url[..comma.value], ";base64")
  }

  predicate EndsWith(s: string, p: string) {
    |p| <= |s| && s[|s| - |p|..] == p
  }

  function Base64Tail(url: string): string
    requires IsBase64Data(url)
  {
    url[Find(url, COMMA).value + 1..]
  }

  /** `encoded_url_bytes`. */
  function EncodedUrlBytes(url: string): nat {
    if IsBase64Data(url)
    then Escaped(url[..Find(url, COMMA).value]) + 1 + Utf8Len(Base64Tail(url))
    else Escaped(url)
  }

  lemma {:induction false} EscapedConcat(a: string, b: string)
    ensures Escaped(a + b) == Escaped(a) + Escaped(b)
  {
    if a == "" {
      assert a + b == b;
    } else {
      EscapedConcat(a[1..], b);
      assert (a + b)[1..] == a[1..] + b;
    }
  }

  lemma {:induction false} EscapedAtLeast(s: string)
    ensures Utf8Len(s) <= Escaped(s)
    ensures Utf8Len(s) == Escaped(s) <==> NeedsNoEscape(s)
  {
    if s != "" {
      EscapedAtLeast(s[1..]);
      Utf8LenConcat([s[0]], s[1..]);
      assert s == [s[0]] + s[1..];
      assert [s[0]][..0] == "" && Utf8Len([s[0]]) == Width(s[0]);
    }
  }

  /** The unscanned measure of a URL is never too large, and exact unless a base64 tail holds a
      character that JSON escapes. */
  lemma FastUrlExactIff(url: string)
    ensures EncodedUrlBytes(url) <= Escaped(url)
    ensures EncodedUrlBytes(url) == Escaped(url) <==> (IsBase64Data(url) ==> NeedsNoEscape(Base64Tail(url)))
  {
    if IsBase64Data(url) {
      var i := Find(url, COMMA).value;
      OccurrenceChar(url, COMMA, i, 0);
      var header, tail := url[..i], url[i + 1..];
      assert url == header + [','] + tail;
      EscapedConcat(header + [','], tail);
      EscapedConcat(header, [',']);
      assert Escaped([',']) == 1 by { assert [','][1..] == ""; }
      EscapedAtLeast(tail);
    }
  }

  // ----- serialized sizes

  /** How a URL is measured: by scanning it, or by `encoded_url_bytes`. */
  datatype Measure = Plain | Fast

  function UrlBytes(m: Measure, url: string): nat {
    match m case Plain => Escaped(url) case Fast => EncodedUrlBytes(url)
  }

  /** Bytes of a JSON array: brackets, elements, commas. */
  function ListBytes(total: nat, count: nat): nat {
    2 + total + if count == 0 then 0 else count - 1
  }

  const PART_FRAME: nat := 25    // {"type":"text","text":""} and {"type":"image","url":""}
  const DETAIL_FRAME: nat := 12  // ,"detail":""

  function PartSize(m: Measure, part: ContentPart): nat {
    PART_FRAME + if part.Text? then Escaped(part.text) else UrlBytes(m, part.url)
  }

  function PartsSize(m: Measure, parts: seq<ContentPart>): nat {
    if parts == [] then 0 else PartSize(m, parts[0]) + PartsSize(m, parts[1..])
  }

  function DetailBytes(detail: ImageDetail): nat {
    match detail case Auto => 4 case Low => 3 case High => 4 case Original => 8
  }

  function OutSize(m: Measure, part: OutputPart): nat {
    PART_FRAME +
    if part.OutText? then Escaped(part.text) else UrlBytes(m, part.url) + DETAIL_FRAME + DetailBytes(part.detail)
  }

  function OutsSize(m: Measure, parts: seq<OutputPart>): nat {
    if parts == [] then 0 else OutSize(m, parts[0]) + OutsSize(m, parts[1..])
  }

  /** Sizes of what eviction never touches: the fields of a user item besides its content, and the
      items without images. */
  datatype Sizes = Sizes(user: (Option<SyntheticReason>, TurnMeta) -> nat, other: Item -> nat)

  function OptionalField(name: nat, value: Option<string>): nat {
    if value.Some? then name + Escaped(value.value) else 0
  }

  /** Serialized bytes of one item; empty image lists of a tool result are not written at all. */
  function ItemSize(z: Sizes, m: Measure, item: Item): nat {
    match item
    case User(parts, reason, turn) => 26 + ListBytes(PartsSize(m, parts), |parts|) + z.user(reason, turn)
    case ToolResult(id, content, images, ordered) =>
      53 + Escaped(id) + Escaped(content) +
      (if images == [] then 0 else 10 + ListBytes(PartsSize(m, images), |images|)) +
      if ordered == [] then 0 else 19 + ListBytes(OutsSize(m, ordered), |ordered|)
    case CustomToolOutput(id, itemId, name, output) =>
      53 + Escaped(id) + OptionalField(13, itemId) + OptionalField(10, name) +
      ListBytes(OutsSize(m, output), |output|)
    case _ => z.other(item)
  }

  function ItemsSize(z: Sizes, m: Measure, h: seq<Item>): nat {
    if h == [] then 0 else ItemSize(z, m, h[0]) + ItemsSize(z, m, h[1..])
  }

  /** Serialized bytes of a whole history. */
  function BodySize(z: Sizes, m: Measure, h: seq<Item>): nat {
    ListBytes(ItemsSize(z, m, h), |h|)
  }

  // ----- the images of a history, oldest first

  function PartUrls(parts: seq<ContentPart>): seq<string> {
    if parts == [] then []
    else if parts[0].Image? then [parts[0].url] + PartUrls(parts[1..]) else PartUrls(parts[1..])
  }

  function OutUrls(parts: seq<OutputPart>): seq<string> {
    if parts == [] then []
    else if parts[0].OutImage? then [parts[0].url] + OutUrls(parts[1..]) else OutUrls(parts[1..])
  }

  function ItemUrls(item: Item): seq<string> {
    match item
    case User(parts, _, _) => PartUrls(parts)
    case ToolResult(_, _, images, ordered) => PartUrls(images) + OutUrls(ordered)
    case CustomToolOutput(_, _, _, output) => OutUrls(output)
    case _ => []
  }

  function Urls(h: seq<Item>): seq<string> {
    if h == [] then [] else ItemUrls(h[0]) + Urls(h[1..])
  }

  function UrlsBytes(m: Measure, urls: seq<string>): nat {
    if urls == [] then 0 else UrlBytes(m, urls[0]) + UrlsBytes(m, urls[1..])
  }

  // ----- the measure over a blanked copy

  function BlankParts(parts: seq<ContentPart>): (r: seq<ContentPart>)
    ensures |r| == |parts|
  {
    if parts == [] then [] else [if parts[0].Image? then Image("") else parts[0]] + BlankParts(parts[1..])
  }

  function BlankOuts(parts: seq<OutputPart>): (r: seq<OutputPart>)
    ensures |r| == |parts|
  {
    if parts == [] then []
    else [if parts[0].OutImage? then OutImage("", parts[0].detail) else parts[0]] + BlankOuts(parts[1..])
  }

  function BlankItem(item: Item): Item {
    match item
    case User(parts, reason, turn) => User(BlankParts(parts), reason, turn)
    case ToolResult(id, content, images, ordered) => ToolResult(id, content, BlankParts(images), BlankOuts(ordered))
    case CustomToolOutput(id, itemId, name, output) => CustomToolOutput(id, itemId, name, BlankOuts(output))
    case _ => item
  }

  lemma {:induction false} UrlsBytesConcat(m: Measure, a: seq<string>, b: seq<string>)
    ensures UrlsBytes(m, a + b) == UrlsBytes(m, a) + UrlsBytes(m, b)
  {
    hide UrlBytes;
    if a == [] {
      assert a + b == b;
    } else {
      UrlsBytesConcat(m, a[1..], b);
      assert (a + b)[1..] == a[1..] + b;
    }
  }

  lemma {:induction false} BlankPartsSize(m: Measure, parts: seq<ContentPart>)
    ensures PartsSize(m, parts) == PartsSize(Plain, BlankParts(parts)) + UrlsBytes(m, PartUrls(parts))
  {
    hide EncodedUrlBytes;
    if parts != [] {
      BlankPartsSize(m, parts[1..]);
      assert BlankParts(parts)[1..] == BlankParts(parts[1..]);
      if parts[0].Image? {
        assert PartUrls(parts)[1..] == PartUrls(parts[1..]);
      }
    }
  }

  lemma {:induction false} BlankOutsSize(m: Measure, parts: seq<OutputPart>)
    ensures OutsSize(m, parts) == OutsSize(Plain, BlankOuts(parts)) + UrlsBytes(m, OutUrls(parts))
  {
    hide EncodedUrlBytes;
    if parts != [] {
      BlankOutsSize(m, parts[1..]);
      assert BlankOuts(parts)[1..] == BlankOuts(parts[1..]);
      if parts[0].OutImage? {
        assert OutUrls(parts)[1..] == OutUrls(parts[1..]);
      }
    }
  }

  /** Blanking an item's URLs takes exactly their bytes off its size. */
  lemma BlankItemSize(z: Sizes, m: Measure, item: Item)
    ensures ItemSize(z, m, item) == ItemSize(z, Plain, BlankItem(item)) + UrlsBytes(m, ItemUrls(item))
  {
    hide UrlBytes, UrlsBytes;
    NoUrls(m);
    match item
    case User(parts, _, _) => BlankPartsSize(m, parts);
    case ToolResult(_, _, images, ordered) =>
      BlankPartsSize(m, images);
      BlankOutsSize(m, ordered);
      UrlsBytesConcat(m, PartUrls(images), OutUrls(ordered));
    case CustomToolOutput(_, _, _, output) => BlankOutsSize(m, output);
    case _ =>
  }

  lemma NoUrls(m: Measure)
    ensures UrlsBytes(m, []) == 0
  {
  }

  method BlankContent(parts: seq<ContentPart>) returns (blank: seq<ContentPart>, bytes: nat)
    ensures blank == BlankParts(parts) && bytes == UrlsBytes(Fast, PartUrls(parts))
  {
    hide EncodedUrlBytes;
    blank, bytes := [], 0;
    for i := 0 to |parts|
      invariant blank + BlankParts(parts[i..]) == BlankParts(parts)
      invariant bytes + UrlsBytes(Fast, PartUrls(parts[i..])) == UrlsBytes(Fast, PartUrls(parts))
    {
      var part := parts[i];
      assert parts[i..][1..] == parts[i + 1..];
      if part.Image? {
        assert PartUrls(parts[i..])[1..] == PartUrls(parts[i + 1..]);
        bytes := bytes + EncodedUrlBytes(part.url);
        blank := blank + [Image("")];
      } else {
        blank := blank + [part];
      }
    }
  }

  method BlankOutput(parts: seq<OutputPart>) returns (blank: seq<OutputPart>, bytes: nat)
    ensures blank == BlankOuts(parts) && bytes == UrlsBytes(Fast, OutUrls(parts))
  {
    hide EncodedUrlBytes;
    blank, bytes := [], 0;
    for i := 0 to |parts|
      invariant blank + BlankOuts(parts[i..]) == BlankOuts(parts)
      invariant bytes + UrlsBytes(Fast, OutUrls(parts[i..])) == UrlsBytes(Fast, OutUrls(parts))
    {
      var part := parts[i];
      assert parts[i..][1..] == parts[i + 1..];
      if part.OutImage? {
        assert OutUrls(parts[i..])[1..] == OutUrls(parts[i + 1..]);
        bytes := bytes + EncodedUrlBytes(part.url);
        blank := blank + [OutImage("", part.detail)];
      } else {
        blank := blank + [part];
      }
    }
  }

  /** `conversation_body_bytes`: serialize a blanked copy, then add the URLs back. */
  method ConversationBodyBytes(z: Sizes, conversation: seq<Item>) returns (bytes: nat)
    ensures bytes == BodySize(z, Fast, conversation)
  {
    var blanked: seq<Item>, urlBytes: nat := [], 0;
    for i := 0 to |conversation|
      invariant |blanked| == i
      invariant ItemsSize(z, Plain, blanked) + urlBytes + ItemsSize(z, Fast, conversation[i..]) == ItemsSize(z, Fast, conversation)
    {
      hide ItemSize, UrlBytes;
      var item := conversation[i];
      var copy, bytes := item, 0;
      if item.User? {
        var parts, n := BlankContent(item.parts);
        copy, bytes := item.(parts := parts), n;
      } else if item.ToolResult? {
        var images, n := BlankContent(item.images);
        var ordered, k := BlankOutput(item.ordered);
        UrlsBytesConcat(Fast, PartUrls(item.images), OutUrls(item.ordered));
        copy, bytes := item.(images := images, ordered := ordered), n + k;
      } else if item.CustomToolOutput? {
        var output, n := BlankOutput(item.output);
        copy, bytes := item.(output := output), n;
      }
      assert copy == BlankItem(item) && bytes == UrlsBytes(Fast, ItemUrls(item));
      BlankItemSize(z, Fast, item);
      ItemsSizeSnoc(z, Plain, blanked, copy);
      assert conversation[i..][1..] == conversation[i + 1..];
      blanked, urlBytes := blanked + [copy], urlBytes + bytes;
    }
    bytes := BodySize(z, Plain, blanked) + urlBytes;
  }

  lemma {:induction false} ItemsSizeConcat(z: Sizes, m: Measure, a: seq<Item>, b: seq<Item>)
    ensures ItemsSize(z, m, a + b) == ItemsSize(z, m, a) + ItemsSize(z, m, b)
  {
    hide ItemSize;
    if a == [] {
      assert a + b == b;
    } else {
      ItemsSizeConcat(z, m, a[1..], b);
      assert (a + b)[1..] == a[1..] + b;
    }
  }

  lemma ItemsSizeSnoc(z: Sizes, m: Measure, a: seq<Item>, x: Item)
    ensures ItemsSize(z, m, a + [x]) == ItemsSize(z, m, a) + ItemSize(z, m, x)
  {
    hide ItemSize;
    ItemsSizeConcat(z, m, a, [x]);
    assert [x][1..] == [];
  }

  // ----- when the fast measure is the true size

  predicate CleanUrl(url: string) {
    IsBase64Data(url) ==> NeedsNoEscape(Base64Tail(url))
  }

  lemma {:induction false} FastUrlsExactIff(urls: seq<string>)
    ensures UrlsBytes(Fast, urls) <= UrlsBytes(Plain, urls)
    ensures UrlsBytes(Fast, urls) == UrlsBytes(Plain, urls) <==> forall u :: u in urls ==> CleanUrl(u)
  {
    hide CleanUrl, Escaped, EncodedUrlBytes;
    if urls != [] {
      FastUrlsExactIff(urls[1..]);
      FastUrlIsClean(urls[0]);
      assert urls == [urls[0]] + urls[1..];
    }
  }

  lemma FastUrlIsClean(url: string)
    ensures EncodedUrlBytes(url) <= Escaped(url)
    ensures EncodedUrlBytes(url) == Escaped(url) <==> CleanUrl(url)
  {
    FastUrlExactIff(url);
  }

  lemma {:induction false} ItemsFastExactIff(z: Sizes, h: seq<Item>)
    ensures ItemsSize(z, Fast, h) <= ItemsSize(z, Plain, h)
    ensures ItemsSize(z, Fast, h) == ItemsSize(z, Plain, h) <==> forall u :: u in Urls(h) ==> CleanUrl(u)
  {
    hide CleanUrl, ItemSize, UrlsBytes;
    if h != [] {
      ItemsFastExactIff(z, h[1..]);
      BlankItemSize(z, Fast, h[0]);
      BlankItemSize(z, Plain, h[0]);
      FastUrlsExactIff(ItemUrls(h[0]));
    }
  }

  /** The measure that skips base64 tails never exceeds the serialized size, and equals it exactly
      when no image's base64 tail holds a character JSON escapes. */
  lemma FastBodyExactIff(z: Sizes, h: seq<Item>)
    ensures BodySize(z, Fast, h) <= BodySize(z, Plain, h)
    ensures BodySize(z, Fast, h) == BodySize(z, Plain, h) <==> forall u :: u in Urls(h) ==> CleanUrl(u)
  {
    hide CleanUrl, ItemsSize;
    ItemsFastExactIff(z, h);
  }
}
