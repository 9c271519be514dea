/** The JSON text of a history, as serde_json writes it: strings by section 7 of RFC 8259, with a
    reader that gives them back, and the frames of parts, items and lists. The sizes in `ImageBudget`
    are the byte lengths of these texts. */
module Json {
  import opened Wrappers
  import opened Conversation
  import opened Utf8
  import opened ImageBudget

  // ----- strings

  function HexDigit(n: nat): char
    requires n < 16
  {
    ("0123456789abcdef")[n]
  }

  function EscapeChar(c: char): string {
    if c == '\"' then "\\\""
    else if c == '\\' then "\\\\"
    else if c == '\n' then "\\n"
    else if c == '\r' then "\\r"
    else if c == '\t' then "\\t"
    else if c == '\U{8}' then "\\b"
    else if c == '\U{C}' then "\\f"
    else if c < ' ' then ['\\', 'u', '0', '0', HexDigit(c as int / 16), HexDigit(c as int % 16)]
    else [c]
  }

  /** What stands between the quotes. */
  function EscapeText(s: string): string {
    if s == "" then "" else EscapeChar(s[0]) + EscapeText(s[1..])
  }

  function HexValue(c: char): Option<nat> {
    if '0' <= c <= '9' then Some(c as int - '0' as int)
    else if 'a' <= c <= 'f' then Some(c as int - 'a' as int + 10)
    else if 'A' <= c <= 'F' then Some(c as int - 'A' as int + 10)
    else None
  }

  function ReadUnicode(t: string): Option<(char, string)>
    requires |t| >= 6
  {
    match (HexValue(t[2]), HexValue(t[3]), HexValue(t[4]), HexValue(t[5]))
    case (Some(a), Some(b), Some(c), Some(d)) =>
      var v := ((a * 16 + b) * 16 + c) * 16 + d;
      if v < 0xD800 then Some((v as char, t[6..])) else None
    case _ => None
  }

  /** The character that a string literal continues with, and what follows it. A raw quote or control
      character is none. */
  function ReadChar(t: string): Option<(char, string)> {
    if t == "" || t[0] == '\"' || t[0] < ' ' then None
    else if t[0] != '\\' then Some((t[0], t[1..]))
    else if |t| < 2 then None
    else match t[1]
         case '\"' => Some(('\"', t[2..]))
         case '\\' => Some(('\\', t[2..]))
         case '/' => Some(('/', t[2..]))
         case 'b' => Some(('\U{8}', t[2..]))
         case 'f' => Some(('\U{C}', t[2..]))
         case 'n' => Some(('\n', t[2..]))
         case 'r' => Some(('\r', t[2..]))
         case 't' => Some(('\t', t[2..]))
         case 'u' => if |t| < 6 then None else ReadUnicode(t)
         case _ => None
  }

  /** A string literal after its opening quote, up to its closing quote, and what follows that. */
  function ReadLiteral(t: string): Option<(string, string)>
    decreases |t|
  {
    if t == "" then None
    else if t[0] == '\"' then Some(("", t[1..]))
    else
      match ReadChar(t)
      case None => None
      case Some((c, rest)) =>
        ReadCharShrinks(t);
        match ReadLiteral(rest)
        case None => None
        case Some((s, after)) => Some(([c] + s, after))
  }

  lemma ReadCharShrinks(t: string)
    ensures ReadChar(t).Some? ==> |ReadChar(t).value.1| < |t|
  {
  }

  lemma HexReads(n: nat)
    requires n < 16
    ensures HexValue(HexDigit(n)) == Some(n)
  {
  }

  lemma EscapeReads(c: char, rest: string)
    ensures ReadChar(EscapeChar(c) + rest) == Some((c, rest))
    ensures EscapeChar(c) != "" && EscapeChar(c)[0] != '\"'
  {
    hide HexDigit;
    var e := EscapeChar(c);
    assert (e + rest)[|e|..] == rest;
    if c < ' ' {
      HexReads(c as int / 16);
      HexReads(c as int % 16);
      HexReads(0);
      assert HexValue('0') == Some(0);
    }
  }

  /** Every string reads back from its literal: no quote inside ends it, and its own quote does. */
  lemma {:induction false} LiteralReadsBack(s: string, rest: string)
    ensures ReadLiteral(EscapeText(s) + ['\"'] + rest) == Some((s, rest))
  {
    hide ReadChar, EscapeChar;
    var t := EscapeText(s) + ['\"'] + rest;
    if s == "" {
      assert t[0] == '\"' && t[1..] == rest;
    } else {
      var more := EscapeText(s[1..]) + ['\"'] + rest;
      assert t == EscapeChar(s[0]) + more;
      EscapeReads(s[0], more);
      ReadCharShrinks(t);
      LiteralReadsBack(s[1..], rest);
      assert [s[0]] + s[1..] == s;
    }
  }

  /** Nothing below U+0020 is written raw. */
  lemma {:induction false} EscapedIsPrintable(s: string)
    ensures forall c :: c in EscapeText(s) ==> c >= ' '
  {
    if s != "" {
      EscapedIsPrintable(s[1..]);
      EscapeCharPrintable(s[0]);
    }
  }

  lemma EscapeCharPrintable(c: char)
    ensures forall x :: x in EscapeChar(c) ==> x >= ' '
    ensures Utf8Len(EscapeChar(c)) == EscapedWidth(c)
  {
    var e := EscapeChar(c);
    if c < ' ' && |e| == 6 {
      HexPrintable(c as int / 16);
      HexPrintable(c as int % 16);
      AsciiLength(e);
    } else if |e| == 2 {
      AsciiLength(e);
    } else {
      assert e == [c] && e[..0] == "";
    }
  }

  lemma HexPrintable(n: nat)
    requires n < 16
    ensures ' ' <= HexDigit(n) < '\U{80}'
  {
  }

  // ----- byte lengths

  predicate Ascii(s: string) {
    forall i :: 0 <= i < |s| ==> s[i] < '\U{80}'
  }

  lemma {:induction false} AsciiLength(s: string)
    requires Ascii(s)
    ensures Utf8Len(s) == |s|
  {
    if s != "" {
      AsciiLength(s[..|s| - 1]);
    }
  }

  /** The sizes count the escaped text. */
  lemma {:induction false} EscapedCounts(s: string)
    ensures Utf8Len(EscapeText(s)) == Escaped(s)
  {
    hide EscapeChar, EscapedWidth;
    if s != "" {
      EscapedCounts(s[1..]);
      EscapeCharPrintable(s[0]);
      Utf8LenConcat(EscapeChar(s[0]), EscapeText(s[1..]));
    }
  }

  // ----- parts, items and histories

  const TEXT_OPEN := "{\"type\":\"text\",\"text\":\""
  const IMAGE_OPEN := "{\"type\":\"image\",\"url\":\""
  const DETAIL_FIELD := "\",\"detail\":\""
  const PART_CLOSE := "\"}"
  const USER_OPEN := "{\"type\":\"user\",\"content\":"
  const RESULT_OPEN := "{\"type\":\"tool_result\"," + "\"tool_call_id\":\""
  const CONTENT_FIELD := "\",\"content\":\""
  const IMAGES_FIELD := ",\"images\":"
  const ORDERED_FIELD := ",\"ordered_content\":"
  const CUSTOM_OPEN := "{\"type\":\"custom_tool_output\"," + "\"call_id\":\""
  const ITEM_ID_FIELD := ",\"item_id\":\""
  const NAME_FIELD := ",\"name\":\""
  const LIST_FIELD := ",\"content\":"
  const QUOTE := "\""
  const CLOSE := "}"

  lemma FrameLengths()
    ensures Utf8Len(TEXT_OPEN) == 23 && Utf8Len(IMAGE_OPEN) == 23 && Utf8Len(PART_CLOSE) == 2
    ensures Utf8Len(USER_OPEN) == 25 && Utf8Len(QUOTE) == 1 && Utf8Len(CLOSE) == 1
  {
    hide Utf8Len, Ascii;
    assert Ascii(TEXT_OPEN) by { TextOpenAscii(); }
    AsciiLength(TEXT_OPEN);
    assert Ascii(IMAGE_OPEN) by { ImageOpenAscii(); }
    AsciiLength(IMAGE_OPEN);
    assert Ascii(USER_OPEN) by { UserOpenAscii(); }
    AsciiLength(USER_OPEN);
    ShortLengths();
  }

  lemma TextOpenAscii()
    ensures Ascii(TEXT_OPEN)
  {
  }

  lemma ImageOpenAscii()
    ensures Ascii(IMAGE_OPEN)
  {
  }

  lemma UserOpenAscii()
    ensures Ascii(USER_OPEN)
  {
  }

  lemma ShortLengths()
    ensures Utf8Len(PART_CLOSE) == 2 && Utf8Len(QUOTE) == 1 && Utf8Len(CLOSE) == 1
  {
    AsciiLength(PART_CLOSE);
    AsciiLength(QUOTE);
    AsciiLength(CLOSE);
  }

  lemma FieldLengths()
    ensures Utf8Len(DETAIL_FIELD) == 12 && Utf8Len(CONTENT_FIELD) == 13 && Utf8Len(IMAGES_FIELD) == 10
    ensures Utf8Len(ITEM_ID_FIELD) == 12 && Utf8Len(NAME_FIELD) == 9 && Utf8Len(LIST_FIELD) == 11
  {
    AsciiLength(DETAIL_FIELD);
    AsciiLength(CONTENT_FIELD);
    AsciiLength(IMAGES_FIELD);
    AsciiLength(ITEM_ID_FIELD);
    AsciiLength(NAME_FIELD);
    AsciiLength(LIST_FIELD);
  }

  lemma OrderedLength()
    ensures Utf8Len(ORDERED_FIELD) == 19
  {
    AsciiLength(ORDERED_FIELD);
  }

  lemma ResultLength()
    ensures Utf8Len(RESULT_OPEN) == 38
  {
    AsciiLength(RESULT_OPEN);
  }

  lemma CustomLength()
    ensures Utf8Len(CUSTOM_OPEN) == 40
  {
    AsciiLength(CUSTOM_OPEN);
  }

  function DetailName(detail: ImageDetail): string {
    match detail case Auto => "auto" case Low => "low" case High => "high" case Original => "original"
  }

  function RenderPart(part: ContentPart): string {
    (if part.Text? then TEXT_OPEN + EscapeText(part.text) else IMAGE_OPEN + EscapeText(part.url)) + PART_CLOSE
  }

  function RenderOut(part: OutputPart): string {
    (if part.OutText? then TEXT_OPEN + EscapeText(part.text)
     else IMAGE_OPEN + EscapeText(part.url) + DETAIL_FIELD + DetailName(part.detail)) + PART_CLOSE
  }

  function RenderParts(parts: seq<ContentPart>): seq<string> {
    if parts == [] then [] else [RenderPart(parts[0])] + RenderParts(parts[1..])
  }

  function RenderOuts(parts: seq<OutputPart>): seq<string> {
    if parts == [] then [] else [RenderOut(parts[0])] + RenderOuts(parts[1..])
  }

  function Commas(values: seq<string>): string {
    if values == [] then "" else if |values| == 1 then values[0] else values[0] + "," + Commas(values[1..])
  }

  function RenderList(values: seq<string>): string {
    "[" + Commas(values) + "]"
  }

  /** The texts of what eviction never touches: the metadata fields of a user item, each with its
      leading comma, and the items without images. */
  datatype Rendering = Rendering(user: (Option<SyntheticReason>, TurnMeta) -> string, other: Item -> string)

  function OptionalText(name: string, value: Option<string>): string {
    if value.Some? then name + EscapeText(value.value) + QUOTE else ""
  }

  function RenderItem(r: Rendering, item: Item): string {
    match item
    case User(parts, reason, turn) => USER_OPEN + RenderList(RenderParts(parts)) + r.user(reason, turn) + CLOSE
    case ToolResult(id, content, images, ordered) =>
      RESULT_OPEN + EscapeText(id) + CONTENT_FIELD + EscapeText(content) + QUOTE +
      (if images == [] then "" else IMAGES_FIELD + RenderList(RenderParts(images))) +
      (if ordered == [] then "" else ORDERED_FIELD + RenderList(RenderOuts(ordered))) + CLOSE
    case CustomToolOutput(id, itemId, name, output) =>
      CUSTOM_OPEN + EscapeText(id) + QUOTE + OptionalText(ITEM_ID_FIELD, itemId) + OptionalText(NAME_FIELD, name) +
      LIST_FIELD + RenderList(RenderOuts(output)) + CLOSE
    case _ => r.other(item)
  }

  function RenderItems(r: Rendering, h: seq<Item>): seq<string> {
    if h == [] then [] else [RenderItem(r, h[0])] + RenderItems(r, h[1..])
  }

  /** The JSON text of a history. */
  function RenderHistory(r: Rendering, h: seq<Item>): string {
    RenderList(RenderItems(r, h))
  }

  function SizesOf(r: Rendering): Sizes {
    Sizes((reason, turn) => Utf8Len(r.user(reason, turn)), item => Utf8Len(r.other(item)))
  }

  // ----- the sizes are the lengths

  function TotalLen(values: seq<string>): nat {
    if values == [] then 0 else Utf8Len(values[0]) + TotalLen(values[1..])
  }

  lemma {:induction false} CommasLength(values: seq<string>)
    ensures Utf8Len(Commas(values)) == TotalLen(values) + if values == [] then 0 else |values| - 1
  {
    hide Utf8Len;
    NoBytes();
    if |values| == 1 {
      assert values[1..] == [];
    } else if |values| > 1 {
      CommasLength(values[1..]);
      Ones();
      Utf8LenConcat(values[0] + ",", Commas(values[1..]));
      Utf8LenConcat(values[0], ",");
    }
  }

  lemma NoBytes()
    ensures Utf8Len("") == 0
  {
  }

  lemma Ones()
    ensures Utf8Len(",") == 1 && Utf8Len("[") == 1 && Utf8Len("]") == 1
  {
    AsciiLength(",");
    AsciiLength("[");
    AsciiLength("]");
  }

  lemma ListLength(values: seq<string>)
    ensures Utf8Len(RenderList(values)) == ListBytes(TotalLen(values), |values|)
  {
    hide Utf8Len, Commas;
    Ones();
    CommasLength(values);
    Utf8LenConcat("[" + Commas(values), "]");
    Utf8LenConcat("[", Commas(values));
  }

  lemma DetailLength(detail: ImageDetail)
    ensures Utf8Len(DetailName(detail)) == DetailBytes(detail)
  {
    AsciiLength(DetailName(detail));
  }

  lemma PartLength(part: ContentPart)
    ensures Utf8Len(RenderPart(part)) == PartSize(Plain, part)
  {
    hide Utf8Len, EscapeText, Escaped;
    FrameLengths();
    var open, text := if part.Text? then TEXT_OPEN else IMAGE_OPEN, if part.Text? then part.text else part.url;
    EscapedCounts(text);
    Utf8LenConcat(open + EscapeText(text), PART_CLOSE);
    Utf8LenConcat(open, EscapeText(text));
  }

  lemma OutLength(part: OutputPart)
    ensures Utf8Len(RenderOut(part)) == OutSize(Plain, part)
  {
    hide Utf8Len, EscapeText, Escaped, DetailName;
    FrameLengths();
    FieldLengths();
    var open, text := if part.OutText? then TEXT_OPEN else IMAGE_OPEN, if part.OutText? then part.text else part.url;
    EscapedCounts(text);
    Utf8LenConcat(open, EscapeText(text));
    if part.OutText? {
      Utf8LenConcat(open + EscapeText(text), PART_CLOSE);
    } else {
      DetailLength(part.detail);
      Utf8LenConcat(open + EscapeText(text), DETAIL_FIELD);
      Utf8LenConcat(open + EscapeText(text) + DETAIL_FIELD, DetailName(part.detail));
      Utf8LenConcat(open + EscapeText(text) + DETAIL_FIELD + DetailName(part.detail), PART_CLOSE);
    }
  }

  lemma {:induction false} PartsLength(parts: seq<ContentPart>)
    ensures |RenderParts(parts)| == |parts| && TotalLen(RenderParts(parts)) == PartsSize(Plain, parts)
  {
    hide RenderPart, PartSize;
    if parts != [] {
      PartsLength(parts[1..]);
      PartLength(parts[0]);
    }
  }

  lemma {:induction false} OutsLength(parts: seq<OutputPart>)
    ensures |RenderOuts(parts)| == |parts| && TotalLen(RenderOuts(parts)) == OutsSize(Plain, parts)
  {
    hide RenderOut, OutSize;
    if parts != [] {
      OutsLength(parts[1..]);
      OutLength(parts[0]);
    }
  }

  lemma OptionalLength(name: string, value: Option<string>)
    ensures Utf8Len(OptionalText(name, value)) == OptionalField(Utf8Len(name) + 1, value)
  {
    hide Utf8Len, EscapeText, Escaped;
    NoBytes();
    FrameLengths();
    if value.Some? {
      EscapedCounts(value.value);
      Utf8LenConcat(name + EscapeText(value.value), QUOTE);
      Utf8LenConcat(name, EscapeText(value.value));
    }
  }

  lemma UserLength(r: Rendering, item: Item)
    requires item.User?
    ensures Utf8Len(RenderItem(r, item)) == ItemSize(SizesOf(r), Plain, item)
  {
    hide Utf8Len, RenderList, RenderParts, PartsSize;
    FrameLengths();
    PartsLength(item.parts);
    var list, meta := RenderList(RenderParts(item.parts)), r.user(item.reason, item.turn);
    ListLength(RenderParts(item.parts));
    Utf8LenConcat(USER_OPEN, list);
    Utf8LenConcat(USER_OPEN + list, meta);
    Utf8LenConcat(USER_OPEN + list + meta, CLOSE);
  }

  lemma ResultLengthIs(r: Rendering, item: Item)
    requires item.ToolResult?
    ensures Utf8Len(RenderItem(r, item)) == ItemSize(SizesOf(r), Plain, item)
  {
    hide Utf8Len, EscapeText, Escaped, RenderList, RenderParts, RenderOuts, PartsSize, OutsSize;
    NoBytes();
    FrameLengths();
    FieldLengths();
    OrderedLength();
    ResultLength();
    EscapedCounts(item.toolCallId);
    EscapedCounts(item.content);
    PartsLength(item.images);
    OutsLength(item.ordered);
    ListLength(RenderParts(item.images));
    ListLength(RenderOuts(item.ordered));
    Utf8LenConcat(IMAGES_FIELD, RenderList(RenderParts(item.images)));
    Utf8LenConcat(ORDERED_FIELD, RenderList(RenderOuts(item.ordered)));
    var id, content := EscapeText(item.toolCallId), EscapeText(item.content);
    var images := if item.images == [] then "" else IMAGES_FIELD + RenderList(RenderParts(item.images));
    var ordered := if item.ordered == [] then "" else ORDERED_FIELD + RenderList(RenderOuts(item.ordered));
    SevenLengths(RESULT_OPEN, id, CONTENT_FIELD, content, QUOTE, images, ordered, CLOSE);
  }

  lemma SevenLengths(a: string, b: string, c: string, d: string, e: string, f: string, g: string, h: string)
    ensures Utf8Len(a + b + c + d + e + f + g + h) ==
            Utf8Len(a) + Utf8Len(b) + Utf8Len(c) + Utf8Len(d) + Utf8Len(e) + Utf8Len(f) + Utf8Len(g) + Utf8Len(h)
  {
    hide Utf8Len;
    Utf8LenConcat(a, b);
    Utf8LenConcat(a + b, c);
    Utf8LenConcat(a + b + c, d);
    Utf8LenConcat(a + b + c + d, e);
    Utf8LenConcat(a + b + c + d + e, f);
    Utf8LenConcat(a + b + c + d + e + f, g);
    Utf8LenConcat(a + b + c + d + e + f + g, h);
  }

  lemma CustomLengthIs(r: Rendering, item: Item)
    requires item.CustomToolOutput?
    ensures Utf8Len(RenderItem(r, item)) == ItemSize(SizesOf(r), Plain, item)
  {
    hide Utf8Len, EscapeText, Escaped, RenderList, RenderOuts, OutsSize, OptionalText;
    FrameLengths();
    FieldLengths();
    CustomLength();
    EscapedCounts(item.callId);
    OptionalLength(ITEM_ID_FIELD, item.itemId);
    OptionalLength(NAME_FIELD, item.name);
    OutsLength(item.output);
    ListLength(RenderOuts(item.output));
    SevenLengths(CUSTOM_OPEN, EscapeText(item.callId), QUOTE, OptionalText(ITEM_ID_FIELD, item.itemId),
                 OptionalText(NAME_FIELD, item.name), LIST_FIELD, RenderList(RenderOuts(item.output)), CLOSE);
  }

  lemma ItemLength(r: Rendering, item: Item)
    ensures Utf8Len(RenderItem(r, item)) == ItemSize(SizesOf(r), Plain, item)
  {
    hide Utf8Len, ItemSize, RenderItem;
    if item.User? {
      UserLength(r, item);
    } else if item.ToolResult? {
      ResultLengthIs(r, item);
    } else if item.CustomToolOutput? {
      CustomLengthIs(r, item);
    } else {
      OtherLength(r, item);
    }
  }

  lemma OtherLength(r: Rendering, item: Item)
    requires !item.User? && !item.ToolResult? && !item.CustomToolOutput?
    ensures Utf8Len(RenderItem(r, item)) == ItemSize(SizesOf(r), Plain, item)
  {
    hide Utf8Len;
  }

  lemma {:induction false} ItemsLength(r: Rendering, h: seq<Item>)
    ensures |RenderItems(r, h)| == |h| && TotalLen(RenderItems(r, h)) == ItemsSize(SizesOf(r), Plain, h)
  {
    hide RenderItem, ItemSize;
    if h != [] {
      ItemsLength(r, h[1..]);
      ItemLength(r, h[0]);
    }
  }

  /** The plain size of a history is the byte length of its JSON text. */
  lemma BodySizeIsLength(r: Rendering, h: seq<Item>)
    ensures Utf8Len(RenderHistory(r, h)) == BodySize(SizesOf(r), Plain, h)
  {
    hide Utf8Len, RenderItems, ItemsSize, RenderList;
    ItemsLength(r, h);
    ListLength(RenderItems(r, h));
  }

  /** What `conversation_body_bytes` computes is never more than the byte length of the JSON text, and
      is that length exactly when no image's base64 tail holds a character JSON escapes. */
  lemma MeasureIsLengthIff(r: Rendering, h: seq<Item>)
    ensures BodySize(SizesOf(r), Fast, h) <= Utf8Len(RenderHistory(r, h))
    ensures BodySize(SizesOf(r), Fast, h) == Utf8Len(RenderHistory(r, h)) <==> forall u :: u in Urls(h) ==> CleanUrl(u)
  {
    hide Utf8Len, BodySize, Urls, CleanUrl, RenderHistory;
    BodySizeIsLength(r, h);
    FastBodyExactIff(SizesOf(r), h);
  }
}
