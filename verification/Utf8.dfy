/** UTF-8 (section 3 of RFC 3629) and the byte truncator `truncate_text_to_bytes`. Texts elsewhere
    are sequences of scalar values; this module connects them to the bytes the truncator cuts. */
module Utf8 {
  import opened Bytes
  import opened Wrappers

  // ----- encoding

  function Encode(c: char): (b: seq<Byte>)
    ensures 1 <= |b| <= 4 && !IsContinuation(b[0])
    ensures forall k :: 1 <= k < |b| ==> IsContinuation(b[k])
  {
    var v := c as int;
    if v < 0x80 then [v]
    else if v < 0x800 then [0xC0 + v / 0x40, 0x80 + v % 0x40]
    else if v < 0x1_0000 then [0xE0 + v / 0x1000, 0x80 + v / 0x40 % 0x40, 0x80 + v % 0x40]
    else [0xF0 + v / 0x4_0000, 0x80 + v / 0x1000 % 0x40, 0x80 + v / 0x40 % 0x40, 0x80 + v % 0x40]
  }

  /** The scalar value that a sequence of bytes stands for, by the table of section 3 of RFC 3629. */
  function ScalarValue(b: seq<Byte>): int
    requires 1 <= |b| <= 4
  {
    match |b|
    case 1 => b[0]
    case 2 => Payload(b[0], 0xC0) * 0x40 + Payload(b[1], 0x80)
    case 3 => Payload(b[0], 0xE0) * 0x1000 + Payload(b[1], 0x80) * 0x40 + Payload(b[2], 0x80)
    case _ =>
      Payload(b[0], 0xF0) * 0x4_0000 + Payload(b[1], 0x80) * 0x1000 + Payload(b[2], 0x80) * 0x40 + Payload(b[3], 0x80)
  }

  function Payload(b: int, mark: int): int {
    b - mark
  }

  /** Encoding keeps the character, in as few bytes as its value allows. */
  lemma EncodeKeepsCharacter(c: char)
    ensures ScalarValue(Encode(c)) == c as int
    ensures |Encode(c)| == 1 <==> c as int < 0x80
    ensures |Encode(c)| <= 2 <==> c as int < 0x800
    ensures |Encode(c)| <= 3 <==> c as int < 0x1_0000
  {
    var v := c as int;
    assert v == v / 0x40 * 0x40 + v % 0x40;
    assert v / 0x40 == v / 0x1000 * 0x40 + v / 0x40 % 0x40 by { Quotient(v, 0x40, 0x40); }
    assert v / 0x1000 == v / 0x4_0000 * 0x40 + v / 0x1000 % 0x40 by { Quotient(v, 0x1000, 0x40); }
  }

  lemma Quotient(v: nat, a: nat, b: nat)
    requires (a == 0x40 || a == 0x1000) && b == 0x40
    ensures v / a == v / (a * b) * b + v / a % b
  {
  }

  predicate IsContinuation(b: Byte) {
    0x80 <= b < 0xC0
  }

  function EncodeAll(s: string): seq<Byte> {
    if s == "" then [] else EncodeAll(s[..|s| - 1]) + Encode(s[|s| - 1])
  }

  function Width(c: char): (n: nat)
    ensures n == |Encode(c)|
  {
    var v := c as int;
    if v < 0x80 then 1 else if v < 0x800 then 2 else if v < 0x1_0000 then 3 else 4
  }

  /** `str::len`: bytes of the encoding. */
  function Utf8Len(s: string): nat {
    if s == "" then 0 else Utf8Len(s[..|s| - 1]) + Width(s[|s| - 1])
  }

  lemma {:induction false} EncodeAllLength(s: string)
    ensures |EncodeAll(s)| == Utf8Len(s)
  {
    if s != "" { EncodeAllLength(s[..|s| - 1]); }
  }

  lemma {:induction false} Utf8LenConcat(s: string, t: string)
    ensures Utf8Len(s + t) == Utf8Len(s) + Utf8Len(t)
  {
    if t == "" {
      assert s + t == s;
    } else {
      Utf8LenConcat(s, t[..|t| - 1]);
      assert (s + t)[..|s + t| - 1] == s + t[..|t| - 1];
    }
  }

  lemma {:induction false} EncodeAllConcat(s: string, t: string)
    ensures EncodeAll(s + t) == EncodeAll(s) + EncodeAll(t)
  {
    hide Encode;
    if t == "" {
      assert s + t == s;
      assert EncodeAll(s) + EncodeAll(t) == EncodeAll(s);
    } else {
      var u, c := t[..|t| - 1], t[|t| - 1];
      EncodeAllConcat(s, u);
      assert (s + t)[..|s + t| - 1] == s + u;
      assert EncodeAll(s + t) == EncodeAll(s + u) + Encode(c);
      hide EncodeAll;
      assert EncodeAll(s) + EncodeAll(u) + Encode(c) == EncodeAll(s) + (EncodeAll(u) + Encode(c));
    }
  }

  lemma Utf8LenPrefix(s: string, i: nat, j: nat)
    requires i <= j <= |s|
    ensures Utf8Len(s[..i]) + (j - i) <= Utf8Len(s[..j]) <= Utf8Len(s[..i]) + 4 * (j - i)
    decreases j - i
  {
    if i < j {
      Utf8LenPrefix(s, i, j - 1);
      assert s[..j][..j - 1] == s[..j - 1];
    }
  }

  // ----- character boundaries

  /** `str::is_char_boundary`. */
  predicate IsCharBoundary(b: seq<Byte>, i: nat) {
    i == 0 || i == |b| || (i < |b| && !IsContinuation(b[i]))
  }

  ghost predicate IsPrefixLength(s: string, i: nat) {
    exists k: nat :: k <= |s| && Utf8Len(s[..k]) == i
  }

  lemma SnocPrefix(t: string, c: char, k: nat)
    requires k <= |t| + 1
    ensures (t + [c])[..k] == if k <= |t| then t[..k] else t + [c]
  {
  }

  lemma Utf8LenSnoc(t: string, c: char)
    ensures Utf8Len(t + [c]) == Utf8Len(t) + Width(c)
  {
    hide Width;
    SnocPrefix(t, c, |t|);
    assert t[..|t|] == t;
  }

  lemma PrefixLengthSnoc(t: string, c: char, i: nat)
    ensures IsPrefixLength(t + [c], i) <==> IsPrefixLength(t, i) || i == Utf8Len(t) + Width(c)
  {
    hide Width, Utf8Len;
    var s := t + [c];
    Utf8LenSnoc(t, c);
    if IsPrefixLength(s, i) {
      var k: nat :| k <= |s| && Utf8Len(s[..k]) == i;
      SnocPrefix(t, c, k);
      assert k <= |t| ==> Utf8Len(t[..k]) == i;
    }
    if IsPrefixLength(t, i) {
      var k: nat :| k <= |t| && Utf8Len(t[..k]) == i;
      SnocPrefix(t, c, k);
      assert Utf8Len(s[..k]) == i;
    }
    SnocPrefix(t, c, |s|);
    assert Utf8Len(s[..|s|]) == Utf8Len(t) + Width(c);
  }

  lemma BoundarySnoc(t: string, c: char, i: nat)
    requires i <= Utf8Len(t) + Width(c)
    ensures IsCharBoundary(EncodeAll(t + [c]), i) <==>
            (i <= Utf8Len(t) && IsCharBoundary(EncodeAll(t), i)) || i == Utf8Len(t) + Width(c)
  {
    hide Encode;
    var b, e := EncodeAll(t), Encode(c);
    EncodeAllLength(t);
    assert (t + [c])[..|t|] == t;
    assert EncodeAll(t + [c]) == b + e;
    if i < |b| {
      assert (b + e)[i] == b[i];
    } else if i < |b| + |e| {
      assert (b + e)[i] == e[i - |b|];
    }
  }

  /** The boundaries of an encoded text are the lengths of its prefixes. */
  lemma {:induction false} BoundaryIffPrefix(s: string, i: nat)
    requires i <= Utf8Len(s)
    ensures |EncodeAll(s)| == Utf8Len(s)
    ensures IsCharBoundary(EncodeAll(s), i) <==> IsPrefixLength(s, i)
  {
    hide IsCharBoundary, IsPrefixLength;
    EncodeAllLength(s);
    if s == "" {
      BoundaryOfEmpty();
    } else {
      var t, c := s[..|s| - 1], s[|s| - 1];
      assert s == t + [c];
      PrefixLengthSnoc(t, c, i);
      BoundarySnoc(t, c, i);
      if i <= Utf8Len(t) {
        BoundaryIffPrefix(t, i);
      } else {
        PrefixLengthBounded(t, i);
      }
    }
  }

  lemma BoundaryOfEmpty()
    ensures IsCharBoundary(EncodeAll(""), 0) && IsPrefixLength("", 0)
  {
    assert ""[..0] == "";
  }

  lemma PrefixLengthBounded(s: string, i: nat)
    requires Utf8Len(s) < i
    ensures !IsPrefixLength(s, i)
  {
    forall k: nat | k <= |s| ensures Utf8Len(s[..k]) <= Utf8Len(s) {
      Utf8LenPrefix(s, k, |s|);
      assert s[..|s|] == s;
    }
  }

  // ----- truncation

  /** Length of the longest prefix of `s` within `budget` bytes. */
  function PrefixWithin(s: string, budget: nat): (k: nat)
    ensures k <= |s| && Utf8Len(s[..k]) <= budget
    ensures forall j: nat :: j <= |s| && Utf8Len(s[..j]) <= budget ==> j <= k
  {
    if Utf8Len(s) <= budget then assert s[..|s|] == s; |s|
    else
      var t := s[..|s| - 1];
      assert forall j: nat :: j <= |t| ==> t[..j] == s[..j];
      assert s[..|s|] == s;
      PrefixWithin(t, budget)
  }

  function Digit(n: nat): char
    requires n < 10
  {
    ("0123456789")[n]
  }

  function Decimal(n: nat): (s: string)
    ensures s != "" && forall c :: c in s ==> '0' <= c <= '9'
  {
    if n < 10 then [Digit(n)] else Decimal(n / 10) + [Digit(n % 10)]
  }

  function DigitValue(c: char): int {
    c as int - '0' as int
  }

  /** The number a string of digits stands for. */
  function NumberOf(s: string): int {
    if s == "" then 0 else NumberOf(s[..|s| - 1]) * 10 + DigitValue(s[|s| - 1])
  }

  /** A decimal reads back as its number, and has no leading zero. */
  lemma {:induction false} DecimalReadsBack(n: nat)
    ensures NumberOf(Decimal(n)) == n
    ensures |Decimal(n)| > 1 ==> Decimal(n)[0] != '0'
  {
    DigitReadsBack(n % 10);
    if n < 10 {
      assert Decimal(n)[..0] == "";
    } else {
      DecimalReadsBack(n / 10);
      assert Decimal(n)[..|Decimal(n)| - 1] == Decimal(n / 10);
      if n / 10 < 10 {
        DigitReadsBack(n / 10);
      }
    }
  }

  lemma DigitReadsBack(n: nat)
    requires n < 10
    ensures DigitValue(Digit(n)) == n
  {
  }

  function Marker(dropped: nat): string {
    "\n[... truncated " + Decimal(dropped) + " bytes to fit the compaction window ...]"
  }

  const MARKER_RESERVE: nat := 64

  /** The bytes a cut after `k` characters drops. */
  function BytesAfter(s: string, k: nat): nat
    requires k <= |s|
  {
    Utf8Len(s[k..])
  }

  lemma BytesAfterIs(s: string, k: nat)
    requires k <= |s|
    ensures BytesAfter(s, k) == Utf8Len(s) - Utf8Len(s[..k])
  {
    assert s == s[..k] + s[k..];
    Utf8LenConcat(s[..k], s[k..]);
  }

  /** What `truncate_text_to_bytes` returns; `None` when the text already fits. */
  function TruncateText(s: string, maxBytes: nat): (r: Option<string>)
    ensures r.None? <==> Utf8Len(s) <= maxBytes
    ensures r.Some? ==> Utf8Len(r.value) <= maxBytes
  {
    if Utf8Len(s) <= maxBytes then None
    else
      var keep := if maxBytes < MARKER_RESERVE then 0 else maxBytes - MARKER_RESERVE;
      var k := PrefixWithin(s, keep);
      var marked := s[..k] + Marker(BytesAfter(s, k));
      if Utf8Len(marked) <= maxBytes then Some(marked)
      else Some(s[..PrefixWithin(s, maxBytes)])
  }

  /** The result is a prefix of the text, followed by the exact count of the bytes dropped when the
      marker fits, and otherwise as long as the budget allows. */
  lemma TruncatedForm(s: string, maxBytes: nat, r: string) returns (k: nat)
    requires TruncateText(s, maxBytes) == Some(r)
    ensures k <= |s| && (r == s[..k] + Marker(BytesAfter(s, k)) || (r == s[..k] && k == PrefixWithin(s, maxBytes)))
  {
    hide Marker, Utf8Len;
    k := PrefixWithin(s, if maxBytes < MARKER_RESERVE then 0 else maxBytes - MARKER_RESERVE);
    if r != s[..k] + Marker(BytesAfter(s, k)) {
      k := PrefixWithin(s, maxBytes);
    }
  }

  /** `k` characters are the longest prefix of at most `budget` bytes. */
  ghost predicate LongestPrefix(s: string, budget: nat, k: nat) {
    && k <= |s| && Utf8Len(s[..k]) <= budget
    && forall j: nat :: k < j <= |s| ==> Utf8Len(s[..j]) > budget
  }

  /** `r` is `s` cut to `maxBytes`: `s` itself if it fits; else the longest prefix that leaves 64 bytes
      free, with the count of the bytes dropped; else, where that marker does not fit, the longest
      prefix that fits. */
  ghost predicate IsCut(s: string, maxBytes: nat, r: string) {
    if Utf8Len(s) <= maxBytes then r == s
    else
      exists k: nat ::
        && LongestPrefix(s, if maxBytes < 64 then 0 else maxBytes - 64, k)
        && var marked := s[..k] + Marker(Utf8Len(s) - Utf8Len(s[..k]));
           if Utf8Len(marked) <= maxBytes then r == marked
           else exists m: nat :: LongestPrefix(s, maxBytes, m) && r == s[..m]
  }

  lemma TruncatedIsCut(s: string, maxBytes: nat)
    ensures IsCut(s, maxBytes, match TruncateText(s, maxBytes) case Some(t) => t case None => s)
  {
    hide Marker, Utf8Len, BytesAfter;
    if Utf8Len(s) > maxBytes {
      var keep := if maxBytes < 64 then 0 else maxBytes - 64;
      var k := PrefixWithin(s, keep);
      PrefixIsLongest(s, keep);
      PrefixIsLongest(s, maxBytes);
      BytesAfterIs(s, k);
      assert LongestPrefix(s, keep, k) && LongestPrefix(s, maxBytes, PrefixWithin(s, maxBytes));
    }
  }

  lemma PrefixIsLongest(s: string, budget: nat)
    ensures LongestPrefix(s, budget, PrefixWithin(s, budget))
  {
    hide Utf8Len;
  }

  /** The truncated text of a nonempty text is nonempty once any one character fits. */
  lemma TruncateKeepsSomething(s: string, maxBytes: nat)
    requires s != "" && 4 <= maxBytes
    ensures TruncateText(s, maxBytes).Some? ==> TruncateText(s, maxBytes).value != ""
  {
    Utf8LenPrefix(s, 0, 1);
    assert s[..0] == "";
    assert Utf8Len(s[..1]) <= maxBytes;
  }

  /** Steps back from `start` to the nearest character boundary. */
  method FloorCharBoundary(b: seq<Byte>, ghost s: string, start: nat) returns (end: nat)
    requires b == EncodeAll(s) && start <= |b|
    ensures end == Utf8Len(s[..PrefixWithin(s, start)])
  {
    EncodeAllLength(s);
    end := start;
    while end > 0 && !IsCharBoundary(b, end)
      invariant end <= start
      invariant forall k: nat :: k <= |s| && Utf8Len(s[..k]) <= start ==> Utf8Len(s[..k]) <= end
    {
      BoundaryIffPrefix(s, end);
      end := end - 1;
    }
    BoundaryIffPrefix(s, end);
    ghost var k: nat :| k <= |s| && Utf8Len(s[..k]) == end;
    ghost var best := PrefixWithin(s, start);
    Utf8LenPrefix(s, k, best);
  }

  lemma EncodedPrefix(s: string, k: nat)
    requires k <= |s|
    ensures |EncodeAll(s[..k])| == Utf8Len(s[..k]) <= |EncodeAll(s)|
    ensures EncodeAll(s)[..Utf8Len(s[..k])] == EncodeAll(s[..k])
  {
    assert s == s[..k] + s[k..];
    EncodeAllConcat(s[..k], s[k..]);
    EncodeAllLength(s[..k]);
  }

  /** `truncate_text_to_bytes` on the bytes of a `str`: the cut always lands between characters, so
      the result is again an encoded text, and it is the one `TruncateText` describes. */
  method TruncateTextToBytes(b: seq<Byte>, ghost s: string, maxBytes: nat) returns (r: Option<seq<Byte>>)
    requires b == EncodeAll(s)
    ensures r.None? <==> TruncateText(s, maxBytes).None?
    ensures r.Some? ==> r.value == EncodeAll(TruncateText(s, maxBytes).value) && |r.value| <= maxBytes
  {
    hide EncodeAll, Utf8Len, PrefixWithin, Marker, BytesAfter;
    EncodeAllLength(s);
    if |b| <= maxBytes {
      return None;
    }
    var keep := if maxBytes < MARKER_RESERVE then 0 else maxBytes - MARKER_RESERVE;
    var end := FloorCharBoundary(b, s, keep);
    ghost var k := PrefixWithin(s, keep);
    var marker := Marker(|b| - end);
    BytesAfterIs(s, k);
    var withMarker := b[..end] + EncodeAll(marker);
    EncodedPrefix(s, k);
    EncodeAllConcat(s[..k], marker);
    EncodeAllLength(s[..k] + marker);
    if |withMarker| <= maxBytes {
      return Some(withMarker);
    }
    end := FloorCharBoundary(b, s, maxBytes);
    EncodedPrefix(s, PrefixWithin(s, maxBytes));
    return Some(b[..end]);
  }
}
