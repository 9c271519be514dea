/** The cancel-safe line reader: a producer task that cuts a chunked byte stream into capped lines,
    a queue, and a consumer that serves them into buffers of any size. The cap on a line (64 MiB in
    the source) is a parameter. */
module LineReader {
  import opened Bytes
  import opened Wrappers

  const NEWLINE: Byte := 10

  // ----- bytes and chunks

  /** The bytes of a chunked source: what each `fill_buf` hands out, until the stream ends. */
  function Flatten(chunks: seq<seq<Byte>>): seq<Byte> {
    if chunks == [] then [] else chunks[0] + Flatten(chunks[1..])
  }

  /** A read of no bytes means the end, so chunks before the end are not empty. */
  predicate Flowing(chunks: seq<seq<Byte>>) {
    forall k :: 0 <= k < |chunks| ==> chunks[k] != []
  }

  /** Length of the first line of `s`, newline included; all of `s` when it has none. */
  function LineLen(s: seq<Byte>): (n: nat)
    ensures n <= |s|
    ensures NEWLINE !in s ==> n == |s|
    ensures NEWLINE in s ==> 0 < n && s[n - 1] == NEWLINE && NEWLINE !in s[..n - 1]
  {
    if s == [] then 0 else if s[0] == NEWLINE then 1
    else
      var n := LineLen(s[1..]);
      assert NEWLINE in s ==> s[..n] == [s[0]] + s[1..][..n - 1];
      1 + n
  }

  function NextLine(s: seq<Byte>): seq<Byte> {
    s[..LineLen(s)]
  }

  predicate Terminated(s: seq<Byte>) {
    s != [] && s[|s| - 1] == NEWLINE
  }

  lemma {:induction false} LineLenUnique(s: seq<Byte>, n: nat)
    requires 0 < n <= |s| && s[n - 1] == NEWLINE && NEWLINE !in s[..n - 1]
    ensures LineLen(s) == n
  {
    if n > 1 {
      assert s[..n - 1][0] == s[0] && s[..n - 1][1..] == s[1..][..n - 2];
      LineLenUnique(s[1..], n - 1);
    }
  }

  /** Bytes without a newline in front of a stream only lengthen its first line. */
  lemma LineLenAfter(partial: seq<Byte>, rest: seq<Byte>)
    requires NEWLINE !in partial
    ensures LineLen(partial + rest) == |partial| + LineLen(rest)
  {
    var n := LineLen(rest);
    if NEWLINE in rest {
      assert (partial + rest)[..|partial| + n - 1] == partial + rest[..n - 1];
      LineLenUnique(partial + rest, |partial| + n);
    }
  }

  // ----- reading one line

  class Source {
    var chunks: seq<seq<Byte>>
    /** Whether the stream ends in an I/O error instead of an end of file. */
    const fails: bool

    constructor (chunks: seq<seq<Byte>>, fails: bool)
      ensures this.chunks == chunks && this.fails == fails
    {
      this.chunks, this.fails := chunks, fails;
    }

    method FillBuf() returns (r: Option<seq<Byte>>)
      ensures r == if chunks != [] then Some(chunks[0]) else if fails then None else Some([])
    {
      if chunks != [] {
        r := Some(chunks[0]);
      } else {
        r := if fails then None else Some([]);
      }
    }

    method Consume(n: nat)
      requires chunks != [] && n <= |chunks[0]|
      modifies this
      ensures chunks == Consumed(old(chunks), n)
    {
      chunks := (if n < |chunks[0]| then [chunks[0][n..]] else []) + chunks[1..];
    }
  }

  function Consumed(chunks: seq<seq<Byte>>, n: nat): seq<seq<Byte>>
    requires chunks != [] && n <= |chunks[0]|
  {
    (if n < |chunks[0]| then [chunks[0][n..]] else []) + chunks[1..]
  }

  lemma ConsumedBytes(chunks: seq<seq<Byte>>, n: nat)
    requires chunks != [] && n <= |chunks[0]| && Flowing(chunks)
    ensures Flowing(Consumed(chunks, n))
    ensures chunks[0][..n] + Flatten(Consumed(chunks, n)) == Flatten(chunks)
  {
    var left := if n < |chunks[0]| then [chunks[0][n..]] else [];
    if n < |chunks[0]| {
      assert Consumed(chunks, n)[1..] == chunks[1..];
    } else {
      assert Consumed(chunks, n) == chunks[1..];
    }
  }

  datatype ReadResult =
    | Line(bytes: seq<Byte>)
    | TooLong(lost: seq<Byte>)
    | Io(lost: seq<Byte>)

  /** Whether a line is read depends on the bytes and the cap, never on how the bytes are chunked;
      what an over-long line loses does. */
  predicate ReadOutcome(all: seq<Byte>, cap: nat, fails: bool, r: ReadResult, rest: seq<seq<Byte>>) {
    var line := NextLine(all);
    && (r.Line? <==> |line| <= cap && (Terminated(line) || !fails))
    && (r.TooLong? <==> |line| > cap)
    && (r.Line? ==> r.bytes == line && Flatten(rest) == all[|line|..])
    && (!r.Line? ==> r.lost <= line && all == r.lost + Flatten(rest))
    && (r.TooLong? ==> cap < |r.lost|)
    && (r.Io? ==> rest == [])
  }

  /** `read_line_capped`. */
  method ReadLineCapped(source: Source, cap: nat) returns (r: ReadResult)
    requires Flowing(source.chunks)
    modifies source
    ensures Flowing(source.chunks)
    ensures ReadOutcome(old(Flatten(source.chunks)), cap, source.fails, r, source.chunks)
  {
    hide LineLen, Flatten, Consumed, NextLine, Flowing, Terminated, ReadOutcome;
    ghost var all := Flatten(source.chunks);
    var buf: seq<Byte> := [];
    while true
      invariant Flowing(source.chunks)
      invariant NEWLINE !in buf && |buf| <= cap
      invariant all == buf + Flatten(source.chunks)
      decreases |Flatten(source.chunks)|
    {
      var available := source.FillBuf();
      if available.None? {
        AtEnd(all, cap, buf, source.fails, source.chunks);
        return Io(buf);
      }
      if source.chunks == [] {
        AtEnd(all, cap, buf, source.fails, source.chunks);
      } else {
        FillProgress(all, cap, buf, source.fails, source.chunks);
      }
      if available.value == [] {
        return Line(buf);
      }
      var consumed := LineLen(available.value);
      buf := buf + available.value[..consumed];
      source.Consume(consumed);
      if |buf| > cap {
        return TooLong(buf);
      }
      if NEWLINE in available.value {
        return Line(buf);
      }
    }
  }

  lemma AtEnd(all: seq<Byte>, cap: nat, buf: seq<Byte>, fails: bool, chunks: seq<seq<Byte>>)
    requires NEWLINE !in buf && |buf| <= cap && all == buf + Flatten(chunks) && chunks == []
    ensures ReadOutcome(all, cap, fails, if fails then Io(buf) else Line(buf), chunks)
  {
    assert all == buf;
  }

  /** One round of filling and consuming: the buffer grows along the stream's first line, and holds
      all of it once a newline was found. */
  lemma FillProgress(all: seq<Byte>, cap: nat, buf: seq<Byte>, fails: bool, chunks: seq<seq<Byte>>)
    requires NEWLINE !in buf && all == buf + Flatten(chunks) && Flowing(chunks) && chunks != []
    ensures var n := LineLen(chunks[0]);
            var buf', rest := buf + chunks[0][..n], Consumed(chunks, n);
            && chunks[0] != [] && Flowing(rest) && |Flatten(rest)| < |Flatten(chunks)|
            && all == buf' + Flatten(rest)
            && (|buf'| > cap ==> ReadOutcome(all, cap, fails, TooLong(buf'), rest))
            && (NEWLINE in chunks[0] && |buf'| <= cap ==> ReadOutcome(all, cap, fails, Line(buf'), rest))
            && (NEWLINE !in chunks[0] ==> NEWLINE !in buf')
  {
    hide LineLen, Consumed, Flatten;
    var n := LineLen(chunks[0]);
    LineLenAfter(buf, Flatten(chunks));
    FirstChunk(chunks);
    ConsumedBytes(chunks, n);
    var buf', rest := buf + chunks[0][..n], Consumed(chunks, n);
    assert all == buf' + Flatten(rest);
    assert buf' == all[..|buf'|];
    if NEWLINE in chunks[0] {
      LineFound(chunks[0]);
    }
  }

  lemma LineFound(s: seq<Byte>)
    requires NEWLINE in s
    ensures 0 < LineLen(s) <= |s| && s[LineLen(s) - 1] == NEWLINE
  {
  }

  /** The line found in the first chunk is the stream's own first line, or the chunk has no newline
      and all of it belongs to that line. */
  lemma FirstChunk(chunks: seq<seq<Byte>>)
    requires Flowing(chunks) && chunks != []
    ensures 0 < LineLen(chunks[0]) <= LineLen(Flatten(chunks))
    ensures NEWLINE in chunks[0] ==> LineLen(Flatten(chunks)) == LineLen(chunks[0])
    ensures NEWLINE !in chunks[0] ==> chunks[0][..LineLen(chunks[0])] == chunks[0]
  {
    var n := LineLen(chunks[0]);
    if NEWLINE in chunks[0] {
      assert Flatten(chunks)[..n - 1] == chunks[0][..n - 1];
      LineLenUnique(Flatten(chunks), n);
    } else {
      LineLenAfter(chunks[0], Flatten(chunks[1..]));
    }
  }
}
