/** Removing tag blocks leaves the text around them. */
module TagBlocks {
  import opened Wrappers
  import opened Strings
  import opened Query

  /** A text as its writer made it: plain stretches, and blocks of the tag. */
  datatype Segment = Plain(text: string) | Block(inner: string)

  function Render(segments: seq<Segment>, tag: string): string {
    if segments == [] then ""
    else match segments[0]
         case Plain(text) => text + Render(segments[1..], tag)
         case Block(inner) => Open(tag) + (inner + (Close(tag) + Render(segments[1..], tag)))
  }

  /** The text outside the blocks. */
  function Outside(segments: seq<Segment>): string {
    if segments == [] then ""
    else match segments[0]
         case Plain(text) => text + Outside(segments[1..])
         case Block(_) => Outside(segments[1..])
  }

  /** No block ends before its own closing tag. */
  ghost predicate Closed(segments: seq<Segment>, tag: string) {
    forall k :: 0 <= k < |segments| && segments[k].Block? ==> !Occurs(segments[k].inner, Close(tag))
  }

  /** An occurrence of `p` that starts inside `a` lies inside it, if what follows `a` starts with the
      character that `p` has in front only. */
  lemma OccurrenceStays(a: string, b: string, p: string, j: nat)
    requires OccursAt(a + b, p, j) && j < |a|
    requires b != "" && forall k :: 0 < k < |p| ==> p[k] != b[0]
    ensures OccursAt(a, p, j)
  {
    var s := a + b;
    OccurrenceInside(s, p, j);
    assert s[|a|] == b[0];
    if j + |p| > |a| {
      OccurrenceChar(s, p, j, |a| - j);
    }
    assert s[j..j + |p|] == a[j..j + |p|];
  }

  lemma TagChars(tag: string)
    requires '<' !in tag && '/' !in tag
    ensures Open(tag)[0] == '<' && forall k :: 0 < k < |Open(tag)| ==> Open(tag)[k] != '<'
    ensures |Open(tag)| > 1 && Open(tag)[1] != '/' && |Close(tag)| > 1 && Close(tag)[1] == '/'
    ensures Close(tag)[0] == '<' && forall k :: 0 < k < |Close(tag)| ==> Close(tag)[k] != '<'
  {
  }

  lemma OccursAtFront(a: string, p: string, b: string)
    ensures OccursAt(a + (p + b), p, |a|)
  {
  }

  /** The first block of a text that opens none before it. */
  lemma BlockFound(pre: string, inner: string, rest: string, tag: string)
    requires '<' !in tag && '/' !in tag && !Occurs(pre, Open(tag)) && !Occurs(inner, Close(tag))
    ensures var o, c := Open(tag), Close(tag);
            TagBlockRange(pre + (o + (inner + (c + rest))), tag) ==
            Some(Range(|pre|, |pre| + |o| + |inner| + |c|))
  {
    hide Occurs, TagBlockRange, OccursAt, Open, Close;
    var o, c := Open(tag), Close(tag);
    TagChars(tag);
    var after := inner + (c + rest);
    var text := pre + (o + after);
    OccursAtFront(pre, o, after);
    forall j: nat | j < |pre| ensures !OccursAt(text, o, j) {
      if OccursAt(text, o, j) {
        OccurrenceStays(pre, o + after, o, j);
        Witness(pre, o, j);
      }
    }
    assert pre + (o + "") == pre + o;
    OccursAtFront(pre, o, "");
    CloseFound(pre + o, inner, rest, o, c, |pre|);
    assert text == (pre + o) + (inner + (c + rest));
    RangeIs(text, tag, |pre|, |pre| + |o| + |inner|);
  }

  lemma Witness(s: string, p: string, j: nat)
    requires OccursAt(s, p, j)
    ensures Occurs(s, p)
  {
  }

  lemma RangeIs(text: string, tag: string, start: nat, close: nat)
    requires OccursAt(text, Open(tag), start) && forall j: nat :: j < start ==> !OccursAt(text, Open(tag), j)
    requires OccursAt(text, Close(tag), close) && start <= close
    requires forall j: nat :: start <= j < close ==> !OccursAt(text, Close(tag), j)
    ensures TagBlockRange(text, tag) == Some(Range(start, close + |Close(tag)|))
  {
    hide Open, Close, OccursAt;
    assert Find(text, Open(tag)) == Some(start) by {
      Witness(text, Open(tag), start);
    }
    FirstOccurrence(text, Close(tag), start, close);
  }

  /** The closing tag of the block is the first one from its opening tag on. */
  lemma CloseFound(head: string, inner: string, rest: string, o: string, c: string, start: nat)
    requires |head| == start + |o| && OccursAt(head, o, start) && !Occurs(inner, c)
    requires c != "" && forall k :: 0 < k < |c| ==> c[k] != c[0]
    requires |o| > 1 && o[1] != '/' && |c| > 1 && c[1] == '/' && forall k :: 0 < k < |o| ==> o[k] != c[0]
    ensures var text := head + (inner + (c + rest));
            && OccursAt(text, c, |head| + |inner|)
            && forall j: nat :: start <= j < |head| + |inner| ==> !OccursAt(text, c, j)
  {
    hide Occurs;
    var text := head + (inner + (c + rest));
    assert text == (head + inner) + (c + rest);
    OccursAtFront(head + inner, c, rest);
    forall j: nat | start <= j < |head| + |inner| ensures !OccursAt(text, c, j) {
      if j < |head| {
        NoCloseInOpening(text, o, c, start, j);
      } else if OccursAt(text, c, j) {
        OccurrenceStays(head + inner, c + rest, c, j);
        assert (head + inner)[|head|..|head + inner|] == inner;
        OccursInSlice(head + inner, c, |head|, |head + inner|, j - |head|);
        Witness(inner, c, j - |head|);
      }
    }
  }

  lemma NoCloseInOpening(text: string, o: string, c: string, start: nat, j: nat)
    requires start <= j < start + |o| <= |text| && text[start..start + |o|] == o
    requires |o| > 1 && o[1] != '/' && |c| > 1 && c[1] == '/' && forall k :: 0 < k < |o| ==> o[k] != c[0]
    ensures !OccursAt(text, c, j)
  {
    assert text[j] == text[start..start + |o|][j - start] && text[start + 1] == text[start..start + |o|][1];
    if j + |c| <= |text| {
      var t := text[j..j + |c|];
      assert t[0] == text[j] && t[1] == text[j + 1];
    }
  }

  /** Exactly the text outside the blocks is left, whatever the blocks hold, if that text opens none. */
  lemma {:induction false} StripLeavesOutside(pre: string, segments: seq<Segment>, tag: string)
    requires '<' !in tag && '/' !in tag && Closed(segments, tag) && !Occurs(pre + Outside(segments), Open(tag))
    ensures StripTag(pre + Render(segments, tag), tag) == pre + Outside(segments)
    decreases |segments|
  {
    hide Open, Close, Occurs, TagBlockRange, StripTag;
    if segments == [] {
      assert pre + "" == pre;
      NoBlock(pre, tag);
    } else {
      var rest := segments[1..];
      assert Closed(rest, tag);
      match segments[0] {
        case Plain(text) =>
          assert pre + (text + Outside(rest)) == (pre + text) + Outside(rest);
          assert pre + (text + Render(rest, tag)) == (pre + text) + Render(rest, tag);
          StripLeavesOutside(pre + text, rest, tag);
        case Block(inner) =>
          LacksFront(pre, Outside(rest), Open(tag));
          BlockFound(pre, inner, Render(rest, tag), tag);
          StripOne(pre, inner, Render(rest, tag), tag);
          StripLeavesOutside(pre, rest, tag);
      }
    }
  }

  lemma NoBlock(text: string, tag: string)
    requires !Occurs(text, Open(tag))
    ensures StripTag(text, tag) == text
  {
    hide Open, Close;
  }

  lemma LacksFront(a: string, b: string, p: string)
    requires !Occurs(a + b, p)
    ensures !Occurs(a, p)
  {
    assert (a + b)[0..|a|] == a;
    SliceLacks(a + b, p, 0, |a|);
  }

  lemma StripOne(pre: string, inner: string, rest: string, tag: string)
    requires var o, c := Open(tag), Close(tag);
             TagBlockRange(pre + (o + (inner + (c + rest))), tag) == Some(Range(|pre|, |pre| + |o| + |inner| + |c|))
    ensures StripTag(pre + (Open(tag) + (inner + (Close(tag) + rest))), tag) == StripTag(pre + rest, tag)
  {
    hide Open, Close, TagBlockRange;
    var o, c := Open(tag), Close(tag);
    var text := pre + (o + (inner + (c + rest)));
    assert text[..|pre|] == pre && text[|pre| + |o| + |inner| + |c|..] == rest;
  }
}
