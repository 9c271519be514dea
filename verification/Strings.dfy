/** Text search, trimming and replacement, as Rust's `str` methods define them. A string is a
    sequence of Unicode scalar values; every pattern the modelled code searches for is nonempty. */
module Strings {
  import opened Wrappers

  // ----- occurrences

  predicate OccursAt(s: string, p: string, i: nat) {
    i + |p| <= |s| && s[i..i + |p|] == p
  }

  ghost predicate Occurs(s: string, p: string) {
    exists i: nat :: OccursAt(s, p, i)
  }

  /** `str::find`, started at `from`. */
  function FindFrom(s: string, p: string, from: nat): (r: Option<nat>)
    ensures r.Some? ==> from <= r.value && OccursAt(s, p, r.value)
    ensures r.Some? ==> forall j: nat :: from <= j < r.value ==> !OccursAt(s, p, j)
    ensures r.None? ==> forall j: nat :: from <= j ==> !OccursAt(s, p, j)
    decreases |s| - from
  {
    if |s| < from then None
    else if OccursAt(s, p, from) then Some(from)
    else FindFrom(s, p, from + 1)
  }

  function Find(s: string, p: string): (r: Option<nat>)
    ensures r.Some? <==> Occurs(s, p)
    ensures r.Some? ==> OccursAt(s, p, r.value)
    ensures r.Some? ==> forall j: nat :: j < r.value ==> !OccursAt(s, p, j)
  {
    FindFrom(s, p, 0)
  }

  /** `str::rfind`: the last occurrence that starts before `end`. */
  function RFindBefore(s: string, p: string, end: nat): (r: Option<nat>)
    ensures r.Some? ==> r.value < end && OccursAt(s, p, r.value)
    ensures r.Some? ==> forall j: nat :: r.value < j < end ==> !OccursAt(s, p, j)
    ensures r.None? ==> forall j: nat :: j < end ==> !OccursAt(s, p, j)
  {
    if end == 0 then None
    else if OccursAt(s, p, end - 1) then Some(end - 1)
    else RFindBefore(s, p, end - 1)
  }

  function RFind(s: string, p: string): (r: Option<nat>)
    requires p != ""
    ensures r.Some? <==> Occurs(s, p)
    ensures r.Some? ==> OccursAt(s, p, r.value)
    ensures r.Some? ==> forall j: nat :: r.value < j ==> !OccursAt(s, p, j)
  {
    RFindBefore(s, p, |s|)
  }

  predicate Contains(s: string, p: string)
    ensures Contains(s, p) <==> Occurs(s, p)
  {
    Find(s, p).Some?
  }

  /** An occurrence inside a slice is an occurrence in the whole, and back. */
  lemma OccursInSlice(s: string, p: string, lo: nat, hi: nat, i: nat)
    requires lo <= hi <= |s|
    ensures OccursAt(s[lo..hi], p, i) <==> i + |p| <= hi - lo && OccursAt(s, p, lo + i)
  {
    if i + |p| <= hi - lo {
      var t, u := s[lo..hi][i..i + |p|], s[lo + i..lo + i + |p|];
      assert forall k :: 0 <= k < |p| ==> t[k] == u[k];
      assert t == u;
    }
  }

  lemma SliceLacks(s: string, p: string, lo: nat, hi: nat)
    requires lo <= hi <= |s|
    requires !Occurs(s, p)
    ensures !Occurs(s[lo..hi], p)
  {
    forall i: nat ensures !OccursAt(s[lo..hi], p, i) {
      OccursInSlice(s, p, lo, hi, i);
    }
  }

  lemma OccurrenceChar(s: string, p: string, i: nat, k: nat)
    requires OccursAt(s, p, i) && k < |p|
    ensures s[i + k] == p[k]
  {
    assert s[i..i + |p|][k] == s[i + k];
  }

  lemma OccurrenceInside(s: string, p: string, i: nat)
    requires OccursAt(s, p, i)
    ensures i + |p| <= |s|
  {
  }

  /** Two occurrences of patterns that share no interior opening character cannot overlap. */
  lemma OccurrencesDisjoint(s: string, p: string, q: string, i: nat, j: nat)
    requires OccursAt(s, p, i) && OccursAt(s, q, j) && i < j
    requires q != "" && forall k :: 0 < k < |p| ==> p[k] != q[0]
    ensures i + |p| <= j
  {
    OccurrenceChar(s, q, j, 0);
    if j < i + |p| {
      OccurrenceChar(s, p, i, j - i);
    }
  }

  /** A pattern without the character `c` occurs on one side of `c` or the other. */
  lemma NoStraddle(a: string, c: char, b: string, p: string, i: nat)
    requires c !in p && p != ""
    ensures OccursAt(a + [c] + b, p, i) <==> OccursAt(a, p, i) || (|a| < i && OccursAt(b, p, i - |a| - 1))
  {
    var s := a + [c] + b;
    assert a == s[..|a|] && b == s[|a| + 1..];
    OccursInSlice(s, p, 0, |a|, i);
    if |a| < i {
      OccursInSlice(s, p, |a| + 1, |s|, i - |a| - 1);
    }
    assert s[|a|] == c && forall k :: 0 <= k < |p| ==> p[k] != c;
    if OccursAt(s, p, i) && i <= |a| < i + |p| {
      OccurrenceChar(s, p, i, |a| - i);
    }
  }

  /** Prepending text without occurrences moves the first occurrence by its length. */
  lemma FirstOccurrence(s: string, p: string, from: nat, i: nat)
    requires from <= i && OccursAt(s, p, i)
    requires forall j: nat :: from <= j < i ==> !OccursAt(s, p, j)
    ensures FindFrom(s, p, from) == Some(i)
  {
  }

  // ----- trimming

  /** The Unicode `White_Space` property, as `char::is_whitespace` tests it. */
  predicate IsWhitespace(c: char) {
    var v := c as int;
    0x9 <= v <= 0xD || v == 0x20 || v == 0x85 || v == 0xA0 || v == 0x1680 || 0x2000 <= v <= 0x200A ||
    v == 0x2028 || v == 0x2029 || v == 0x202F || v == 0x205F || v == 0x3000
  }

  function TrimStart(s: string): (r: string)
    ensures |r| <= |s| && r == s[|s| - |r|..]
    ensures r != "" ==> !IsWhitespace(r[0])
    ensures forall k :: 0 <= k < |s| - |r| ==> IsWhitespace(s[k])
  {
    if s != "" && IsWhitespace(s[0]) then TrimStart(s[1..]) else s
  }

  function TrimEnd(s: string): (r: string)
    ensures |r| <= |s| && r == s[..|r|]
    ensures r != "" ==> !IsWhitespace(r[|r| - 1])
    ensures forall k :: |r| <= k < |s| ==> IsWhitespace(s[k])
  {
    if s != "" && IsWhitespace(s[|s| - 1]) then TrimEnd(s[..|s| - 1]) else s
  }

  predicate Trimmed(s: string) {
    s != "" ==> !IsWhitespace(s[0]) && !IsWhitespace(s[|s| - 1])
  }

  function Trim(s: string): (r: string)
    ensures Trimmed(r)
    ensures Trimmed(s) ==> r == s
    ensures |r| <= |TrimStart(s)|
    ensures r == s[|s| - |TrimStart(s)|..][..|r|]
  {
    TrimEnd(TrimStart(s))
  }

  /** Whitespace around a text does not change what trimming leaves. */
  lemma TrimPadded(s: string, a: char, b: char)
    requires IsWhitespace(a) && IsWhitespace(b)
    ensures Trim([a] + s + [b]) == Trim(s)
  {
    hide IsWhitespace, TrimStart, TrimEnd;
    assert [a] + s + [b] == [a] + (s + [b]);
    TrimStartCons(a, s + [b]);
    TrimStartSnoc(s, b);
    TrimEndSnoc(TrimStart(s), b);
  }

  lemma TrimSnoc(s: string, b: char)
    requires IsWhitespace(b)
    ensures Trim(s + [b]) == Trim(s)
  {
    hide IsWhitespace, TrimStart, TrimEnd;
    TrimStartSnoc(s, b);
    TrimEndSnoc(TrimStart(s), b);
  }

  /** Trimming the end first changes nothing. */
  lemma {:induction false} TrimOfTrimEnd(s: string)
    ensures Trim(TrimEnd(s)) == Trim(s)
  {
    hide IsWhitespace, Trim, TrimStart, TrimEnd;
    if s != "" && IsWhitespace(s[|s| - 1]) {
      var t, b := s[..|s| - 1], s[|s| - 1];
      assert s == t + [b];
      TrimEndSnoc(t, b);
      TrimOfTrimEnd(t);
      TrimSnoc(t, b);
    } else {
      TrimEndKeeps(s);
    }
  }

  lemma TrimEndKeeps(s: string)
    requires s != "" ==> !IsWhitespace(s[|s| - 1])
    ensures TrimEnd(s) == s
  {
  }

  lemma TrimStartCons(a: char, t: string)
    requires IsWhitespace(a)
    ensures TrimStart([a] + t) == TrimStart(t)
  {
    assert ([a] + t)[1..] == t;
  }

  lemma TrimEndSnoc(t: string, b: char)
    requires IsWhitespace(b)
    ensures TrimEnd(t + [b]) == TrimEnd(t)
  {
    assert (t + [b])[..|t|] == t;
  }

  lemma {:induction false} TrimStartSnoc(s: string, b: char)
    requires IsWhitespace(b)
    ensures TrimStart(s + [b]) == if TrimStart(s) == "" then "" else TrimStart(s) + [b]
  {
    hide IsWhitespace;
    if s == "" {
      assert [b][1..] == "";
    } else {
      assert (s + [b])[1..] == s[1..] + [b];
      TrimStartSnoc(s[1..], b);
    }
  }

  lemma TrimLacks(s: string, p: string)
    requires !Occurs(s, p)
    ensures !Occurs(Trim(s), p)
  {
    var r := Trim(s);
    var lo := |s| - |TrimStart(s)|;
    assert r == s[lo..lo + |r|];
    SliceLacks(s, p, lo, lo + |r|);
  }

  // ----- replacing

  /** `str::replace`: every non-overlapping occurrence of `p`, left to right. */
  function Replace(s: string, p: string, r: string): (t: string)
    requires p != ""
    ensures !Occurs(s, p) ==> t == s
  {
    match Find(s, p)
    case None => s
    case Some(i) => s[..i] + r + Replace(s[i + |p|..], p, r)
  }
}
