/** The arena string interner: one byte buffer, an offset table and a hash index, against the plain
    list of distinct strings it stands for. The hash is any function. */
module Interner {
  import opened Bytes
  import opened Wrappers

  const U32: nat := 0x1_0000_0000
  const U16: nat := 0x1_0000

  /** Start and length of a string in the arena. */
  datatype Span = Span(start: nat, len: nat)

  datatype Table = Table(arena: seq<Byte>, lookup: map<nat, seq<nat>>, offsets: seq<Span>)

  const EMPTY := Table([], map[], [])

  // ----- the operations on values

  /** `slice::get` with a range. */
  function Slice(arena: seq<Byte>, at: Span): Option<seq<Byte>> {
    if at.start + at.len <= |arena| then Some(arena[at.start..at.start + at.len]) else None
  }

  function GetBytes(st: Table, id: nat): Option<seq<Byte>> {
    if id < |st.offsets| then Slice(st.arena, st.offsets[id]) else None
  }

  /** The first id of a bucket whose string is `s`. */
  function Scan(st: Table, ids: seq<nat>, s: seq<Byte>): (r: Option<nat>)
    ensures r.Some? ==> r.value in ids && GetBytes(st, r.value) == Some(s)
    ensures r.None? ==> forall id :: id in ids ==> GetBytes(st, id) != Some(s)
  {
    if ids == [] then None
    else if GetBytes(st, ids[0]) == Some(s) then Some(ids[0])
    else Scan(st, ids[1..], s)
  }

  function Bucket(lookup: map<nat, seq<nat>>, h: nat): seq<nat> {
    if h in lookup then lookup[h] else []
  }

  function GetBytesId(hash: seq<Byte> -> nat, st: Table, s: seq<Byte>): Option<nat> {
    Scan(st, Bucket(st.lookup, hash(s)), s)
  }

  function Pushed(lookup: map<nat, seq<nat>>, h: nat, id: nat): map<nat, seq<nat>> {
    lookup[h := Bucket(lookup, h) + [id]]
  }

  /** The table after adding `s`, with the casts to 32 and 16 bits. */
  function Added(hash: seq<Byte> -> nat, st: Table, s: seq<Byte>): Table {
    Table(st.arena + s,
          Pushed(st.lookup, hash(s), |st.offsets| % U32),
          st.offsets + [Span(|st.arena| % U32, |s| % U16)])
  }

  function Interned(hash: seq<Byte> -> nat, st: Table, s: seq<Byte>): (Table, nat) {
    match GetBytesId(hash, st, s)
    case Some(id) => (st, id)
    case None => (Added(hash, st, s), |st.offsets| % U32)
  }

  function Rebuilt(hash: seq<Byte> -> nat, arena: seq<Byte>, offsets: seq<Span>, n: nat): map<nat, seq<nat>>
    requires n <= |offsets|
  {
    if n == 0 then map[]
    else
      var before := Rebuilt(hash, arena, offsets, n - 1);
      match Slice(arena, offsets[n - 1])
      case Some(bytes) => Pushed(before, hash(bytes), (n - 1) % U32)
      case None => before
  }

  function RebuiltTable(hash: seq<Byte> -> nat, arena: seq<Byte>, offsets: seq<Span>): Table {
    Table(arena, Rebuilt(hash, arena, offsets, |offsets|), offsets)
  }

  // ----- the object

  class StringInterner {
    const hash: seq<Byte> -> nat
    var arena: seq<Byte>
    var lookup: map<nat, seq<nat>>
    var offsets: seq<Span>

    function View(): Table
      reads this
    {
      Table(arena, lookup, offsets)
    }

    constructor (hash: seq<Byte> -> nat)
      ensures this.hash == hash && View() == EMPTY
    {
      this.hash := hash;
      arena, lookup, offsets := [], map[], [];
    }

    /** Rebuilds the hash index from serialized parts. */
    constructor FromParts(hash: seq<Byte> -> nat, arena: seq<Byte>, offsets: seq<Span>)
      ensures this.hash == hash && View() == RebuiltTable(hash, arena, offsets)
    {
      var index: map<nat, seq<nat>> := map[];
      for i := 0 to |offsets|
        invariant index == Rebuilt(hash, arena, offsets, i)
      {
        var bytes := Slice(arena, offsets[i]);
        if bytes.Some? {
          var h, id := hash(bytes.value), i % U32;
          if h in index {
            index := index[h := index[h] + [id]];
          } else {
            assert Bucket(index, h) + [id] == [id];
            index := index[h := [id]];
          }
        }
      }
      this.hash := hash;
      this.arena, this.lookup, this.offsets := arena, index, offsets;
    }

    method FindId(s: seq<Byte>) returns (r: Option<nat>)
      ensures r == GetBytesId(hash, View(), s)
    {
      var h := hash(s);
      if h in lookup {
        var ids := lookup[h];
        for i := 0 to |ids|
          invariant Scan(View(), ids, s) == Scan(View(), ids[i..], s)
        {
          if GetBytes(View(), ids[i]) == Some(s) {
            return Some(ids[i]);
          }
          assert ids[i..][1..] == ids[i + 1..];
        }
      }
      r := None;
    }

    method InternBytes(s: seq<Byte>) returns (id: nat)
      modifies this
      ensures (View(), id) == Interned(hash, old(View()), s)
    {
      var found := FindId(s);
      if found.Some? {
        return found.value;
      }
      var start, len := |arena| % U32, |s| % U16;
      arena := arena + s;
      id := |offsets| % U32;
      offsets := offsets + [Span(start, len)];
      var h := hash(s);
      if h in lookup {
        lookup := lookup[h := lookup[h] + [id]];
      } else {
        assert Bucket(lookup, h) + [id] == [id];
        lookup := lookup[h := [id]];
      }
    }

    method Clear()
      modifies this
      ensures View() == EMPTY
    {
      arena, lookup, offsets := [], map[], [];
    }
  }

  // ----- the invariant

  /** The spans cover the arena without gaps or overlaps. */
  predicate Tiled(st: Table) {
    && (forall k :: 0 <= k < |st.offsets| ==> st.offsets[k].start + st.offsets[k].len <= |st.arena|)
    && (forall k :: 0 < k < |st.offsets| ==> st.offsets[k].start == st.offsets[k - 1].start + st.offsets[k - 1].len)
    && (st.offsets != [] ==> st.offsets[0].start == 0)
    && |st.arena| == if st.offsets == [] then 0 else st.offsets[|st.offsets| - 1].start + st.offsets[|st.offsets| - 1].len
  }

  /** The strings, by id. */
  function Contents(st: Table): (r: seq<seq<Byte>>)
    requires Tiled(st)
    ensures |r| == |st.offsets|
    ensures forall k :: 0 <= k < |r| ==> GetBytes(st, k) == Some(r[k])
  {
    seq(|st.offsets|, k requires 0 <= k < |st.offsets| => Slice(st.arena, st.offsets[k]).value)
  }

  predicate Distinct(strings: seq<seq<Byte>>) {
    forall i, j :: 0 <= i < j < |strings| ==> strings[i] != strings[j]
  }

  /** Every id is in the bucket of its string's hash. */
  predicate Complete(hash: seq<Byte> -> nat, lookup: map<nat, seq<nat>>, strings: seq<seq<Byte>>) {
    forall k :: 0 <= k < |strings| ==> k in Bucket(lookup, hash(strings[k]))
  }

  predicate Tidy(hash: seq<Byte> -> nat, st: Table) {
    Tiled(st) && Distinct(Contents(st)) && Complete(hash, st.lookup, Contents(st))
  }

  /** What the casts keep: a length below 2^16, a start and an id below 2^32. */
  predicate Fits(st: Table, s: seq<Byte>) {
    |s| < U16 && |st.arena| < U32 && |st.offsets| < U32
  }

  lemma TiledAdded(hash: seq<Byte> -> nat, st: Table, s: seq<Byte>)
    requires Tiled(st) && Fits(st, s)
    ensures Tiled(Added(hash, st, s))
    ensures Contents(Added(hash, st, s)) == Contents(st) + [s]
  {
    hide Pushed;
    var g := Added(hash, st, s);
    assert g.offsets[|st.offsets|] == Span(|st.arena|, |s|);
    assert Tiled(g);
    assert g.arena[|st.arena|..|st.arena| + |s|] == s;
    SameContents(st, g, s);
  }

  lemma SameContents(st: Table, g: Table, s: seq<Byte>)
    requires Tiled(st) && Tiled(g) && g.arena == st.arena + s && |g.offsets| == |st.offsets| + 1
    requires g.offsets[..|st.offsets|] == st.offsets && Slice(g.arena, g.offsets[|st.offsets|]) == Some(s)
    ensures Contents(g) == Contents(st) + [s]
  {
    hide Tiled;
    TiledSpans(st);
    var n := |st.offsets|;
    forall k | 0 <= k < n ensures Contents(g)[k] == Contents(st)[k] {
      assert g.offsets[..n][k] == g.offsets[k];
      OldSlice(st.arena, s, st.offsets[k]);
      assert GetBytes(g, k) == GetBytes(st, k);
    }
    assert GetBytes(g, n) == Some(s);
  }

  lemma TiledSpans(st: Table)
    requires Tiled(st)
    ensures forall k :: 0 <= k < |st.offsets| ==> st.offsets[k].start + st.offsets[k].len <= |st.arena|
  {
  }

  lemma OldSlice(arena: seq<Byte>, s: seq<Byte>, at: Span)
    requires at.start + at.len <= |arena|
    ensures Slice(arena + s, at) == Slice(arena, at)
  {
    assert (arena + s)[at.start..at.start + at.len] == arena[at.start..at.start + at.len];
  }

  /** With complete buckets and distinct strings, the hash lookup is a linear search of the list. */
  lemma LookupIsLinearSearch(hash: seq<Byte> -> nat, st: Table, s: seq<Byte>)
    requires Tidy(hash, st)
    ensures GetBytesId(hash, st, s).Some? <==> s in Contents(st)
    ensures forall id: nat :: GetBytesId(hash, st, s) == Some(id) <==> id < |Contents(st)| && Contents(st)[id] == s
  {
    var c := Contents(st);
    forall id: nat | id < |c| && c[id] == s ensures GetBytesId(hash, st, s) == Some(id) {
      var r := GetBytesId(hash, st, s);
      assert id in Bucket(st.lookup, hash(s)) && GetBytes(st, id) == Some(s);
      assert r.Some? && GetBytes(st, r.value) == Some(s) && c[r.value] == s;
    }
  }

  /** A string is interned as a list of distinct strings would: an old string keeps its id and
      changes nothing, a new one gets the next id at the end. */
  lemma InternRefinesList(hash: seq<Byte> -> nat, st: Table, s: seq<Byte>)
    requires Tidy(hash, st) && (s in Contents(st) || Fits(st, s))
    ensures var (g, id) := Interned(hash, st, s);
            && Tidy(hash, g)
            && Contents(g) == (if s in Contents(st) then Contents(st) else Contents(st) + [s])
            && id < |Contents(g)| && Contents(g)[id] == s
  {
    hide Complete, Pushed;
    LookupIsLinearSearch(hash, st, s);
    if s !in Contents(st) {
      TiledAdded(hash, st, s);
      CompletePushed(hash, st.lookup, Contents(st), s);
    }
  }

  lemma CompletePushed(hash: seq<Byte> -> nat, lookup: map<nat, seq<nat>>, strings: seq<seq<Byte>>, s: seq<Byte>)
    requires Complete(hash, lookup, strings)
    ensures Complete(hash, Pushed(lookup, hash(s), |strings|), strings + [s])
  {
    forall k | 0 <= k < |strings| + 1
      ensures k in Bucket(Pushed(lookup, hash(s), |strings|), hash((strings + [s])[k]))
    {
      if k < |strings| {
        assert k in Bucket(lookup, hash(strings[k]));
      }
    }
  }

  lemma EmptyIsTidy(hash: seq<Byte> -> nat)
    ensures Tidy(hash, EMPTY) && Contents(EMPTY) == []
  {
  }

  // ----- whole runs

  function Run(hash: seq<Byte> -> nat, st: Table, strings: seq<seq<Byte>>): (r: (Table, seq<nat>))
    ensures |r.1| == |strings|
    ensures |st.arena| <= |r.0.arena| && |st.offsets| <= |r.0.offsets|
    decreases |strings|
  {
    if strings == [] then (st, [])
    else
      var (g, id) := Interned(hash, st, strings[0]);
      var (final, ids) := Run(hash, g, strings[1..]);
      (final, [id] + ids)
  }

  /** The run stays within the widths of the offset table: every string, and at the end the arena
      and the table. Repeated strings cost nothing. */
  predicate RunFits(hash: seq<Byte> -> nat, st: Table, strings: seq<seq<Byte>>) {
    && (forall k :: 0 <= k < |strings| ==> |strings[k]| < U16)
    && |Run(hash, st, strings).0.arena| < U32
    && |Run(hash, st, strings).0.offsets| <= U32
  }

  lemma FirstFits(hash: seq<Byte> -> nat, st: Table, strings: seq<seq<Byte>>)
    requires strings != [] && RunFits(hash, st, strings)
    ensures GetBytesId(hash, st, strings[0]).None? ==> Fits(st, strings[0])
    ensures RunFits(hash, Interned(hash, st, strings[0]).0, strings[1..])
  {
    hide GetBytesId, Pushed;
  }

  /** Over every run: the table stays tidy, ids given out earlier keep their strings, and each string
      reads back from its id. */
  lemma {:induction false} RunsReadBack(hash: seq<Byte> -> nat, st: Table, strings: seq<seq<Byte>>)
    requires Tidy(hash, st) && RunFits(hash, st, strings)
    ensures var (final, ids) := Run(hash, st, strings);
            && Tidy(hash, final)
            && Contents(st) <= Contents(final)
            && (forall k :: 0 <= k < |strings| ==> GetBytes(final, ids[k]) == Some(strings[k]))
    decreases |strings|
  {
    hide Interned, Distinct, Complete, Tiled, RunFits, Fits, GetBytesId;
    if strings != [] {
      var (g, id) := Interned(hash, st, strings[0]);
      LookupIsLinearSearch(hash, st, strings[0]);
      FirstFits(hash, st, strings);
      InternRefinesList(hash, st, strings[0]);
      RunsReadBack(hash, g, strings[1..]);
      var (final, ids) := Run(hash, g, strings[1..]);
      assert Contents(final)[id] == strings[0];
      forall k | 0 < k < |strings| ensures GetBytes(final, ([id] + ids)[k]) == Some(strings[k]) {
        assert strings[1..][k - 1] == strings[k];
      }
    }
  }

  lemma RunIdsAgree(hash: seq<Byte> -> nat, st: Table, strings: seq<seq<Byte>>, i: nat, j: nat)
    requires Tidy(hash, st) && RunFits(hash, st, strings) && i < |strings| && j < |strings|
    ensures var ids := Run(hash, st, strings).1;
            ids[i] == ids[j] <==> strings[i] == strings[j]
  {
    RunsReadBack(hash, st, strings);
    var (final, ids) := Run(hash, st, strings);
    assert Contents(final)[ids[i]] == strings[i] && Contents(final)[ids[j]] == strings[j];
  }

  /** Over every run of a new interner: each string reads back, and ids agree exactly when strings do. */
  lemma NewInternerReadsBack(hash: seq<Byte> -> nat, strings: seq<seq<Byte>>, i: nat, j: nat)
    requires RunFits(hash, EMPTY, strings) && i < |strings| && j < |strings|
    ensures var (final, ids) := Run(hash, EMPTY, strings);
            && GetBytes(final, ids[i]) == Some(strings[i])
            && (ids[i] == ids[j] <==> strings[i] == strings[j])
  {
    hide RunFits, Run, Tidy;
    EmptyIsTidy(hash);
    RunsReadBack(hash, EMPTY, strings);
    RunIdsAgree(hash, EMPTY, strings, i, j);
  }

  // ----- rebuilding the index

  lemma {:induction false} RebuiltComplete(hash: seq<Byte> -> nat, st: Table, n: nat)
    requires Tiled(st) && n <= |st.offsets| <= U32
    ensures Complete(hash, Rebuilt(hash, st.arena, st.offsets, n), Contents(st)[..n])
  {
    hide Complete, Pushed, Tiled;
    if n == 0 {
      NothingToFind(hash, map[]);
    } else {
      RebuiltComplete(hash, st, n - 1);
      var c := Contents(st);
      CompletePushed(hash, Rebuilt(hash, st.arena, st.offsets, n - 1), c[..n - 1], c[n - 1]);
      assert c[..n] == c[..n - 1] + [c[n - 1]];
      assert Slice(st.arena, st.offsets[n - 1]) == Some(c[n - 1]);
    }
  }

  lemma NothingToFind(hash: seq<Byte> -> nat, lookup: map<nat, seq<nat>>)
    ensures Complete(hash, lookup, [])
  {
  }

  /** An interner rebuilt from its serialized parts answers every lookup as the original does. */
  lemma RebuiltAnswersAlike(hash: seq<Byte> -> nat, st: Table, s: seq<Byte>)
    requires Tidy(hash, st) && |st.offsets| <= U32
    ensures var g := RebuiltTable(hash, st.arena, st.offsets);
            && Tidy(hash, g) && Contents(g) == Contents(st)
            && GetBytesId(hash, g, s) == GetBytesId(hash, st, s)
  {
    hide Rebuilt, GetBytesId, Complete, Distinct;
    var g := RebuiltTable(hash, st.arena, st.offsets);
    RebuiltComplete(hash, st, |st.offsets|);
    assert Contents(g) == Contents(st) == Contents(st)[..|st.offsets|];
    LookupIsLinearSearch(hash, st, s);
    LookupIsLinearSearch(hash, g, s);
  }

  // ----- the length cast

  /** A new string reads back from its id exactly when its length fits 16 bits. */
  lemma NewStringReadsBackIff(hash: seq<Byte> -> nat, st: Table, s: seq<Byte>)
    requires |st.arena| < U32 && |st.offsets| < U32 && GetBytesId(hash, st, s).None?
    ensures var (g, id) := Interned(hash, st, s);
            GetBytes(g, id) == Some(s) <==> |s| < U16
  {
    var (g, id) := Interned(hash, st, s);
    assert g.offsets[id] == Span(|st.arena|, |s| % U16);
    if |s| < U16 {
      assert g.arena[|st.arena|..|st.arena| + |s|] == s;
    }
  }

  /** What the length cast guarantees of every table: no span is as long as 2^16. */
  predicate ShortSpans(st: Table) {
    forall k :: 0 <= k < |st.offsets| ==> st.offsets[k].len < U16
  }

  lemma {:induction false} RunKeepsSpansShort(hash: seq<Byte> -> nat, st: Table, strings: seq<seq<Byte>>)
    requires ShortSpans(st)
    ensures ShortSpans(Run(hash, st, strings).0)
    decreases |strings|
  {
    hide GetBytesId, Pushed;
    if strings != [] {
      RunKeepsSpansShort(hash, Interned(hash, st, strings[0]).0, strings[1..]);
    }
  }

  /** A longer string is found in no such table, so interning it always adds an entry. */
  lemma LongStringNeverFound(hash: seq<Byte> -> nat, st: Table, s: seq<Byte>)
    requires ShortSpans(st) && |s| >= U16
    ensures GetBytesId(hash, st, s).None?
    ensures Interned(hash, st, s) == (Added(hash, st, s), |st.offsets| % U32)
  {
    var ids := Bucket(st.lookup, hash(s));
    forall id | id in ids ensures GetBytes(st, id) != Some(s) {
      if id < |st.offsets| {
        assert st.offsets[id].len < U16;
      }
    }
  }

  /** Over every run of a new interner, a longer string gets another id each time it is interned,
      although an interned string is documented to keep its id. */
  lemma LongStringInternedAgain(hash: seq<Byte> -> nat, before: seq<seq<Byte>>, between: seq<seq<Byte>>, s: seq<Byte>)
    requires |s| >= U16
    requires |Run(hash, Interned(hash, Run(hash, EMPTY, before).0, s).0, between).0.offsets| < U32
    ensures var (g, id) := Interned(hash, Run(hash, EMPTY, before).0, s);
            Interned(hash, Run(hash, g, between).0, s).1 > id
  {
    hide Run, GetBytesId, Pushed;
    var st := Run(hash, EMPTY, before).0;
    RunKeepsSpansShort(hash, EMPTY, before);
    LongStringNeverFound(hash, st, s);
    var g := Added(hash, st, s);
    RunKeepsSpansShort(hash, g, between);
    LongStringNeverFound(hash, Run(hash, g, between).0, s);
  }
}
