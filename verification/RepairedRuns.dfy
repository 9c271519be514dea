/** Which tool results a repair keeps, by position, and which calls it answers itself. */
module RepairedRuns {
  import opened Wrappers
  import opened Conversation
  import opened Repair

  // ----- selecting positions

  /** `r` is what stands in `s` at the positions `at`, in order. */
  ghost predicate Selects<T>(r: seq<T>, s: seq<T>, at: seq<nat>) {
    && |at| == |r|
    && (forall k :: 0 <= k < |at| ==> at[k] < |s| && r[k] == s[at[k]])
    && forall j, k :: 0 <= j < k < |at| ==> at[j] < at[k]
  }

  function Shifted(at: seq<nat>): (r: seq<nat>)
    ensures |r| == |at| && forall k :: 0 <= k < |at| ==> r[k] == at[k] + 1
  {
    seq(|at|, k requires 0 <= k < |at| => at[k] + 1)
  }

  lemma ShiftedIn(at: seq<nat>, i: nat)
    ensures i in Shifted(at) <==> i > 0 && i - 1 in at
  {
    if i > 0 && i - 1 in at {
      var k :| 0 <= k < |at| && at[k] == i - 1;
      assert Shifted(at)[k] == i;
    }
  }

  /** Positions in the tail of a sequence, with or without its first element. */
  function Front(keep: bool, at: seq<nat>): seq<nat> {
    if keep then [0] + Shifted(at) else Shifted(at)
  }

  lemma FrontSelects<T>(keep: bool, r: seq<T>, s: seq<T>, at: seq<nat>)
    requires s != [] && Selects(r, s[1..], at)
    ensures Selects(if keep then [s[0]] + r else r, s, Front(keep, at))
  {
    var f, all := Front(keep, at), if keep then [s[0]] + r else r;
    var lead := if keep then 1 else 0;
    forall k | 0 <= k < |f| ensures f[k] < |s| && all[k] == s[f[k]] {
      if k >= lead { assert f[k] == at[k - lead] + 1 && all[k] == r[k - lead]; }
    }
    forall j, k | 0 <= j < k < |f| ensures f[j] < f[k] {
      if j >= lead { assert f[j] == at[j - lead] + 1; }
      assert f[k] == at[k - lead] + 1;
    }
  }

  lemma FrontIn(keep: bool, at: seq<nat>, i: nat)
    ensures i in Front(keep, at) <==> (i == 0 && keep) || (i > 0 && i - 1 in at)
  {
    hide Shifted;
    ShiftedIn(at, i);
  }

  lemma SnocSelects<T>(keep: bool, r: seq<T>, s: seq<T>, x: T, at: seq<nat>)
    requires Selects(r, s, at)
    ensures Selects(if keep then r + [x] else r, s + [x], if keep then at + [|s|] else at)
  {
  }

  function Through(at: seq<nat>, via: seq<nat>): (r: seq<nat>)
    requires forall k :: 0 <= k < |at| ==> at[k] < |via|
    ensures |r| == |at| && forall k :: 0 <= k < |at| ==> r[k] == via[at[k]]
  {
    seq(|at|, k requires 0 <= k < |at| => via[at[k]])
  }

  lemma SelectsTwice<T>(r: seq<T>, s: seq<T>, t: seq<T>, at: seq<nat>, via: seq<nat>)
    requires Selects(r, s, at) && Selects(s, t, via)
    ensures Selects(r, t, Through(at, via))
  {
  }

  // ----- the first two passes

  /** No later generic result in the run has the same stored id; custom outputs always pass. */
  predicate LastWithId(run: seq<Item>, i: nat)
    requires i < |run|
  {
    run[i].ToolResult? ==>
      forall j :: i < j < |run| && run[j].ToolResult? ==> run[j].toolCallId != run[i].toolCallId
  }

  lemma LastWithIdTail(run: seq<Item>, i: nat)
    requires i < |run|
    ensures i > 0 ==> (LastWithId(run, i) <==> LastWithId(run[1..], i - 1))
    ensures i == 0 ==> (LastWithId(run, 0) <==> !RepeatedIn(run[1..], run[0]))
  {
    var t := run[1..];
    if i > 0 {
      assert forall j :: i < j < |run| ==> run[j] == t[j - 1];
      assert forall j :: 0 <= j < |t| ==> t[j] == run[j + 1];
    } else if RepeatedIn(t, run[0]) {
      var y :| y in t && y.ToolResult? && y.toolCallId == run[0].toolCallId;
      var j :| 0 <= j < |t| && t[j] == y;
      assert run[j + 1] == y;
    }
  }

  /** Deduplication keeps exactly the last result of each stored id, where it stood. */
  lemma {:induction false} DedupKeepsLast(run: seq<Item>) returns (at: seq<nat>)
    ensures Selects(LastOnly(run), run, at)
    ensures forall i :: 0 <= i < |run| ==> (i in at <==> LastWithId(run, i))
  {
    at := [];
    if run != [] {
      hide LastWithId, RepeatedIn;
      var rest := DedupKeepsLast(run[1..]);
      var keep := !RepeatedIn(run[1..], run[0]);
      FrontSelects(keep, LastOnly(run[1..]), run, rest);
      at := Front(keep, rest);
      forall i | 0 <= i < |run| ensures i in at <==> LastWithId(run, i) {
        LastWithIdTail(run, i);
        FrontIn(keep, rest, i);
      }
    }
  }

  /** Stripping keeps exactly the outputs whose id is declared, where they stood. */
  lemma {:induction false} StripKeepsDeclared(d: IdCodec, ids: set<string>, run: seq<Item>) returns (at: seq<nat>)
    requires AllOutputs(run)
    ensures Selects(WithIds(d, ids, run), run, at)
    ensures forall i :: 0 <= i < |run| ==> (i in at <==> OutputId(d, run[i]) in ids)
  {
    at := [];
    if run != [] {
      hide *;
      var g, x := run[..|run| - 1], run[|run| - 1];
      assert run == g + [x];
      WithoutLast(g, x);
      var rest := StripKeepsDeclared(d, ids, g);
      at := StripOne(d, ids, g, x, rest);
    }
  }

  lemma WithoutLast(g: seq<Item>, x: Item)
    requires AllOutputs(g + [x])
    ensures AllOutputs(g) && IsOutput(x)
  {
    assert (g + [x])[|g|] == x;
    forall y | y in g ensures IsOutput(y) { assert y in g + [x]; }
  }

  lemma WithIdsSnoc(d: IdCodec, ids: set<string>, g: seq<Item>, x: Item)
    requires AllOutputs(g) && IsOutput(x) && AllOutputs(g + [x])
    ensures WithIds(d, ids, g + [x]) == if OutputId(d, x) in ids then WithIds(d, ids, g) + [x] else WithIds(d, ids, g)
  {
    hide OutputId, AllOutputs;
    assert (g + [x])[..|g|] == g;
  }

  lemma StripOne(d: IdCodec, ids: set<string>, g: seq<Item>, x: Item, rest: seq<nat>) returns (at: seq<nat>)
    requires AllOutputs(g) && IsOutput(x) && AllOutputs(g + [x]) && Selects(WithIds(d, ids, g), g, rest)
    requires forall i :: 0 <= i < |g| ==> (i in rest <==> OutputId(d, g[i]) in ids)
    ensures Selects(WithIds(d, ids, g + [x]), g + [x], at)
    ensures forall i :: 0 <= i < |g + [x]| ==> (i in at <==> OutputId(d, (g + [x])[i]) in ids)
  {
    hide OutputId, Selects, WithIds;
    var keep := OutputId(d, x) in ids;
    at := if keep then rest + [|g|] else rest;
    WithIdsSnoc(d, ids, g, x);
    SnocSelects(keep, WithIds(d, ids, g), g, x, rest);
    SelectsWithin(WithIds(d, ids, g), g, rest);
    forall i | 0 <= i < |g + [x]| ensures i in at <==> OutputId(d, (g + [x])[i]) in ids {
      if i < |g| {
        assert (g + [x])[i] == g[i];
      } else {
        assert (g + [x])[i] == x;
      }
    }
  }

  lemma SelectsWithin<T>(r: seq<T>, s: seq<T>, at: seq<nat>)
    requires Selects(r, s, at)
    ensures |s| !in at
  {
  }

  ghost predicate KeptAt(d: IdCodec, ids: set<string>, run: seq<Item>, i: nat)
    requires AllOutputs(run) && i < |run|
  {
    LastWithId(run, i) && OutputId(d, run[i]) in ids
  }

  lemma KeptPositions(d: IdCodec, calls: seq<ToolCall>, run: seq<Item>) returns (at: seq<nat>)
    requires AllOutputs(run)
    ensures Selects(KeptRun(d, calls, run), run, at)
    ensures forall i :: 0 <= i < |run| ==> (i in at <==> KeptAt(d, CallIds(d, calls), run, i))
  {
    hide LastWithId, OutputId, CallIds, LastOnly, WithIds;
    var ids, one := CallIds(d, calls), LastOnly(run);
    var via := DedupKeepsLast(run);
    LastOnlyKeeps(run);
    var within := StripKeepsDeclared(d, ids, one);
    at := Through(within, via);
    SelectsTwice(WithIds(d, ids, one), one, run, within, via);
    ThroughIn(d, ids, one, run, within, via);
  }

  lemma ThroughIn(d: IdCodec, ids: set<string>, one: seq<Item>, run: seq<Item>, within: seq<nat>, via: seq<nat>)
    requires AllOutputs(run) && AllOutputs(one) && Selects(one, run, via)
    requires forall k :: 0 <= k < |within| ==> within[k] < |via|
    requires forall i :: 0 <= i < |run| ==> (i in via <==> LastWithId(run, i))
    requires forall i :: 0 <= i < |one| ==> (i in within <==> OutputId(d, one[i]) in ids)
    ensures forall i :: 0 <= i < |run| ==> (i in Through(within, via) <==> KeptAt(d, ids, run, i))
  {
    hide LastWithId, OutputId;
    forall i | 0 <= i < |run| ensures i in Through(within, via) <==> KeptAt(d, ids, run, i) {
      if i in Through(within, via) {
        var k :| 0 <= k < |within| && Through(within, via)[k] == i;
        assert via[within[k]] == i && within[k] in within && one[within[k]] == run[i];
      }
      if KeptAt(d, ids, run, i) {
        var j :| 0 <= j < |via| && via[j] == i;
        assert one[j] == run[i] && j in within;
        var k :| 0 <= k < |within| && within[k] == j;
        assert Through(within, via)[k] == i;
      }
    }
  }

  // ----- the third pass

  lemma {:induction false} UnansweredPositions(d: IdCodec, calls: seq<ToolCall>, answered: set<string>) returns (at: seq<nat>)
    ensures Selects(Unanswered(d, calls, answered), calls, at)
    ensures forall i :: 0 <= i < |calls| ==> (i in at <==> CallId(d, calls[i]) !in answered)
  {
    at := [];
    if calls != [] {
      hide CallId;
      var rest := UnansweredPositions(d, calls[1..], answered);
      var keep := CallId(d, calls[0]) !in answered;
      FrontSelects(keep, Unanswered(d, calls[1..], answered), calls, rest);
      at := Front(keep, rest);
      forall i | 0 <= i < |calls| ensures i in at <==> CallId(d, calls[i]) !in answered {
        FrontIn(keep, rest, i);
      }
    }
  }

  /** Some kept output of the run answers the call. */
  ghost predicate AnsweredIn(d: IdCodec, ids: set<string>, run: seq<Item>, call: ToolCall)
    requires AllOutputs(run)
  {
    exists i :: 0 <= i < |run| && KeptAt(d, ids, run, i) && SamplingOutputId(d, run[i]) == CallId(d, call)
  }

  /** A placeholder: it answers the call, in the call's own kind, and says which tool did not run. */
  predicate IsPlaceholder(d: IdCodec, x: Item, call: ToolCall) {
    && IsOutput(x) && SamplingOutputId(d, x) == CallId(d, call) && x.CustomToolOutput? == IsCustom(d, call)
    && (if x.CustomToolOutput? then x.output == [OutText(HaltedText(call.name))] && x.name == Some(call.name)
        else x.content == HaltedText(call.name) && x.toolCallId == call.id && x.images == [] && x.ordered == [])
  }

  /** What repair makes of the run after an assistant with calls: first the results it keeps, at their
      places, which are the last of each stored id among those with a declared id; then one
      placeholder for each call that none of these answers, in the order of the calls. */
  ghost predicate IsRepairedRun(d: IdCodec, calls: seq<ToolCall>, run: seq<Item>, r: seq<Item>, at: seq<nat>, open: seq<nat>)
    requires AllOutputs(run)
  {
    && |r| == |at| + |open|
    && Selects(r[..|at|], run, at)
    && (forall i :: 0 <= i < |run| ==> (i in at <==> KeptAt(d, CallIds(d, calls), run, i)))
    && (forall j, k :: 0 <= j < k < |open| ==> open[j] < open[k])
    && (forall j :: 0 <= j < |open| ==> open[j] < |calls|)
    && (forall i :: 0 <= i < |calls| ==> (i in open <==> !AnsweredIn(d, CallIds(d, calls), run, calls[i])))
    && forall j :: 0 <= j < |open| ==> IsPlaceholder(d, r[|at| + j], calls[open[j]])
  }

  lemma KeptAnswers(d: IdCodec, calls: seq<ToolCall>, run: seq<Item>, at: seq<nat>, call: ToolCall)
    requires AllOutputs(run) && Selects(KeptRun(d, calls, run), run, at)
    requires forall i :: 0 <= i < |run| ==> (i in at <==> KeptAt(d, CallIds(d, calls), run, i))
    ensures CallId(d, call) in AnsweredIds(d, KeptRun(d, calls, run)) <==> AnsweredIn(d, CallIds(d, calls), run, call)
  {
    hide KeptAt, SamplingOutputId, CallId, KeptRun, CallIds;
    var k, ids := KeptRun(d, calls, run), CallIds(d, calls);
    if CallId(d, call) in AnsweredIds(d, k) {
      var x :| x in k && SamplingOutputId(d, x) == CallId(d, call);
      var n :| 0 <= n < |k| && k[n] == x;
      assert at[n] in at && KeptAt(d, ids, run, at[n]);
    }
    if AnsweredIn(d, ids, run, call) {
      var i :| 0 <= i < |run| && KeptAt(d, ids, run, i) && SamplingOutputId(d, run[i]) == CallId(d, call);
      var n :| 0 <= n < |at| && at[n] == i;
      assert k[n] == run[i] && k[n] in k;
    }
  }

  lemma PlaceholderMeans(d: IdCodec, call: ToolCall)
    ensures IsPlaceholder(d, SyntheticResult(d, call), call)
  {
    hide HaltedText;
  }

  lemma RepairedRunMeans(d: IdCodec, a: Item, run: seq<Item>) returns (at: seq<nat>, open: seq<nat>)
    requires AllOutputs(run) && IsOwner(Some(a))
    ensures IsRepairedRun(d, a.toolCalls, run, ApplyRun(d, Repair.Repair, Some(a), run), at, open)
  {
    hide KeptAt, CallId, KeptRun, CallIds, ApplyRun, AnsweredIn, AnsweredIds, IsPlaceholder, Unanswered, SyntheticResult, OpenCalls;
    var calls := a.toolCalls;
    var kept, u := KeptRun(d, calls, run), OpenCalls(d, calls, run);
    RepairedRun(d, a, run);
    KeptRunFacts(d, calls, run);
    at := KeptPositions(d, calls, run);
    open := UnansweredPositions(d, calls, AnsweredIds(d, kept));
    forall i | 0 <= i < |calls| ensures i in open <==> !AnsweredIn(d, CallIds(d, calls), run, calls[i]) {
      KeptAnswers(d, calls, run, at, calls[i]);
    }
    var r := kept + Synthetic(d, u);
    assert r[..|at|] == kept;
    forall j | 0 <= j < |open| ensures IsPlaceholder(d, r[|at| + j], calls[open[j]]) {
      PlaceholderMeans(d, u[j]);
      assert r[|at| + j] == Synthetic(d, u)[j];
    }
  }

  // ----- whole histories

  /** A history that goes on with something other than an output is repaired in two parts. */
  lemma {:induction false} MapSplits(d: IdCodec, p: Pass, head: Option<Item>, front: seq<Item>, rest: seq<Item>)
    requires rest != [] ==> !IsOutput(rest[0])
    ensures Map(d, p, head, front + rest) == Map(d, p, head, front) + MapTail(d, p, rest)
    decreases |front|
  {
    hide Map, ApplyRun;
    var first, more := front[..RunLength(front)], Tail(front);
    var done := ApplyRun(d, p, head, first);
    MapOfRun(d, p, head, first, more);
    MapOfRun(d, p, head, first, more + rest);
    assert front + rest == first + (more + rest);
    if more == [] {
      assert more + rest == rest;
    } else {
      MapSplits(d, p, Some(more[0]), more[1..], rest);
      MapTailSplits(d, p, more, rest);
      AppendAssociative(done, MapTail(d, p, more), MapTail(d, p, rest));
    }
  }

  lemma MapTailSplits(d: IdCodec, p: Pass, more: seq<Item>, rest: seq<Item>)
    requires more != []
    requires Map(d, p, Some(more[0]), more[1..] + rest) == Map(d, p, Some(more[0]), more[1..]) + MapTail(d, p, rest)
    ensures MapTail(d, p, more + rest) == MapTail(d, p, more) + MapTail(d, p, rest)
  {
    hide Map;
    assert (more + rest)[1..] == more[1..] + rest;
    AppendAssociative([more[0]], Map(d, p, Some(more[0]), more[1..]), MapTail(d, p, rest));
  }

  /** Repair works run by run: what becomes of a run depends on the item before it and on nothing
      else, and what stands before and after is repaired as it would be without the run. */
  lemma RepairByRuns(d: IdCodec, p: Pass, head: Option<Item>, front: seq<Item>, a: Item, run: seq<Item>, t: seq<Item>)
    requires AllOutputs(run) && !IsOutput(a) && (t != [] ==> !IsOutput(t[0]))
    ensures Map(d, p, head, front + ([a] + (run + t))) ==
            Map(d, p, head, front) + ([a] + (ApplyRun(d, p, Some(a), run) + MapTail(d, p, t)))
  {
    hide Map, ApplyRun;
    var rest := [a] + (run + t);
    MapSplits(d, p, head, front, rest);
    MapOfRun(d, p, Some(a), run, t);
    assert rest[1..] == run + t;
  }
}
