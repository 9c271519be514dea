/** When repairing a history twice gives the same items as repairing it once. */
module RepairTwice {
  import opened Wrappers
  import opened Conversation
  import opened Repair

  // ----- the passes over a run of kept outputs and synthetic results

  lemma {:induction false} LastOnlyApart(k: seq<Item>, ys: seq<Item>)
    requires NoRepeats(k) && forall x :: x in k ==> !RepeatedIn(ys, x)
    ensures LastOnly(k + ys) == k + LastOnly(ys)
  {
    if k == [] {
      assert k + ys == ys;
    } else {
      hide NoRepeats;
      var x, t := k[0], k[1..];
      assert k == [x] + t;
      RepeatedMeans(x, t);
      assert (k + ys)[1..] == t + ys && (k + ys)[0] == x;
      assert x in k && !RepeatedIn(ys, x) && !RepeatedIn(t, x);
      LastOnlyApart(t, ys);
      RepeatedInNeither(t, ys, x);
      AppendAssociative([x], t, LastOnly(ys));
    }
  }

  lemma RepeatedInNeither(a: seq<Item>, b: seq<Item>, x: Item)
    requires !RepeatedIn(a, x) && !RepeatedIn(b, x)
    ensures !RepeatedIn(a + b, x)
  {
  }

  lemma {:induction false} WithIdsConcat(d: IdCodec, ids: set<string>, a: seq<Item>, b: seq<Item>)
    requires AllOutputs(a) && AllOutputs(b)
    ensures AllOutputs(a + b) && WithIds(d, ids, a + b) == WithIds(d, ids, a) + WithIds(d, ids, b)
    decreases |b|
  {
    hide OutputId;
    if b == [] {
      assert a + b == a;
    } else {
      WithIdsConcat(d, ids, a, b[..|b| - 1]);
      assert (a + b)[..|a + b| - 1] == a + b[..|b| - 1];
    }
  }

  lemma {:induction false} UnansweredTwice(d: IdCodec, calls: seq<ToolCall>, a: set<string>, b: set<string>)
    ensures Unanswered(d, calls, a + b) == Unanswered(d, Unanswered(d, calls, a), b)
  {
    if calls != [] {
      UnansweredTwice(d, calls[1..], a, b);
      if CallId(d, calls[0]) !in a {
        var u := [calls[0]] + Unanswered(d, calls[1..], a);
        assert u[1..] == Unanswered(d, calls[1..], a);
      }
    }
  }

  lemma {:induction false} UnansweredConcat(d: IdCodec, a: seq<ToolCall>, b: seq<ToolCall>, answered: set<string>)
    ensures Unanswered(d, a + b, answered) == Unanswered(d, a, answered) + Unanswered(d, b, answered)
  {
    if a == [] {
      assert a + b == b;
    } else {
      UnansweredConcat(d, a[1..], b, answered);
      assert (a + b)[1..] == a[1..] + b;
    }
  }

  lemma {:induction false} AllUnanswered(d: IdCodec, u: seq<ToolCall>, answered: set<string>)
    requires forall c :: c in u ==> CallId(d, c) !in answered
    ensures Unanswered(d, u, answered) == u
  {
    if u != [] {
      AllUnanswered(d, u[1..], answered);
    }
  }

  // ----- one run

  /** What a second repair makes of the synthetic results of the first. */
  function Rewritten(d: IdCodec, ids: set<string>, u: seq<ToolCall>): seq<Item> {
    var ys := Synthetic(d, u);
    LastOnlyKeeps(ys);
    WithIdsKeeps(d, ids, ys);
    WithIds(d, ids, LastOnly(ys)) + Synthetic(d, Unanswered(d, u, AnsweredIds(d, WithIds(d, ids, ys))))
  }

  /** The kept outputs are kept again, before what is left of the synthetic results. */
  lemma KeptTwice(d: IdCodec, calls: seq<ToolCall>, k: seq<Item>, u: seq<ToolCall>)
    requires AllOutputs(k) && NoRepeats(k) && forall x :: x in k ==> OutputId(d, x) in CallIds(d, calls)
    requires forall c :: c in u ==> CallId(d, c) !in AnsweredIds(d, k)
    ensures AllOutputs(k + Synthetic(d, u)) && AllOutputs(LastOnly(Synthetic(d, u)))
    ensures KeptRun(d, calls, k + Synthetic(d, u)) == k + WithIds(d, CallIds(d, calls), LastOnly(Synthetic(d, u)))
  {
    hide LastOnly, WithIds, Synthetic, NoRepeats, OutputId, SamplingOutputId, AnsweredIds, CallIds, RepeatedIn;
    var ids, ys := CallIds(d, calls), Synthetic(d, u);
    NoneShared(d, k, u);
    LastOnlyApart(k, ys);
    LastOnlyKeeps(ys);
    WithIdsConcat(d, ids, k, LastOnly(ys));
    WithIdsKeeps(d, ids, k);
  }

  /** The calls open again are those left open that no readable synthetic result answers. */
  lemma OpenTwice(d: IdCodec, calls: seq<ToolCall>, k: seq<Item>, u: seq<ToolCall>)
    requires AllOutputs(k) && forall x :: x in k ==> OutputId(d, x) in CallIds(d, calls)
    requires u == Unanswered(d, calls, AnsweredIds(d, k))
    ensures AllOutputs(k + Synthetic(d, u)) && AllOutputs(WithIds(d, CallIds(d, calls), Synthetic(d, u)))
    ensures OpenCalls(d, calls, k + Synthetic(d, u)) ==
            Unanswered(d, u, AnsweredIds(d, WithIds(d, CallIds(d, calls), Synthetic(d, u))))
  {
    hide WithIds, Unanswered, Synthetic, OutputId, SamplingOutputId, CallIds;
    var ids, ys := CallIds(d, calls), Synthetic(d, u);
    WithIdsConcat(d, ids, k, ys);
    WithIdsKeeps(d, ids, k);
    WithIdsKeeps(d, ids, ys);
    var b := AnsweredIds(d, WithIds(d, ids, ys));
    assert AnsweredIds(d, k + WithIds(d, ids, ys)) == AnsweredIds(d, k) + b;
    UnansweredTwice(d, calls, AnsweredIds(d, k), b);
  }

  lemma RepairedTwiceRun(d: IdCodec, a: Item, run: seq<Item>, r: seq<Item>)
    requires AllOutputs(run) && IsOwner(Some(a))
    requires r == KeptRun(d, a.toolCalls, run) + Synthetic(d, OpenCalls(d, a.toolCalls, run)) && AllOutputs(r)
    ensures ApplyRun(d, Repair, Some(a), r) ==
            KeptRun(d, a.toolCalls, run) + Rewritten(d, CallIds(d, a.toolCalls), OpenCalls(d, a.toolCalls, run))
  {
    hide ApplyRun, KeptRun, OpenCalls, LastOnly, WithIds, Unanswered, Synthetic, NoRepeats, OutputId, SamplingOutputId, AnsweredIds, CallIds;
    var calls := a.toolCalls;
    var ids, k, u := CallIds(d, calls), KeptRun(d, calls, run), OpenCalls(d, calls, run);
    KeptRunFacts(d, calls, run);
    UnansweredMeans(d, calls, AnsweredIds(d, k));
    RepairedRun(d, a, r);
    KeptTwice(d, calls, k, u);
    OpenTwice(d, calls, k, u);
    var kept := WithIds(d, ids, LastOnly(Synthetic(d, u)));
    var more := Synthetic(d, OpenCalls(d, calls, r));
    AppendAssociative(k, kept, more);
  }

  lemma NoneShared(d: IdCodec, k: seq<Item>, u: seq<ToolCall>)
    requires AllOutputs(k) && forall c :: c in u ==> CallId(d, c) !in AnsweredIds(d, k)
    ensures forall x :: x in k ==> !RepeatedIn(Synthetic(d, u), x)
  {
    hide HaltedText, Synthetic;
    var ys := Synthetic(d, u);
    forall x | x in k ensures !RepeatedIn(ys, x) {
      forall y | y in ys && y.ToolResult? && x.ToolResult? ensures y.toolCallId != x.toolCallId {
        var j :| 0 <= j < |u| && ys[j] == y;
        assert u[j] in u && SamplingOutputId(d, x) in AnsweredIds(d, k);
      }
    }
  }

  lemma ReadableIs(d: IdCodec, ids: set<string>, c: ToolCall)
    requires CallId(d, c) in ids
    ensures OutputId(d, SyntheticResult(d, c)) in ids <==> ReadableCall(d, ids, c)
  {
    hide HaltedText;
  }

  /** The ids that the readable synthetic results answer. */
  lemma AnsweredByReadable(d: IdCodec, ids: set<string>, u: seq<ToolCall>, i: nat)
    requires (forall c :: c in u ==> CallId(d, c) in ids) && i < |u|
    ensures AllOutputs(WithIds(d, ids, Synthetic(d, u)))
    ensures ReadableCall(d, ids, u[i]) ==> CallId(d, u[i]) in AnsweredIds(d, WithIds(d, ids, Synthetic(d, u)))
    ensures CallId(d, u[i]) in AnsweredIds(d, WithIds(d, ids, Synthetic(d, u))) ==>
              exists j :: 0 <= j < |u| && ReadableCall(d, ids, u[j]) && CallId(d, u[j]) == CallId(d, u[i])
  {
    hide Synthetic, WithIds, SyntheticResult, ReadableCall, OutputId, SamplingOutputId;
    var ys := Synthetic(d, u);
    WithIdsKeeps(d, ids, ys);
    assert ys[i] in ys && u[i] in u;
    ReadableIs(d, ids, u[i]);
    if CallId(d, u[i]) in AnsweredIds(d, WithIds(d, ids, ys)) {
      var y :| y in WithIds(d, ids, ys) && SamplingOutputId(d, y) == CallId(d, u[i]);
      var j :| 0 <= j < |ys| && ys[j] == y;
      assert u[j] in u;
      ReadableIs(d, ids, u[j]);
    }
  }

  /** Where the results kept come first, exactly the calls before their end are readable, and the
      others are answered by none of them. */
  lemma ReadableComeFirst(d: IdCodec, ids: set<string>, u: seq<ToolCall>, kept: seq<Item>, more: seq<ToolCall>, i: nat)
    requires (forall c :: c in u ==> CallId(d, c) in ids) && i < |u|
    requires Synthetic(d, u) == kept + Synthetic(d, more) && AllOutputs(kept)
    requires forall x :: x in kept ==> OutputId(d, x) in ids
    requires AllOutputs(WithIds(d, ids, Synthetic(d, u)))
    requires forall c :: c in more ==> CallId(d, c) !in AnsweredIds(d, WithIds(d, ids, Synthetic(d, u)))
    ensures ReadableCall(d, ids, u[i]) <==> i < |kept|
    ensures i >= |kept| ==> CallId(d, u[i]) !in AnsweredIds(d, WithIds(d, ids, Synthetic(d, u)))
  {
    hide Synthetic, WithIds, SyntheticResult, ReadableCall, OutputId, SamplingOutputId, AnsweredIds, CallId;
    var ys, m := Synthetic(d, u), |kept|;
    assert u[i] in u;
    ReadableIs(d, ids, u[i]);
    AnsweredByReadable(d, ids, u, i);
    if i < m {
      assert ys[i] == kept[i] && kept[i] in kept;
    } else {
      assert ys[i] == Synthetic(d, more)[i - m] && more[i - m] in more;
    }
  }

  /** If a second repair writes the same results, the calls are stable. */
  lemma RewrittenSameIsStable(d: IdCodec, ids: set<string>, u: seq<ToolCall>)
    requires forall c :: c in u ==> CallId(d, c) in ids
    requires Rewritten(d, ids, u) == Synthetic(d, u)
    ensures StableCalls(d, ids, u)
  {
    hide Synthetic, WithIds, LastOnly, Unanswered, ReadableCall, OutputId, SamplingOutputId, AnsweredIds, NoRepeats, CallId,
         StableCalls, IsCustom;
    var ys := Synthetic(d, u);
    LastOnlyKeeps(ys);
    WithIdsKeeps(d, ids, ys);
    WithIdsKeeps(d, ids, LastOnly(ys));
    var kept, b := WithIds(d, ids, LastOnly(ys)), AnsweredIds(d, WithIds(d, ids, ys));
    var more := Unanswered(d, u, b);
    UnansweredMeans(d, u, b);
    forall i | 0 <= i < |u|
      ensures ReadableCall(d, ids, u[i]) <==> i < |kept|
      ensures i >= |kept| <==> CallId(d, u[i]) !in b
    {
      ReadableComeFirst(d, ids, u, kept, more, i);
      AnsweredByReadable(d, ids, u, i);
    }
    LastOnlyFixed(ys);
    WithIdsNoRepeats(d, ids, LastOnly(ys));
    KeptDistinct(d, ids, u, kept);
    FrontIsStable(d, ids, u, |kept|, b);
  }

  lemma FrontIsStable(d: IdCodec, ids: set<string>, u: seq<ToolCall>, m: nat, answered: set<string>)
    requires forall i :: 0 <= i < |u| ==> (ReadableCall(d, ids, u[i]) <==> i < m) && (i >= m <==> CallId(d, u[i]) !in answered)
    requires forall i, j :: 0 <= i < j < |u| && !IsCustom(d, u[i]) && !IsCustom(d, u[j]) && u[i].id in ids ==> u[i].id != u[j].id
    ensures StableCalls(d, ids, u)
  {
    hide ReadableCall, CallId, IsCustom;
  }

  lemma KeptDistinct(d: IdCodec, ids: set<string>, u: seq<ToolCall>, kept: seq<Item>)
    requires kept <= Synthetic(d, u) && NoRepeats(kept)
    requires forall i :: 0 <= i < |u| ==> (ReadableCall(d, ids, u[i]) <==> i < |kept|)
    ensures forall i, j :: 0 <= i < j < |u| && !IsCustom(d, u[i]) && !IsCustom(d, u[j]) && u[i].id in ids ==> u[i].id != u[j].id
  {
    hide Synthetic, HaltedText;
    forall i, j | 0 <= i < j < |u| && !IsCustom(d, u[i]) && !IsCustom(d, u[j]) && u[i].id in ids
      ensures u[i].id != u[j].id
    {
      if u[j].id in ids {
        assert kept[i] == SyntheticResult(d, u[i]) && kept[j] == SyntheticResult(d, u[j]);
      }
    }
  }

  /** Number of readable calls at the front. */
  function Front(d: IdCodec, ids: set<string>, u: seq<ToolCall>): (m: nat)
    ensures m <= |u| && forall i :: 0 <= i < m ==> ReadableCall(d, ids, u[i])
    ensures m < |u| ==> !ReadableCall(d, ids, u[m])
  {
    if u == [] || !ReadableCall(d, ids, u[0]) then 0 else 1 + Front(d, ids, u[1..])
  }

  lemma SyntheticSplit(d: IdCodec, u: seq<ToolCall>, m: nat)
    requires m <= |u|
    ensures Synthetic(d, u) == Synthetic(d, u[..m]) + Synthetic(d, u[m..])
  {
    hide Synthetic, SyntheticResult;
  }

  lemma StableFrontKept(d: IdCodec, ids: set<string>, u: seq<ToolCall>)
    requires StableCalls(d, ids, u) && forall c :: c in u ==> CallId(d, c) in ids
    ensures var m := Front(d, ids, u);
            && NoRepeats(Synthetic(d, u[..m]))
            && (forall x :: x in Synthetic(d, u[..m]) ==> !RepeatedIn(Synthetic(d, u[m..]), x))
  {
    hide HaltedText, Synthetic;
    var m := Front(d, ids, u);
    var xs, ys := Synthetic(d, u[..m]), Synthetic(d, u[m..]);
    forall x | x in xs ensures !RepeatedIn(ys, x) {
      var i :| 0 <= i < m && xs[i] == x;
      forall y | y in ys && y.ToolResult? && x.ToolResult? ensures y.toolCallId != x.toolCallId {
        var j :| 0 <= j < |ys| && ys[j] == y;
        assert y == SyntheticResult(d, u[m + j]) && x == SyntheticResult(d, u[i]);
      }
    }
  }

  lemma {:induction false} NoneWithIds(d: IdCodec, ids: set<string>, run: seq<Item>)
    requires AllOutputs(run) && forall x :: x in run ==> OutputId(d, x) !in ids
    ensures WithIds(d, ids, run) == []
  {
    if run != [] { NoneWithIds(d, ids, run[..|run| - 1]); }
  }

  lemma UnreadableDropped(d: IdCodec, ids: set<string>, u: seq<ToolCall>)
    requires forall c :: c in u ==> CallId(d, c) in ids && !ReadableCall(d, ids, c)
    ensures AllOutputs(LastOnly(Synthetic(d, u)))
    ensures WithIds(d, ids, LastOnly(Synthetic(d, u))) == [] && WithIds(d, ids, Synthetic(d, u)) == []
  {
    hide Synthetic, LastOnly, WithIds, SyntheticResult, ReadableCall, OutputId;
    var ys := Synthetic(d, u);
    LastOnlyKeeps(ys);
    forall x | x in ys ensures OutputId(d, x) !in ids {
      var j :| 0 <= j < |ys| && ys[j] == x;
      assert u[j] in u;
      ReadableIs(d, ids, u[j]);
    }
    NoneWithIds(d, ids, ys);
    NoneWithIds(d, ids, LastOnly(ys));
  }

  lemma ReadableKept(d: IdCodec, ids: set<string>, u: seq<ToolCall>)
    requires forall c :: c in u ==> CallId(d, c) in ids && ReadableCall(d, ids, c)
    ensures WithIds(d, ids, Synthetic(d, u)) == Synthetic(d, u)
    ensures AnsweredIds(d, Synthetic(d, u)) == CallIds(d, u)
  {
    hide Synthetic, WithIds, SyntheticResult, ReadableCall, OutputId, SamplingOutputId;
    var ys := Synthetic(d, u);
    WithIdsKeeps(d, ids, ys);
    forall x | x in ys ensures OutputId(d, x) in ids && SamplingOutputId(d, x) in CallIds(d, u) {
      var j :| 0 <= j < |ys| && ys[j] == x;
      assert u[j] in u;
      ReadableIs(d, ids, u[j]);
    }
    forall c | c in u ensures CallId(d, c) in AnsweredIds(d, ys) {
      var j :| 0 <= j < |u| && u[j] == c;
      assert ys[j] in ys;
    }
  }

  /** Of results for readable calls followed by results for others, the second repair keeps the first. */
  lemma FrontKept(d: IdCodec, ids: set<string>, f: seq<ToolCall>, t: seq<ToolCall>)
    requires forall c :: c in f ==> CallId(d, c) in ids && ReadableCall(d, ids, c)
    requires forall c :: c in t ==> CallId(d, c) in ids && !ReadableCall(d, ids, c)
    requires NoRepeats(Synthetic(d, f)) && forall x :: x in Synthetic(d, f) ==> !RepeatedIn(Synthetic(d, t), x)
    ensures var all := Synthetic(d, f) + Synthetic(d, t);
            && AllOutputs(LastOnly(all)) && AllOutputs(WithIds(d, ids, all))
            && WithIds(d, ids, LastOnly(all)) == Synthetic(d, f)
            && AnsweredIds(d, WithIds(d, ids, all)) == CallIds(d, f)
  {
    hide Synthetic, WithIds, LastOnly, SyntheticResult, ReadableCall, OutputId, AnsweredIds, NoRepeats, RepeatedIn, CallIds, CallId;
    var xs, ys := Synthetic(d, f), Synthetic(d, t);
    LastOnlyApart(xs, ys);
    UnreadableDropped(d, ids, t);
    ReadableKept(d, ids, f);
    WithIdsConcat(d, ids, xs, LastOnly(ys));
    WithIdsConcat(d, ids, xs, ys);
    assert xs + [] == xs;
  }

  lemma RestUnanswered(d: IdCodec, f: seq<ToolCall>, t: seq<ToolCall>)
    requires forall c :: c in t ==> CallId(d, c) !in CallIds(d, f)
    ensures Unanswered(d, f + t, CallIds(d, f)) == t
  {
    hide Unanswered;
    UnansweredConcat(d, f, t, CallIds(d, f));
    NoneUnanswered(d, f, CallIds(d, f));
    AllUnanswered(d, t, CallIds(d, f));
    assert [] + t == t;
  }

  /** Stable calls get the same results again. */
  lemma StableIsRewrittenSame(d: IdCodec, ids: set<string>, u: seq<ToolCall>)
    requires StableCalls(d, ids, u) && forall c :: c in u ==> CallId(d, c) in ids
    ensures Rewritten(d, ids, u) == Synthetic(d, u)
  {
    hide Synthetic, WithIds, LastOnly, Unanswered, ReadableCall, AnsweredIds, NoRepeats, RepeatedIn, StableCalls, CallIds, CallId, Front,
         Rewritten;
    var m := Front(d, ids, u);
    FrontMeans(d, ids, u);
    SyntheticSplit(d, u, m);
    StableFrontKept(d, ids, u);
    FrontKept(d, ids, u[..m], u[m..]);
    RestUnanswered(d, u[..m], u[m..]);
    assert u[..m] + u[m..] == u;
    RewrittenIs(d, ids, u);
  }

  lemma RewrittenIs(d: IdCodec, ids: set<string>, u: seq<ToolCall>)
    ensures AllOutputs(LastOnly(Synthetic(d, u))) && AllOutputs(WithIds(d, ids, Synthetic(d, u)))
    ensures Rewritten(d, ids, u) ==
            WithIds(d, ids, LastOnly(Synthetic(d, u)))
            + Synthetic(d, Unanswered(d, u, AnsweredIds(d, WithIds(d, ids, Synthetic(d, u)))))
  {
    hide Synthetic, WithIds, LastOnly, Unanswered, AnsweredIds;
    LastOnlyKeeps(Synthetic(d, u));
    WithIdsKeeps(d, ids, Synthetic(d, u));
  }

  lemma FrontMeans(d: IdCodec, ids: set<string>, u: seq<ToolCall>)
    requires StableCalls(d, ids, u) && forall c :: c in u ==> CallId(d, c) in ids
    ensures var m := Front(d, ids, u);
            && (forall c :: c in u[..m] ==> CallId(d, c) in ids && ReadableCall(d, ids, c))
            && (forall c :: c in u[m..] ==> CallId(d, c) in ids && !ReadableCall(d, ids, c) && CallId(d, c) !in CallIds(d, u[..m]))
  {
    hide ReadableCall, CallId;
    var m := Front(d, ids, u);
    forall c | c in u[m..] ensures CallId(d, c) in ids && !ReadableCall(d, ids, c) && CallId(d, c) !in CallIds(d, u[..m]) {
      var j :| m <= j < |u| && u[j] == c;
      forall e | e in u[..m] ensures CallId(d, e) != CallId(d, c) {
        var i :| 0 <= i < m && u[i] == e;
      }
    }
  }

  lemma RunSettlesIff(d: IdCodec, head: Option<Item>, run: seq<Item>)
    requires AllOutputs(run)
    ensures Holds(d, After(Repair, Fixed(Repair)), head, run) <==> Holds(d, Stable, head, run)
  {
    hide ApplyRun, Rewritten, Synthetic, StableCalls, WithIds, LastOnly, Unanswered;
    var r := ApplyRun(d, Repair, head, run);
    HoldsAfter(d, Repair, Fixed(Repair), head, run, r);
    if IsOwner(head) {
      var a := head.value;
      var ids, k, u := CallIds(d, a.toolCalls), KeptRun(d, a.toolCalls, run), OpenCalls(d, a.toolCalls, run);
      RepairedRun(d, a, run);
      RepairedTwiceRun(d, a, run, r);
      assert k + Rewritten(d, ids, u) == k + Synthetic(d, u) <==> Rewritten(d, ids, u) == Synthetic(d, u) by {
        assert (k + Rewritten(d, ids, u))[|k|..] == Rewritten(d, ids, u) && (k + Synthetic(d, u))[|k|..] == Synthetic(d, u);
      }
      OpenAreDeclared(d, a.toolCalls, run);
      if Rewritten(d, ids, u) == Synthetic(d, u) {
        RewrittenSameIsStable(d, ids, u);
      }
      if StableCalls(d, ids, u) {
        StableIsRewrittenSame(d, ids, u);
      }
    } else {
      UnownedRun(d, head, run);
      UnownedRun(d, head, []);
    }
  }

  lemma OpenAreDeclared(d: IdCodec, calls: seq<ToolCall>, run: seq<Item>)
    requires AllOutputs(run)
    ensures forall c :: c in OpenCalls(d, calls, run) ==> CallId(d, c) in CallIds(d, calls)
  {
    KeptRunFacts(d, calls, run);
    UnansweredMeans(d, calls, AnsweredIds(d, KeptRun(d, calls, run)));
  }

  // ----- whole histories

  /** The documented idempotence of `repair_history` holds of a history exactly when, in every run,
      the calls left open are stable. */
  lemma RepairIdempotentIff(d: IdCodec, h: seq<Item>)
    ensures Repaired(d, Repaired(d, h)) == Repaired(d, h) <==> EachRun(d, Stable, None, h)
  {
    hide Map, ApplyRun, Holds, EachRun;
    forall hd, run | AllOutputs(run)
      ensures Holds(d, After(Repair, Fixed(Repair)), hd, run) <==> Holds(d, Stable, hd, run)
    {
      RunSettlesIff(d, hd, run);
    }
    EachRunEquiv(d, After(Repair, Fixed(Repair)), Stable, None, h);
    EachRunOfMap(d, Repair, Fixed(Repair), None, h);
    FixedIffEachRun(d, Repair, None, Repaired(d, h));
  }

  /** Two open calls with one plain id get two results, and the next repair leaves one of them. */
  lemma RepeatedCallIdNotIdempotent(d: IdCodec, call: ToolCall, a: Item)
    requires d.custom(call.id).None? && d.codex(call.id).None?
    requires a.Assistant? && a.toolCalls == [call, call]
    ensures Repaired(d, [a]) == [a, SyntheticResult(d, call), SyntheticResult(d, call)]
    ensures Repaired(d, Repaired(d, [a])) != Repaired(d, [a])
  {
    hide HaltedText, Repaired, EachRun;
    var u := OpenCalls(d, a.toolCalls, []);
    assert u == [call, call] by {
      assert AnsweredIds(d, []) == {};
      assert [call, call][1..] == [call] && [call][1..] == [];
      assert Unanswered(d, [call], {}) == [call] + Unanswered(d, [], {}) == [call];
    }
    RepairOneBlock(d, a, []);
    RepairedRun(d, a, []);
    assert [a] + [] == [a];
    assert Synthetic(d, u) == [SyntheticResult(d, call), SyntheticResult(d, call)];
    assert !StableOpen(d, a.toolCalls, []) by {
      assert u[0].id == u[1].id == CallId(d, call) && call in a.toolCalls;
    }
    assert [] + [a] == [a] && [a][1..] == [] + [];
    EachRunOfRun(d, Stable, None, [], [a]);
    EachRunOfRun(d, Stable, Some(a), [], []);
    RepairIdempotentIff(d, [a]);
  }
}
