/** `repair_history`: three passes over a history, each rewriting the runs of tool outputs and
    leaving every other item in place. */
module Repair {
  import opened Wrappers
  import opened Conversation
  import opened ToolPairing

  // ----- runs

  /** An assistant that declares at least one call. */
  predicate IsOwner(head: Option<Item>) {
    head.Some? && head.value.Assistant? && head.value.toolCalls != []
  }

  // ----- what each pass does to one run

  predicate RepeatedIn(run: seq<Item>, x: Item) {
    x.ToolResult? && exists y :: y in run && y.ToolResult? && y.toolCallId == x.toolCallId
  }

  /** Only the last generic result of each stored id; custom outputs all stay. */
  function LastOnly(run: seq<Item>): seq<Item> {
    if run == [] then []
    else if RepeatedIn(run[1..], run[0]) then LastOnly(run[1..])
    else [run[0]] + LastOnly(run[1..])
  }

  function WithIds(d: IdCodec, ids: set<string>, run: seq<Item>): seq<Item>
    requires AllOutputs(run)
  {
    if run == [] then []
    else
      var x, rest := run[|run| - 1], run[..|run| - 1];
      if OutputId(d, x) in ids then WithIds(d, ids, rest) + [x] else WithIds(d, ids, rest)
  }

  function AnsweredIds(d: IdCodec, run: seq<Item>): set<string>
    requires AllOutputs(run)
  {
    set x | x in run :: SamplingOutputId(d, x)
  }

  function Unanswered(d: IdCodec, calls: seq<ToolCall>, answered: set<string>): seq<ToolCall> {
    if calls == [] then []
    else if CallId(d, calls[0]) in answered then Unanswered(d, calls[1..], answered)
    else [calls[0]] + Unanswered(d, calls[1..], answered)
  }

  predicate IsCustom(d: IdCodec, call: ToolCall) {
    d.custom(call.id).Some?
  }

  function HaltedText(name: string): string {
    "Tool execution was " + "halted by the harness " + "(history_repair); the " + "tool `" + name + "` was not executed."
  }

  function SyntheticResult(d: IdCodec, call: ToolCall): (x: Item)
    ensures IsOutput(x) && SamplingOutputId(d, x) == CallId(d, call)
  {
    if IsCustom(d, call) then
      CustomToolOutput(CallId(d, call), None, Some(call.name), [OutText(HaltedText(call.name))])
    else
      ToolResult(call.id, HaltedText(call.name), [], [])
  }

  function Synthetic(d: IdCodec, calls: seq<ToolCall>): (ys: seq<Item>)
    ensures |ys| == |calls| && forall i :: 0 <= i < |calls| ==> ys[i] == SyntheticResult(d, calls[i])
    ensures AllOutputs(ys)
  {
    if calls == [] then [] else [SyntheticResult(d, calls[0])] + Synthetic(d, calls[1..])
  }

  datatype Pass = Dedup | Strip | Dangle | Repair

  function ApplyRun(d: IdCodec, pass: Pass, head: Option<Item>, run: seq<Item>): (r: seq<Item>)
    requires AllOutputs(run)
    ensures AllOutputs(r)
    decreases pass.Repair?
  {
    match pass
    case Dedup => if IsOwner(head) then LastOnlyKeeps(run); LastOnly(run) else run
    case Strip =>
      var ids := if head.Some? then DeclaredIds(d, head.value) else {};
      WithIdsKeeps(d, ids, run); WithIds(d, ids, run)
    case Dangle =>
      if IsOwner(head) then run + Synthetic(d, Unanswered(d, head.value.toolCalls, AnsweredIds(d, run)))
      else run
    case Repair =>
      ApplyRun(d, Dangle, head, ApplyRun(d, Strip, head, ApplyRun(d, Dedup, head, run)))
  }

  /** A pass over a whole history, run by run; `head` is the item before `h`. */
  function Map(d: IdCodec, pass: Pass, head: Option<Item>, h: seq<Item>): seq<Item>
    decreases |h|
  {
    var n := RunLength(h);
    ApplyRun(d, pass, head, h[..n]) +
    if n == |h| then [] else [h[n]] + Map(d, pass, Some(h[n]), h[n + 1..])
  }

  function Repaired(d: IdCodec, h: seq<Item>): seq<Item> {
    Map(d, Repair, None, h)
  }

  // ----- lemmas about single runs

  lemma {:induction false} LastOnlyKeeps(run: seq<Item>)
    ensures forall x :: x in LastOnly(run) ==> x in run
    ensures |LastOnly(run)| <= |run|
    ensures |LastOnly(run)| == |run| ==> LastOnly(run) == run
  {
    if run != [] { LastOnlyKeeps(run[1..]); }
  }

  /** Every output has a survivor with the same stored id. */
  lemma {:induction false} LastOnlyCovers(run: seq<Item>, x: Item) returns (y: Item)
    requires x in run
    ensures y in LastOnly(run) && (y == x || (x.ToolResult? && y.ToolResult? && x.toolCallId == y.toolCallId))
  {
    if x in run[1..] {
      y := LastOnlyCovers(run[1..], x);
    } else if RepeatedIn(run[1..], x) {
      var z :| z in run[1..] && z.ToolResult? && z.toolCallId == x.toolCallId;
      y := LastOnlyCovers(run[1..], z);
    } else {
      y := x;
    }
  }

  lemma {:induction false} WithIdsKeeps(d: IdCodec, ids: set<string>, run: seq<Item>)
    requires AllOutputs(run)
    ensures forall x :: x in WithIds(d, ids, run) <==> x in run && OutputId(d, x) in ids
    ensures |WithIds(d, ids, run)| <= |run|
    ensures WithIds(d, ids, run) == run <==> forall x :: x in run ==> OutputId(d, x) in ids
  {
    if run != [] {
      var n := |run| - 1;
      WithIdsKeeps(d, ids, run[..n]);
      assert run == run[..n] + [run[n]];
    }
  }

  // ----- lemmas about whole histories

  /** A run prepended to a history that starts with another item is parsed as that run. */
  lemma {:induction false} RunLengthOfRun(run: seq<Item>, t: seq<Item>)
    requires AllOutputs(run)
    requires t != [] ==> !IsOutput(t[0])
    ensures RunLength(run + t) == |run|
  {
    if run == [] {
      assert run + t == t;
    } else {
      assert (run + t)[1..] == run[1..] + t;
      RunLengthOfRun(run[1..], t);
    }
  }

  /** The first run of a history and what follows it. */
  function Tail(h: seq<Item>): (t: seq<Item>)
    ensures t != [] ==> !IsOutput(t[0])
    ensures h == h[..RunLength(h)] + t
  {
    h[RunLength(h)..]
  }

  function MapTail(d: IdCodec, p: Pass, t: seq<Item>): (m: seq<Item>)
    ensures t == [] <==> m == []
    ensures t != [] ==> m[0] == t[0] && m[1..] == Map(d, p, Some(t[0]), t[1..])
  {
    if t == [] then [] else [t[0]] + Map(d, p, Some(t[0]), t[1..])
  }

  lemma MapOfRun(d: IdCodec, pass: Pass, head: Option<Item>, run: seq<Item>, t: seq<Item>)
    requires AllOutputs(run)
    requires t != [] ==> !IsOutput(t[0])
    ensures Map(d, pass, head, run + t) == ApplyRun(d, pass, head, run) + MapTail(d, pass, t)
  {
    RunLengthOfRun(run, t);
    assert (run + t)[..|run|] == run;
    if t != [] {
      assert (run + t)[|run|] == t[0] && (run + t)[|run| + 1..] == t[1..];
    }
  }

  lemma {:induction false} RepairIsThreePasses(d: IdCodec, head: Option<Item>, h: seq<Item>)
    ensures Map(d, Dangle, head, Map(d, Strip, head, Map(d, Dedup, head, h))) == Map(d, Repair, head, h)
    decreases |h|
  {
    hide Map;
    var run, t := h[..RunLength(h)], Tail(h);
    var one := ApplyRun(d, Dedup, head, run);
    var two := ApplyRun(d, Strip, head, one);
    var t1 := MapTail(d, Dedup, t);
    var t2 := MapTail(d, Strip, t1);
    MapOfRun(d, Repair, head, run, t);
    MapOfRun(d, Dedup, head, run, t);
    MapOfRun(d, Strip, head, one, t1);
    MapOfRun(d, Dangle, head, two, t2);
    if t != [] {
      RepairIsThreePasses(d, Some(t[0]), t[1..]);
    }
  }

  // ----- the strip pass is the pairing scan

  lemma {:induction false} KeptOfRun(d: IdCodec, p: seq<Item>, run: seq<Item>)
    requires AllOutputs(run)
    ensures Kept(d, RunOwner, p + run) == Kept(d, RunOwner, p) + WithIds(d, OpenIds(d, RunOwner, p), run)
    ensures OpenIds(d, RunOwner, p + run) == OpenIds(d, RunOwner, p)
  {
    hide Kept, OpenIds, OutputId;
    if run == [] {
      assert p + run == p;
    } else {
      var n := |run| - 1;
      KeptOfRun(d, p, run[..n]);
      ScanSnoc(d, RunOwner, p + run[..n], run[n]);
      assert p + run == p + run[..n] + [run[n]];
    }
  }

  lemma StripRun(d: IdCodec, head: Option<Item>, run: seq<Item>)
    requires AllOutputs(run)
    ensures ApplyRun(d, Strip, head, run) == WithIds(d, if head.Some? then DeclaredIds(d, head.value) else {}, run)
  {
  }

  lemma KeptOfBlock(d: IdCodec, p: seq<Item>, head: Option<Item>, run: seq<Item>, x: Item)
    requires OpenIds(d, RunOwner, p) == if head.Some? then DeclaredIds(d, head.value) else {}
    requires AllOutputs(run) && !IsOutput(x)
    ensures Kept(d, RunOwner, p + run + [x]) == Kept(d, RunOwner, p) + ApplyRun(d, Strip, head, run) + [x]
    ensures OpenIds(d, RunOwner, p + run + [x]) == DeclaredIds(d, x)
  {
    KeptOfRun(d, p, run);
    ScanSnoc(d, RunOwner, p + run, x);
  }

  lemma Reassociate(p: seq<Item>, w: seq<Item>, x: Item, t: seq<Item>)
    ensures p + w + [x] + t == p + (w + ([x] + t))
  {
  }

  lemma {:induction false} KeptIsMapFrom(d: IdCodec, p: seq<Item>, head: Option<Item>, h: seq<Item>)
    requires OpenIds(d, RunOwner, p) == if head.Some? then DeclaredIds(d, head.value) else {}
    ensures Kept(d, RunOwner, p + h) == Kept(d, RunOwner, p) + Map(d, Strip, head, h)
    decreases |h|
  {
    hide ApplyRun, Kept, OpenIds, DeclaredIds;
    var n := RunLength(h);
    var run := h[..n];
    if n == |h| {
      assert h == run;
      KeptOfRun(d, p, run);
      StripRun(d, head, run);
      assert ApplyRun(d, Strip, head, run) + [] == ApplyRun(d, Strip, head, run);
    } else {
      var x, t := h[n], h[n + 1..];
      KeptOfBlock(d, p, head, run, x);
      KeptIsMapFrom(d, p + run + [x], Some(x), t);
      assert h == run + ([x] + t);
      Reassociate(p, run, x, t);
      Reassociate(Kept(d, RunOwner, p), ApplyRun(d, Strip, head, run), x, Map(d, Strip, Some(x), t));
    }
  }

  lemma StripIsKept(d: IdCodec, h: seq<Item>)
    ensures Map(d, Strip, None, h) == Kept(d, RunOwner, h)
  {
    KeptIsMapFrom(d, [], None, h);
    assert [] + h == h;
  }

  // ----- when one run is settled

  /** No stored id answers twice. */
  ghost predicate NoRepeats(run: seq<Item>) {
    forall i, j :: 0 <= i < j < |run| && run[i].ToolResult? && run[j].ToolResult? ==> run[i].toolCallId != run[j].toolCallId
  }

  lemma RepeatedMeans(x: Item, t: seq<Item>)
    ensures NoRepeats([x] + t) <==> NoRepeats(t) && !RepeatedIn(t, x)
  {
    var run := [x] + t;
    if RepeatedIn(t, x) {
      var y :| y in t && y.ToolResult? && y.toolCallId == x.toolCallId;
      var j :| 0 <= j < |t| && t[j] == y;
      assert run[0] == x && run[j + 1] == y;
    }
    forall i, j | 0 <= i < j < |t| && NoRepeats(run) && t[i].ToolResult? && t[j].ToolResult?
      ensures t[i].toolCallId != t[j].toolCallId
    {
      assert run[i + 1] == t[i] && run[j + 1] == t[j];
    }
  }

  lemma {:induction false} LastOnlyFixed(run: seq<Item>)
    ensures LastOnly(run) == run <==> NoRepeats(run)
    ensures NoRepeats(LastOnly(run))
  {
    if run != [] {
      hide NoRepeats;
      var t := run[1..];
      LastOnlyFixed(t);
      LastOnlyKeeps(t);
      assert run == [run[0]] + t;
      RepeatedMeans(run[0], t);
      RepeatedMeans(run[0], LastOnly(t));
    }
  }

  lemma RepeatedAtEnd(t: seq<Item>, x: Item)
    ensures NoRepeats(t + [x]) <==> NoRepeats(t) && !RepeatedIn(t, x)
  {
    var run := t + [x];
    if RepeatedIn(t, x) {
      var y :| y in t && y.ToolResult? && y.toolCallId == x.toolCallId;
      var j :| 0 <= j < |t| && t[j] == y;
      assert run[|t|] == x && run[j] == y;
    }
    forall i, j | 0 <= i < j < |t| && NoRepeats(run) && t[i].ToolResult? && t[j].ToolResult?
      ensures t[i].toolCallId != t[j].toolCallId
    {
      assert run[i] == t[i] && run[j] == t[j];
    }
  }

  lemma {:induction false} WithIdsNoRepeats(d: IdCodec, ids: set<string>, run: seq<Item>)
    requires AllOutputs(run) && NoRepeats(run)
    ensures NoRepeats(WithIds(d, ids, run))
  {
    if run != [] {
      hide NoRepeats, OutputId;
      var t, x := run[..|run| - 1], run[|run| - 1];
      assert run == t + [x];
      RepeatedAtEnd(t, x);
      WithIdsNoRepeats(d, ids, t);
      WithIdsKeeps(d, ids, t);
      RepeatedAtEnd(WithIds(d, ids, t), x);
    }
  }

  lemma {:induction false} UnansweredMeans(d: IdCodec, calls: seq<ToolCall>, answered: set<string>)
    ensures forall c :: c in Unanswered(d, calls, answered) <==> c in calls && CallId(d, c) !in answered
  {
    if calls != [] {
      UnansweredMeans(d, calls[1..], answered);
    }
  }

  /** The calls an input run leaves without an accepted answer. */
  function OpenCalls(d: IdCodec, calls: seq<ToolCall>, run: seq<Item>): seq<ToolCall>
    requires AllOutputs(run)
  {
    WithIdsKeeps(d, CallIds(d, calls), run);
    Unanswered(d, calls, AnsweredIds(d, WithIds(d, CallIds(d, calls), run)))
  }

  /** The calls left open carry distinct stored ids. */
  ghost predicate DistinctOpen(d: IdCodec, calls: seq<ToolCall>, run: seq<Item>)
    requires AllOutputs(run)
  {
    var u := OpenCalls(d, calls, run);
    forall i, j :: 0 <= i < j < |u| && !IsCustom(d, u[i]) && !IsCustom(d, u[j]) ==> u[i].id != u[j].id
  }

  /** The stored id of each call left open is an id the compaction crate recognises. */
  ghost predicate ReadableOpen(d: IdCodec, calls: seq<ToolCall>, run: seq<Item>)
    requires AllOutputs(run)
  {
    forall c :: c in OpenCalls(d, calls, run) && !IsCustom(d, c) ==> c.id in CallIds(d, calls)
  }

  /** The compaction crate would recognise the result that repair writes for this call. */
  predicate ReadableCall(d: IdCodec, ids: set<string>, call: ToolCall) {
    IsCustom(d, call) || call.id in ids
  }

  /** Results for these calls, in this order, are what a second repair would write again: the
      readable ones come first and have distinct stored ids, and answer none of the others. */
  ghost predicate StableCalls(d: IdCodec, ids: set<string>, u: seq<ToolCall>) {
    && (forall i, j :: 0 <= i < j < |u| && ReadableCall(d, ids, u[j]) ==> ReadableCall(d, ids, u[i]))
    && (forall i, j :: 0 <= i < j < |u| && !IsCustom(d, u[i]) && !IsCustom(d, u[j]) && u[i].id in ids ==> u[i].id != u[j].id)
    && (forall i, j :: 0 <= i < |u| && 0 <= j < |u| && ReadableCall(d, ids, u[i]) && !ReadableCall(d, ids, u[j]) ==>
          CallId(d, u[i]) != CallId(d, u[j]))
  }

  ghost predicate StableOpen(d: IdCodec, calls: seq<ToolCall>, run: seq<Item>)
    requires AllOutputs(run)
  {
    StableCalls(d, CallIds(d, calls), OpenCalls(d, calls, run))
  }

  /** The outputs of an owned run that the first two passes keep. */
  function KeptRun(d: IdCodec, calls: seq<ToolCall>, run: seq<Item>): (k: seq<Item>)
    requires AllOutputs(run)
    ensures AllOutputs(k)
  {
    LastOnlyKeeps(run);
    WithIdsKeeps(d, CallIds(d, calls), LastOnly(run));
    WithIds(d, CallIds(d, calls), LastOnly(run))
  }

  /** They are unrepeated, readable, and answer the same calls as before the first pass. */
  lemma KeptRunFacts(d: IdCodec, calls: seq<ToolCall>, run: seq<Item>)
    requires AllOutputs(run)
    ensures NoRepeats(KeptRun(d, calls, run))
    ensures forall x :: x in KeptRun(d, calls, run) ==> OutputId(d, x) in CallIds(d, calls)
    ensures Unanswered(d, calls, AnsweredIds(d, KeptRun(d, calls, run))) == OpenCalls(d, calls, run)
  {
    var ids, one := CallIds(d, calls), LastOnly(run);
    LastOnlyKeeps(run);
    LastOnlyFixed(run);
    WithIdsNoRepeats(d, ids, one);
    WithIdsKeeps(d, ids, one);
    WithIdsKeeps(d, ids, run);
    var k, all := WithIds(d, ids, one), WithIds(d, ids, run);
    forall x | x in all ensures SamplingOutputId(d, x) in AnsweredIds(d, k) {
      var y := LastOnlyCovers(run, x);
      assert y in k && SamplingOutputId(d, y) == SamplingOutputId(d, x);
    }
    assert AnsweredIds(d, k) == AnsweredIds(d, all);
  }

  lemma RepairedRun(d: IdCodec, a: Item, run: seq<Item>)
    requires AllOutputs(run) && IsOwner(Some(a))
    ensures ApplyRun(d, Repair, Some(a), run) ==
            KeptRun(d, a.toolCalls, run) + Synthetic(d, OpenCalls(d, a.toolCalls, run))
  {
    KeptRunFacts(d, a.toolCalls, run);
    assert ApplyRun(d, Strip, Some(a), ApplyRun(d, Dedup, Some(a), run)) == KeptRun(d, a.toolCalls, run);
  }

  lemma RepairedRunDistinct(d: IdCodec, a: Item, run: seq<Item>, r: seq<Item>)
    requires AllOutputs(run) && IsOwner(Some(a)) && AllOutputs(r)
    requires r == KeptRun(d, a.toolCalls, run) + Synthetic(d, OpenCalls(d, a.toolCalls, run))
    ensures ApplyRun(d, Dedup, Some(a), r) == r <==> DistinctOpen(d, a.toolCalls, run)
  {
    var k := KeptRun(d, a.toolCalls, run);
    KeptRunFacts(d, a.toolCalls, run);
    UnansweredMeans(d, a.toolCalls, AnsweredIds(d, k));
    SyntheticRepeats(d, k, OpenCalls(d, a.toolCalls, run));
    LastOnlyFixed(r);
  }

  lemma RepairedRunReadable(d: IdCodec, a: Item, run: seq<Item>, r: seq<Item>)
    requires AllOutputs(run) && IsOwner(Some(a)) && AllOutputs(r)
    requires r == KeptRun(d, a.toolCalls, run) + Synthetic(d, OpenCalls(d, a.toolCalls, run))
    ensures ApplyRun(d, Strip, Some(a), r) == r <==> ReadableOpen(d, a.toolCalls, run)
  {
    var k := KeptRun(d, a.toolCalls, run);
    KeptRunFacts(d, a.toolCalls, run);
    UnansweredMeans(d, a.toolCalls, AnsweredIds(d, k));
    SyntheticReadable(d, CallIds(d, a.toolCalls), k, OpenCalls(d, a.toolCalls, run));
    WithIdsKeeps(d, CallIds(d, a.toolCalls), r);
  }

  lemma RepairedRunAnswered(d: IdCodec, a: Item, run: seq<Item>, r: seq<Item>)
    requires AllOutputs(run) && IsOwner(Some(a)) && AllOutputs(r)
    requires r == KeptRun(d, a.toolCalls, run) + Synthetic(d, OpenCalls(d, a.toolCalls, run))
    ensures ApplyRun(d, Dangle, Some(a), r) == r
    ensures CallIds(d, a.toolCalls) <= AnsweredIds(d, r)
  {
    KeptRunFacts(d, a.toolCalls, run);
    AllAnswered(d, a.toolCalls, KeptRun(d, a.toolCalls, run));
    assert r + [] == r;
  }

  lemma SyntheticRepeats(d: IdCodec, k: seq<Item>, u: seq<ToolCall>)
    requires AllOutputs(k) && NoRepeats(k)
    requires forall c :: c in u ==> CallId(d, c) !in AnsweredIds(d, k)
    ensures NoRepeats(k + Synthetic(d, u)) <==>
            forall i, j :: 0 <= i < j < |u| && !IsCustom(d, u[i]) && !IsCustom(d, u[j]) ==> u[i].id != u[j].id
  {
    hide HaltedText, Synthetic;
    var ys := Synthetic(d, u);
    var r := k + ys;
    forall i, j | 0 <= i < |k| && 0 <= j < |u| && k[i].ToolResult? && ys[j].ToolResult?
      ensures k[i].toolCallId != ys[j].toolCallId
    {
      assert u[j] in u && SamplingOutputId(d, k[i]) in AnsweredIds(d, k);
    }
    forall j | 0 <= j < |u| ensures r[|k| + j] == SyntheticResult(d, u[j]) {
    }
    if NoRepeats(r) {
      forall i, j | 0 <= i < j < |u| && !IsCustom(d, u[i]) && !IsCustom(d, u[j]) ensures u[i].id != u[j].id {
        assert r[|k| + i].ToolResult? && r[|k| + j].ToolResult?;
      }
    }
  }

  lemma SyntheticReadable(d: IdCodec, ids: set<string>, k: seq<Item>, u: seq<ToolCall>)
    requires AllOutputs(k) && forall x :: x in k ==> OutputId(d, x) in ids
    requires forall c :: c in u ==> CallId(d, c) in ids
    ensures (forall x :: x in k + Synthetic(d, u) ==> OutputId(d, x) in ids) <==>
            (forall c :: c in u && !IsCustom(d, c) ==> c.id in ids)
  {
    hide HaltedText, Synthetic;
    var ys := Synthetic(d, u);
    var r := k + ys;
    if forall x :: x in r ==> OutputId(d, x) in ids {
      forall c | c in u && !IsCustom(d, c) ensures c.id in ids {
        var j :| 0 <= j < |u| && u[j] == c;
        assert ys[j] in r;
      }
    }
  }

  lemma AllAnswered(d: IdCodec, calls: seq<ToolCall>, k: seq<Item>)
    requires AllOutputs(k)
    ensures var r := k + Synthetic(d, Unanswered(d, calls, AnsweredIds(d, k)));
            CallIds(d, calls) <= AnsweredIds(d, r) && Unanswered(d, calls, AnsweredIds(d, r)) == []
  {
    hide HaltedText, Synthetic;
    var u := Unanswered(d, calls, AnsweredIds(d, k));
    var r := k + Synthetic(d, u);
    UnansweredMeans(d, calls, AnsweredIds(d, k));
    forall c | c in calls ensures CallId(d, c) in AnsweredIds(d, r) {
      if c in u {
        var j :| 0 <= j < |u| && u[j] == c;
        assert r[|k| + j] == SyntheticResult(d, c) && r[|k| + j] in r;
      } else {
        var x :| x in k && SamplingOutputId(d, x) == CallId(d, c);
        assert x in r;
      }
    }
    NoneUnanswered(d, calls, AnsweredIds(d, r));
  }

  lemma {:induction false} NoneUnanswered(d: IdCodec, calls: seq<ToolCall>, answered: set<string>)
    requires forall c :: c in calls ==> CallId(d, c) in answered
    ensures Unanswered(d, calls, answered) == []
  {
    if calls != [] { NoneUnanswered(d, calls[1..], answered); }
  }

  // ----- whole histories: the main results

  datatype Check = Fixed(pass: Pass) | Answered | Distinct | Readable | Stable | After(pass: Pass, check: Check)

  /** A condition on one run and the item before it. */
  ghost predicate Holds(d: IdCodec, c: Check, head: Option<Item>, run: seq<Item>)
    requires AllOutputs(run)
    decreases c
  {
    match c
    case Fixed(p) => ApplyRun(d, p, head, run) == run
    case Answered => IsOwner(head) ==> CallIds(d, head.value.toolCalls) <= AnsweredIds(d, run)
    case Distinct => IsOwner(head) ==> DistinctOpen(d, head.value.toolCalls, run)
    case Readable => IsOwner(head) ==> ReadableOpen(d, head.value.toolCalls, run)
    case Stable => IsOwner(head) ==> StableOpen(d, head.value.toolCalls, run)
    case After(p, next) => Holds(d, next, head, ApplyRun(d, p, head, run))
  }

  /** The condition holds of every run of the history. */
  ghost predicate EachRun(d: IdCodec, c: Check, head: Option<Item>, h: seq<Item>)
    decreases |h|
  {
    var n := RunLength(h);
    Holds(d, c, head, h[..n]) && (n < |h| ==> EachRun(d, c, Some(h[n]), h[n + 1..]))
  }

  lemma EachRunOfRun(d: IdCodec, c: Check, head: Option<Item>, run: seq<Item>, t: seq<Item>)
    requires AllOutputs(run)
    requires t != [] ==> !IsOutput(t[0])
    ensures EachRun(d, c, head, run + t) <==>
            Holds(d, c, head, run) && (t != [] ==> EachRun(d, c, Some(t[0]), t[1..]))
  {
    RunLengthOfRun(run, t);
    assert (run + t)[..|run|] == run;
    if t != [] {
      assert (run + t)[|run|] == t[0] && (run + t)[|run| + 1..] == t[1..];
    }
  }

  /** A history splits into its first run and the rest in one way only. */
  lemma SplitUnique(r: seq<Item>, m: seq<Item>, run: seq<Item>, t: seq<Item>)
    requires AllOutputs(r) && AllOutputs(run)
    requires m != [] ==> !IsOutput(m[0])
    requires t != [] ==> !IsOutput(t[0])
    ensures r + m == run + t <==> r == run && m == t
  {
    if r + m == run + t {
      RunLengthOfRun(r, m);
      RunLengthOfRun(run, t);
      assert (r + m)[..|r|] == r && (r + m)[|r|..] == m;
      assert (run + t)[..|r|] == run && (run + t)[|r|..] == t;
    }
  }

  lemma {:induction false} FixedIffEachRun(d: IdCodec, p: Pass, head: Option<Item>, h: seq<Item>)
    ensures Map(d, p, head, h) == h <==> EachRun(d, Fixed(p), head, h)
    decreases |h|
  {
    var run, t := h[..RunLength(h)], Tail(h);
    var r, m := ApplyRun(d, p, head, run), MapTail(d, p, t);
    MapOfRun(d, p, head, run, t);
    EachRunOfRun(d, Fixed(p), head, run, t);
    SplitUnique(r, m, run, t);
    if t != [] {
      FixedIffEachRun(d, p, Some(t[0]), t[1..]);
      assert m == t <==> m[1..] == t[1..] by {
        assert m == [t[0]] + m[1..] && t == [t[0]] + t[1..];
      }
    }
  }

  lemma {:induction false} EachRunOfMap(d: IdCodec, p: Pass, c: Check, head: Option<Item>, h: seq<Item>)
    ensures EachRun(d, c, head, Map(d, p, head, h)) <==> EachRun(d, After(p, c), head, h)
    decreases |h|
  {
    hide Map, ApplyRun, RunLength, MapTail, Tail, Holds, EachRun;
    var run, t := h[..RunLength(h)], Tail(h);
    var r, m := ApplyRun(d, p, head, run), MapTail(d, p, t);
    MapOfRun(d, p, head, run, t);
    EachRunOfRun(d, After(p, c), head, run, t);
    EachRunOfRun(d, c, head, r, m);
    HoldsAfter(d, p, c, head, run, r);
    if t != [] {
      EachRunOfMap(d, p, c, Some(t[0]), t[1..]);
    }
  }

  lemma {:induction false} EachRunEquiv(d: IdCodec, c: Check, e: Check, head: Option<Item>, h: seq<Item>)
    requires forall hd, run :: AllOutputs(run) ==> (Holds(d, c, hd, run) <==> Holds(d, e, hd, run))
    ensures EachRun(d, c, head, h) <==> EachRun(d, e, head, h)
    decreases |h|
  {
    var run, t := h[..RunLength(h)], Tail(h);
    EachRunOfRun(d, c, head, run, t);
    EachRunOfRun(d, e, head, run, t);
    if t != [] {
      EachRunEquiv(d, c, e, Some(t[0]), t[1..]);
    }
  }

  lemma {:induction false} EachRunAlways(d: IdCodec, c: Check, head: Option<Item>, h: seq<Item>)
    requires forall hd, run :: AllOutputs(run) ==> Holds(d, c, hd, run)
    ensures EachRun(d, c, head, h)
    decreases |h|
  {
    var run, t := h[..RunLength(h)], Tail(h);
    EachRunOfRun(d, c, head, run, t);
    if t != [] {
      EachRunAlways(d, c, Some(t[0]), t[1..]);
    }
  }

  /** Repairing a run no call owns empties it. */
  lemma UnownedRun(d: IdCodec, head: Option<Item>, run: seq<Item>)
    requires AllOutputs(run) && !IsOwner(head)
    ensures ApplyRun(d, Repair, head, run) == []
  {
    var ids := if head.Some? then DeclaredIds(d, head.value) else {};
    assert ids == {};
    WithIdsNone(d, run);
  }

  lemma {:induction false} WithIdsNone(d: IdCodec, run: seq<Item>)
    requires AllOutputs(run)
    ensures WithIds(d, {}, run) == []
  {
    if run != [] { WithIdsNone(d, run[..|run| - 1]); }
  }

  lemma HoldsAfter(d: IdCodec, p: Pass, c: Check, head: Option<Item>, run: seq<Item>, r: seq<Item>)
    requires AllOutputs(run) && r == ApplyRun(d, p, head, run)
    ensures Holds(d, After(p, c), head, run) <==> Holds(d, c, head, r)
  {
  }

  /** What a second pass over one repaired run does, for any head. */
  lemma RepairedRunAny(d: IdCodec, c: Check, head: Option<Item>, run: seq<Item>)
    requires AllOutputs(run)
    requires c == Fixed(Dedup) || c == Fixed(Strip) || c == Fixed(Dangle) || c == Answered
    ensures Holds(d, After(Repair, c), head, run) <==>
            (c == Fixed(Dedup) ==> Holds(d, Distinct, head, run)) && (c == Fixed(Strip) ==> Holds(d, Readable, head, run))
  {
    hide ApplyRun, KeptRun, OpenCalls, Synthetic, DistinctOpen, ReadableOpen, AnsweredIds, CallIds;
    var r := ApplyRun(d, Repair, head, run);
    HoldsAfter(d, Repair, c, head, run, r);
    if IsOwner(head) {
      RepairedRun(d, head.value, run);
      if c == Fixed(Dedup) {
        RepairedRunDistinct(d, head.value, run, r);
      } else if c == Fixed(Strip) {
        RepairedRunReadable(d, head.value, run, r);
      } else {
        RepairedRunAnswered(d, head.value, run, r);
      }
    } else {
      UnownedRun(d, head, run);
      UnownedEmpty(d, head);
    }
  }

  lemma UnownedEmpty(d: IdCodec, head: Option<Item>)
    requires !IsOwner(head)
    ensures ApplyRun(d, Dedup, head, []) == [] && ApplyRun(d, Strip, head, []) == [] && ApplyRun(d, Dangle, head, []) == []
  {
  }

  lemma {:induction false} NonOutputsConcat(a: seq<Item>, b: seq<Item>)
    ensures NonOutputs(a + b) == NonOutputs(a) + NonOutputs(b)
  {
    if b == [] {
      assert a + b == a;
    } else {
      var n := |b| - 1;
      NonOutputsConcat(a, b[..n]);
      assert (a + b)[..|a + b| - 1] == a + b[..n];
    }
  }

  lemma {:induction false} NonOutputsOfRun(run: seq<Item>)
    requires AllOutputs(run)
    ensures NonOutputs(run) == []
  {
    if run != [] { NonOutputsOfRun(run[..|run| - 1]); }
  }

  lemma {:induction false} PassKeepsOtherItems(d: IdCodec, p: Pass, head: Option<Item>, h: seq<Item>)
    ensures NonOutputs(Map(d, p, head, h)) == NonOutputs(h)
    decreases |h|
  {
    hide Map, ApplyRun, NonOutputs, RunLength, MapTail, Tail;
    var run, t := h[..RunLength(h)], Tail(h);
    var r, m := ApplyRun(d, p, head, run), MapTail(d, p, t);
    MapOfRun(d, p, head, run, t);
    NonOutputsConcat(run, t);
    NonOutputsConcat(r, m);
    NonOutputsOfRun(run);
    NonOutputsOfRun(r);
    if t != [] {
      PassKeepsOtherItems(d, p, Some(t[0]), t[1..]);
      NonOutputsConcat([t[0]], t[1..]);
      NonOutputsConcat([t[0]], m[1..]);
      assert t == [t[0]] + t[1..] && m == [t[0]] + m[1..];
    }
  }

  /** `repair_history` keeps every item that is not a tool output, answers every declared call in
      the run right after it, and leaves an adjacent history exactly when each call it had to
      answer carries an id the compaction crate can read back. */
  lemma RepairAnswersEveryCall(d: IdCodec, h: seq<Item>)
    ensures NonOutputs(Repaired(d, h)) == NonOutputs(h)
    ensures EachRun(d, Answered, None, Repaired(d, h))
    ensures Adjacent(d, Repaired(d, h)) <==> EachRun(d, Readable, None, h)
  {
    var r := Repaired(d, h);
    PassKeepsOtherItems(d, Repair, None, h);
    forall hd, run | AllOutputs(run)
      ensures Holds(d, After(Repair, Answered), hd, run)
      ensures Holds(d, After(Repair, Fixed(Strip)), hd, run) <==> Holds(d, Readable, hd, run)
    {
      RepairedRunAny(d, Answered, hd, run);
      RepairedRunAny(d, Fixed(Strip), hd, run);
    }
    EachRunAlways(d, After(Repair, Answered), None, h);
    EachRunOfMap(d, Repair, Answered, None, h);
    EachRunEquiv(d, After(Repair, Fixed(Strip)), Readable, None, h);
    EachRunOfMap(d, Repair, Fixed(Strip), None, h);
    FixedIffEachRun(d, Strip, None, r);
    StripIsKept(d, r);
    PassesFixExactlyPaired(d, RunOwner, r);
  }

  /** Some pass would rewrite the history, so `HistoryRepairReport::changed` reports true. */
  ghost predicate WouldChange(d: IdCodec, h: seq<Item>) {
    Map(d, Dedup, None, h) != h || Map(d, Strip, None, h) != h || Map(d, Dangle, None, h) != h
  }

  /** The report of a second repair is clean exactly when, in every run, the calls left open carry
      distinct ids the compaction crate can read. */
  lemma SecondReportCleanIff(d: IdCodec, h: seq<Item>)
    ensures !WouldChange(d, Repaired(d, h)) <==> EachRun(d, Distinct, None, h) && EachRun(d, Readable, None, h)
    ensures !WouldChange(d, Repaired(d, h)) ==> Repaired(d, Repaired(d, h)) == Repaired(d, h)
  {
    var r := Repaired(d, h);
    forall hd, run | AllOutputs(run)
      ensures Holds(d, After(Repair, Fixed(Dedup)), hd, run) <==> Holds(d, Distinct, hd, run)
      ensures Holds(d, After(Repair, Fixed(Strip)), hd, run) <==> Holds(d, Readable, hd, run)
      ensures Holds(d, After(Repair, Fixed(Dangle)), hd, run)
    {
      RepairedRunAny(d, Fixed(Dedup), hd, run);
      RepairedRunAny(d, Fixed(Strip), hd, run);
      RepairedRunAny(d, Fixed(Dangle), hd, run);
    }
    EachRunEquiv(d, After(Repair, Fixed(Dedup)), Distinct, None, h);
    EachRunOfMap(d, Repair, Fixed(Dedup), None, h);
    FixedIffEachRun(d, Dedup, None, r);
    EachRunEquiv(d, After(Repair, Fixed(Strip)), Readable, None, h);
    EachRunOfMap(d, Repair, Fixed(Strip), None, h);
    FixedIffEachRun(d, Strip, None, r);
    EachRunAlways(d, After(Repair, Fixed(Dangle)), None, h);
    EachRunOfMap(d, Repair, Fixed(Dangle), None, h);
    FixedIffEachRun(d, Dangle, None, r);
    RepairIsThreePasses(d, None, r);
  }

  // ----- what a caller can check, and what goes wrong otherwise

  /** The id is one only the sampling-types crate can decode. */
  predicate CodexOnly(d: IdCodec, id: string) {
    d.custom(id).None? && d.codex(id).Some?
  }

  ghost predicate DistinctIds(calls: seq<ToolCall>) {
    forall i, j :: 0 <= i < j < |calls| ==> calls[i].id != calls[j].id
  }

  lemma DistinctCons(c: ToolCall, rest: seq<ToolCall>)
    requires DistinctIds(rest) && forall i :: 0 <= i < |rest| ==> rest[i].id != c.id
    ensures DistinctIds([c] + rest)
  {
  }

  /** No assistant repeats an id, and none uses a Codex-enveloped one. */
  ghost predicate PlainIds(d: IdCodec, h: seq<Item>) {
    forall x :: x in h && x.Assistant? ==>
      && DistinctIds(x.toolCalls)
      && (forall c :: c in x.toolCalls ==> !CodexOnly(d, c.id))
  }

  lemma {:induction false} UnansweredDistinct(d: IdCodec, calls: seq<ToolCall>, answered: set<string>)
    requires DistinctIds(calls)
    ensures DistinctIds(Unanswered(d, calls, answered))
  {
    if calls != [] {
      var rest := Unanswered(d, calls[1..], answered);
      UnansweredDistinct(d, calls[1..], answered);
      UnansweredMeans(d, calls[1..], answered);
      forall i | 0 <= i < |rest| ensures rest[i].id != calls[0].id {
        assert rest[i] in calls[1..];
        var j :| 0 <= j < |calls[1..]| && calls[1..][j] == rest[i];
        assert calls[j + 1] == rest[i];
      }
      if CallId(d, calls[0]) !in answered {
        assert Unanswered(d, calls, answered) == [calls[0]] + rest;
        DistinctCons(calls[0], rest);
      }
    }
  }

  lemma PlainRunSettles(d: IdCodec, a: Item, run: seq<Item>)
    requires PlainIds(d, [a]) && a.Assistant? && AllOutputs(run)
    ensures DistinctOpen(d, a.toolCalls, run) && ReadableOpen(d, a.toolCalls, run)
  {
    assert a in [a];
    WithIdsKeeps(d, CallIds(d, a.toolCalls), run);
    var answered := AnsweredIds(d, WithIds(d, CallIds(d, a.toolCalls), run));
    UnansweredDistinct(d, a.toolCalls, answered);
    UnansweredMeans(d, a.toolCalls, answered);
    forall c | c in OpenCalls(d, a.toolCalls, run) && !IsCustom(d, c) ensures c.id in CallIds(d, a.toolCalls) {
      assert CallId(d, c) == c.id;
    }
  }

  lemma {:induction false} PlainIdsSettleFrom(d: IdCodec, head: Option<Item>, h: seq<Item>)
    requires PlainIds(d, h) && (head.Some? ==> PlainIds(d, [head.value]))
    ensures EachRun(d, Distinct, head, h) && EachRun(d, Readable, head, h)
    decreases |h|
  {
    var run, t := h[..RunLength(h)], Tail(h);
    EachRunOfRun(d, Distinct, head, run, t);
    EachRunOfRun(d, Readable, head, run, t);
    if IsOwner(head) {
      PlainRunSettles(d, head.value, run);
    }
    if t != [] {
      assert t[0] in h;
      PlainIdsSettleFrom(d, Some(t[0]), t[1..]);
    }
  }

  /** For plain ids, repair delivers an adjacent, fully answered history in one go. */
  lemma RepairIdempotent(d: IdCodec, h: seq<Item>)
    requires PlainIds(d, h)
    ensures Adjacent(d, Repaired(d, h))
    ensures !WouldChange(d, Repaired(d, h)) && Repaired(d, Repaired(d, h)) == Repaired(d, h)
  {
    PlainIdsSettleFrom(d, None, h);
    RepairAnswersEveryCall(d, h);
    SecondReportCleanIff(d, h);
  }

  lemma RepairOneBlock(d: IdCodec, a: Item, run: seq<Item>)
    requires !IsOutput(a) && AllOutputs(run)
    ensures Repaired(d, [a] + run) == [a] + ApplyRun(d, Repair, Some(a), run)
  {
    var h := [a] + run;
    MapOfRun(d, Repair, None, [], h);
    assert [] + h == h && h[0] == a && h[1..] == run + [];
    MapOfRun(d, Repair, Some(a), run, []);
    UnownedRun(d, None, []);
  }

  lemma CodexRunReplaced(d: IdCodec, call: ToolCall, a: Item, x: Item)
    requires CodexOnly(d, call.id) && CallId(d, call) != call.id
    requires a.Assistant? && a.toolCalls == [call]
    requires x.ToolResult? && x.toolCallId == call.id
    ensures ApplyRun(d, Repair, Some(a), [x]) == [ToolResult(call.id, HaltedText(call.name), [], [])]
    ensures CallIds(d, a.toolCalls) == {CallId(d, call)}
    ensures !ReadableOpen(d, a.toolCalls, [x])
  {
    hide HaltedText;
    var ids := CallIds(d, [call]);
    assert call in [call] && ids == {CallId(d, call)};
    RepairedRun(d, a, [x]);
    assert LastOnly([x]) == [x] + LastOnly([]);
    assert WithIds(d, ids, [x]) == [];
    assert AnsweredIds(d, []) == {};
    assert Unanswered(d, [call], {}) == [call] + Unanswered(d, [call][1..], {}) == [call];
    assert call in OpenCalls(d, [call], [x]);
  }

  lemma CodexResultDropped(d: IdCodec, call: ToolCall, a: Item, x: Item)
    requires CodexOnly(d, call.id) && CallId(d, call) != call.id
    requires a.Assistant? && a.toolCalls == [call]
    requires x.ToolResult? && x.toolCallId == call.id
    ensures Dropped(d, AnyEarlier, [a, x]) == [call.id]
  {
    assert [a, x][..1] == [a] && [a][..0] == [];
    assert OpenIds(d, AnyEarlier, [a]) == {CallId(d, call)};
    assert Dropped(d, AnyEarlier, [a]) == [];
    assert !Accepts(d, AnyEarlier, [a], x);
    assert Dropped(d, AnyEarlier, [a, x]) == [] + [OutputId(d, x)];
  }

  /** Every answered Codex-enveloped call loses its answer: the genuine result is replaced by the
      halted notice, validation rejects the genuine history, and the next repair reports a change. */
  lemma CodexResultReplaced(d: IdCodec, call: ToolCall, a: Item, x: Item)
    requires CodexOnly(d, call.id) && CallId(d, call) != call.id
    requires a.Assistant? && a.toolCalls == [call]
    requires x.ToolResult? && x.toolCallId == call.id
    ensures Repaired(d, [a, x]) == [a, ToolResult(call.id, HaltedText(call.name), [], [])]
    ensures Dropped(d, AnyEarlier, [a, x]) == [call.id]
    ensures WouldChange(d, Repaired(d, [a, x]))
  {
    hide HaltedText, WouldChange, Dropped, Repaired, EachRun;
    CodexRunReplaced(d, call, a, x);
    CodexResultDropped(d, call, a, x);
    assert [a, x] == [a] + [x];
    RepairOneBlock(d, a, [x]);
    assert !EachRun(d, Readable, None, [a, x]) by {
      assert [] + [a, x] == [a, x] && [a, x][1..] == [x] + [];
      EachRunOfRun(d, Readable, None, [], [a, x]);
      EachRunOfRun(d, Readable, Some(a), [x], []);
    }
    SecondReportCleanIff(d, [a, x]);
  }

  /** `h[i]` carries the stored id of a call of the assistant its run follows, as results are written. */
  ghost predicate StoredAnswer(d: IdCodec, h: seq<Item>, a: int, i: int) {
    && 0 <= a < i < |h| && h[a].Assistant? && IsOutput(h[i])
    && (forall k :: a < k < i ==> IsOutput(h[k]))
    && exists c :: c in h[a].toolCalls && (if h[i].ToolResult? then h[i].toolCallId == c.id else h[i].callId == CallId(d, c))
  }

  /** Of the histories whose outputs all carry the stored id of their own call, the adjacent ones,
      which the strip pass returns whole, are those in which no result is under a Codex envelope,
      unless its assistant also declares the enveloped string itself. */
  lemma StoredAnswersAdjacentIff(d: IdCodec, h: seq<Item>)
    requires forall i :: 0 <= i < |h| && IsOutput(h[i]) ==> exists a :: StoredAnswer(d, h, a, i)
    ensures Adjacent(d, h) <==> forall a, i :: StoredAnswer(d, h, a, i) ==> Decodable(d, h[a], h[i])
    ensures Kept(d, RunOwner, h) == h <==> Adjacent(d, h)
  {
    hide Decodable;
    forall a, i | StoredAnswer(d, h, a, i)
      ensures (exists b :: AnsweredBy(d, RunOwner, h, b, i)) <==> Decodable(d, h[a], h[i])
    {
      StoredAnswerReadable(d, h, a, i);
      if b :| AnsweredBy(d, RunOwner, h, b, i) {
        assert h[b].Assistant?;
        assert !IsOutput(h[a]) && !IsOutput(h[b]);
        assert a == b;
      }
    }
    PassesFixExactlyPaired(d, RunOwner, h);
  }

  /** The compaction crate reads the result's id as one the assistant declares. */
  predicate Decodable(d: IdCodec, a: Item, x: Item) {
    x.ToolResult? && CodexOnly(d, x.toolCallId) ==> x.toolCallId in DeclaredIds(d, a)
  }

  lemma StoredAnswerReadable(d: IdCodec, h: seq<Item>, a: int, i: int)
    requires StoredAnswer(d, h, a, i)
    ensures AnsweredBy(d, RunOwner, h, a, i) <==> Decodable(d, h[a], h[i])
  {
    var c :| c in h[a].toolCalls && (if h[i].ToolResult? then h[i].toolCallId == c.id else h[i].callId == CallId(d, c));
    assert CallId(d, c) in DeclaredIds(d, h[a]);
  }
}
