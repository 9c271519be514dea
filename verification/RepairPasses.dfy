/** The loops of `dedup_duplicate_tool_results`, `repair_dangling_tool_calls` and `repair_history`,
    proved against the run-by-run meaning in `Repair`. */
module RepairPasses {
  import opened Wrappers
  import opened Conversation
  import opened ToolPairing
  import opened Repair

  // ----- scanning past items

  lemma UnownedUntouched(d: IdCodec, p: Pass, head: Option<Item>, run: seq<Item>)
    requires p == Dedup || p == Dangle
    requires AllOutputs(run) && !IsOwner(head)
    ensures ApplyRun(d, p, head, run) == run
  {
  }

  /** At an owner, the scan handles the whole run at once. */
  lemma StepRun(d: IdCodec, p: Pass, a: Item, run: seq<Item>, t: seq<Item>)
    requires p == Dedup || p == Dangle
    requires !IsOutput(a) && AllOutputs(run) && (t != [] ==> !IsOutput(t[0]))
    ensures Map(d, p, None, [a] + run + t) == [a] + ApplyRun(d, p, Some(a), run) + Map(d, p, None, t)
  {
    hide Map, ApplyRun, MapTail;
    var h := [a] + run + t;
    assert [] + h == h && h[1..] == run + t && [] + t == t;
    UnownedUntouched(d, p, None, []);
    MapOfRun(d, p, None, [], h);
    MapOfRun(d, p, Some(a), run, t);
    MapOfRun(d, p, None, [], t);
    var r, m := ApplyRun(d, p, Some(a), run), MapTail(d, p, t);
    assert MapTail(d, p, h) == [a] + (r + m);
    assert [a] + (r + m) == [a] + r + m;
  }

  lemma StepOverOutput(d: IdCodec, p: Pass, x: Item, run: seq<Item>, t: seq<Item>)
    requires p == Dedup || p == Dangle
    requires IsOutput(x) && AllOutputs(run) && (t != [] ==> !IsOutput(t[0]))
    ensures Map(d, p, None, [x] + run + t) == [x] + Map(d, p, None, run + t)
  {
    hide Map, ApplyRun, MapTail;
    MapOfRun(d, p, None, run, t);
    MapOfRun(d, p, None, [x] + run, t);
    UnownedUntouched(d, p, None, run);
    UnownedUntouched(d, p, None, [x] + run);
    assert [x] + run + MapTail(d, p, t) == [x] + (run + MapTail(d, p, t));
  }

  lemma StepOverOther(d: IdCodec, p: Pass, x: Item, run: seq<Item>, t: seq<Item>)
    requires p == Dedup || p == Dangle
    requires !IsOutput(x) && !IsOwner(Some(x)) && AllOutputs(run) && (t != [] ==> !IsOutput(t[0]))
    ensures Map(d, p, None, [x] + run + t) == [x] + Map(d, p, None, run + t)
  {
    hide Map, ApplyRun, MapTail;
    StepRun(d, p, x, run, t);
    UnownedUntouched(d, p, Some(x), run);
    UnownedUntouched(d, p, None, run);
    UnownedUntouched(d, p, None, []);
    MapOfRun(d, p, None, run, t);
    MapOfRun(d, p, None, [], t);
    assert [] + t == t;
    assert [x] + run + MapTail(d, p, t) == [x] + (run + MapTail(d, p, t));
  }

  /** Dedup and Dangle do nothing at an item that owns no calls, so a scan may step over it. */
  lemma StepOver(d: IdCodec, p: Pass, h: seq<Item>)
    requires p == Dedup || p == Dangle
    requires h != [] && !IsOwner(Some(h[0]))
    ensures Map(d, p, None, h) == [h[0]] + Map(d, p, None, h[1..])
  {
    hide Map, RunLength, Tail;
    var x, run, t := h[0], h[1..][..RunLength(h[1..])], Tail(h[1..]);
    assert h[1..] == run + t;
    assert h == [x] + run + t;
    if IsOutput(x) {
      StepOverOutput(d, p, x, run, t);
    } else {
      StepOverOther(d, p, x, run, t);
    }
  }

  /** End of the run of outputs that starts at `start`. */
  method RunEnd(h: seq<Item>, start: nat) returns (end: nat)
    requires start <= |h|
    ensures start <= end <= |h| && AllOutputs(h[start..end])
    ensures end < |h| ==> !IsOutput(h[end])
  {
    end := start;
    while end < |h| && IsOutput(h[end])
      invariant start <= end <= |h|
      invariant AllOutputs(h[start..end])
    {
      end := end + 1;
    }
  }

  // ----- dedup_duplicate_tool_results

  /** The first of two results with one id, both before `upto`. */
  ghost predicate Superseded(h: seq<Item>, start: nat, upto: nat, i: nat)
    requires upto <= |h|
  {
    start <= i < upto && h[i].ToolResult? &&
    exists j :: i < j < upto && h[j].ToolResult? && h[j].toolCallId == h[i].toolCallId
  }

  method MarkSuperseded(h: seq<Item>, start: nat, end: nat) returns (marked: set<nat>)
    requires start <= end <= |h|
    ensures forall i: nat :: i in marked <==> Superseded(h, start, end, i)
  {
    var seen: map<string, nat> := map[];
    marked := {};
    for k := start to end
      invariant forall id :: id in seen <==> exists i :: start <= i < k && h[i].ToolResult? && h[i].toolCallId == id
      invariant forall id :: id in seen ==>
                  && start <= seen[id] < k && h[seen[id]].ToolResult? && h[seen[id]].toolCallId == id
                  && forall i :: seen[id] < i < k && h[i].ToolResult? ==> h[i].toolCallId != id
      invariant forall i: nat :: i in marked <==> Superseded(h, start, k, i)
    {
      if h[k].ToolResult? {
        var id := h[k].toolCallId;
        ghost var before := marked;
        if id in seen {
          marked := marked + {seen[id]};
        }
        forall i: nat ensures i in marked <==> Superseded(h, start, k + 1, i) {
          if Superseded(h, start, k + 1, i) && !Superseded(h, start, k, i) {
            assert h[i].toolCallId == id && i < k;
            assert id in seen && seen[id] == i;
          }
        }
        seen := seen[id := k];
      }
    }
  }

  lemma MarkedIsRepeated(h: seq<Item>, start: nat, end: nat, k: nat)
    requires start <= k < end <= |h|
    ensures Superseded(h, start, end, k) <==> RepeatedIn(h[k + 1..end], h[k])
  {
    var later := h[k + 1..end];
    if Superseded(h, start, end, k) {
      var j :| k < j < end && h[j].ToolResult? && h[j].toolCallId == h[k].toolCallId;
      assert h[j] == later[j - k - 1];
    }
    if RepeatedIn(later, h[k]) {
      var y :| y in later && y.ToolResult? && y.toolCallId == h[k].toolCallId;
      var j :| 0 <= j < |later| && later[j] == y;
      assert h[k + 1 + j] == y;
    }
  }

  method RemoveMarked(h: seq<Item>, start: nat, end: nat, marked: set<nat>) returns (r: seq<Item>)
    requires start <= end <= |h|
    requires forall i: nat :: i in marked <==> Superseded(h, start, end, i)
    ensures r == h[..start] + LastOnly(h[start..end]) + h[end..]
  {
    var kept, k := [], end;
    while k > start
      invariant start <= k <= end
      invariant kept == LastOnly(h[k..end])
    {
      k := k - 1;
      MarkedIsRepeated(h, start, end, k);
      assert h[k..end][1..] == h[k + 1..end];
      if k !in marked {
        kept := [h[k]] + kept;
      }
    }
    r := h[..start] + kept + h[end..];
  }

  /** One turn of the scan at an owner: either some results are superseded and go, or none is. */
  method DedupRun(h: seq<Item>, start: nat, end: nat) returns (next: seq<Item>, any: bool)
    requires start <= end <= |h|
    ensures next == h[..start] + LastOnly(h[start..end]) + h[end..]
    ensures any <==> |next| < |h|
    ensures !any ==> next == h
  {
    var marked := MarkSuperseded(h, start, end);
    any := marked != {};
    next := RemoveMarked(h, start, end, marked);
    if any {
      SupersededShrinks(h, start, end, marked);
    } else {
      NoneSuperseded(h, start, end, marked);
      assert h == h[..start] + h[start..end] + h[end..];
    }
  }

  /** What a scan that has reached position `i` of `items` will return. */
  ghost function Pending(d: IdCodec, p: Pass, items: seq<Item>, i: nat): seq<Item>
    requires i <= |items|
  {
    items[..i] + Map(d, p, None, items[i..])
  }

  lemma PendingEnds(d: IdCodec, p: Pass, items: seq<Item>)
    requires p == Dedup || p == Dangle
    ensures Pending(d, p, items, 0) == Map(d, p, None, items)
    ensures Pending(d, p, items, |items|) == items
  {
    assert items[..0] == [] && items[0..] == items && items[..|items|] == items && items[|items|..] == [];
  }

  lemma PendingOver(d: IdCodec, p: Pass, items: seq<Item>, i: nat)
    requires p == Dedup || p == Dangle
    requires i < |items| && !IsOwner(Some(items[i]))
    ensures Pending(d, p, items, i + 1) == Pending(d, p, items, i)
  {
    hide Map;
    StepOver(d, p, items[i..]);
    assert items[..i + 1] == items[..i] + [items[i]] && items[i..][1..] == items[i + 1..];
  }

  lemma PendingDedup(d: IdCodec, items: seq<Item>, i: nat, end: nat, next: seq<Item>)
    requires i < end <= |items| && IsOwner(Some(items[i])) && AllOutputs(items[i + 1..end])
    requires end < |items| ==> !IsOutput(items[end])
    requires next == items[..i + 1] + LastOnly(items[i + 1..end]) + items[end..]
    ensures Pending(d, Dedup, next, i) == Pending(d, Dedup, items, i)
    ensures next == items ==> Pending(d, Dedup, items, end) == Pending(d, Dedup, items, i)
  {
    hide Map, LastOnly;
    var p, a, run, t := items[..i], items[i], items[i + 1..end], items[end..];
    DedupStep(d, p, a, run, t);
    assert items[i..] == [a] + run + t;
    assert next[..i] == p && next[i..] == [a] + LastOnly(run) + t;
    if next == items {
      assert |LastOnly(run)| == |run| && next[i + 1..end] == LastOnly(run);
      assert items[..end] == p + [a] + run;
    }
  }

  method DedupDuplicateToolResults(d: IdCodec, conversation: seq<Item>) returns (items: seq<Item>, removed: nat)
    ensures items == Map(d, Dedup, None, conversation)
    ensures removed + |items| == |conversation|
  {
    hide Map, LastOnly, Pending;
    items, removed := conversation, 0;
    var i := 0;
    PendingEnds(d, Dedup, items);
    while i < |items|
      invariant i <= |items|
      invariant Pending(d, Dedup, items, i) == Map(d, Dedup, None, conversation)
      invariant removed + |items| == |conversation|
      decreases |items| - i
    {
      if items[i].Assistant? && items[i].toolCalls != [] {
        var end := RunEnd(items, i + 1);
        var next, any := DedupRun(items, i + 1, end);
        PendingDedup(d, items, i, end, next);
        if any {
          removed := removed + (|items| - |next|);
          items := next;
        } else {
          i := end;
        }
      } else {
        PendingOver(d, Dedup, items, i);
        i := i + 1;
      }
    }
    PendingEnds(d, Dedup, items);
  }

  lemma DedupStep(d: IdCodec, p: seq<Item>, a: Item, run: seq<Item>, t: seq<Item>)
    requires IsOwner(Some(a)) && AllOutputs(run) && (t != [] ==> !IsOutput(t[0]))
    ensures Map(d, Dedup, None, [a] + run + t) == Map(d, Dedup, None, [a] + LastOnly(run) + t)
    ensures p + Map(d, Dedup, None, [a] + run + t) == p + [a] + LastOnly(run) + Map(d, Dedup, None, t)
  {
    hide Map;
    LastOnlyKeeps(run);
    LastOnlyFixed(run);
    LastOnlyFixed(LastOnly(run));
    StepRun(d, Dedup, a, run, t);
    StepRun(d, Dedup, a, LastOnly(run), t);
  }

  lemma SupersededShrinks(h: seq<Item>, start: nat, end: nat, marked: set<nat>)
    requires start <= end <= |h| && marked != {}
    requires forall i: nat :: i in marked <==> Superseded(h, start, end, i)
    ensures |LastOnly(h[start..end])| < end - start
  {
    hide LastOnly;
    var run := h[start..end];
    LastOnlyKeeps(run);
    LastOnlyFixed(run);
    var i :| i in marked;
    var j :| i < j < end && h[j].ToolResult? && h[j].toolCallId == h[i].toolCallId;
    assert run[i - start] == h[i] && run[j - start] == h[j];
    assert !NoRepeats(run);
  }

  lemma NoneSuperseded(h: seq<Item>, start: nat, end: nat, marked: set<nat>)
    requires start <= end <= |h| && marked == {}
    requires forall i: nat :: i in marked <==> Superseded(h, start, end, i)
    ensures LastOnly(h[start..end]) == h[start..end]
  {
    var run := h[start..end];
    forall i, j | 0 <= i < j < |run| && run[i].ToolResult? && run[j].ToolResult?
      ensures run[i].toolCallId != run[j].toolCallId
    {
      assert !Superseded(h, start, end, start + i);
      assert run[i] == h[start + i] && run[j] == h[start + j];
    }
    LastOnlyFixed(run);
  }

  // ----- repair_dangling_tool_calls

  datatype Splice = Splice(at: nat, items: seq<Item>)

  /** Phase two: insert from the back, so earlier positions stay valid. */
  function Spliced(h: seq<Item>, repairs: seq<Splice>): seq<Item>
    requires forall r :: r in repairs ==> r.at <= |h|
    decreases |repairs|
  {
    if repairs == [] then h
    else
      var r := repairs[|repairs| - 1];
      Spliced(h[..r.at] + r.items + h[r.at..], repairs[..|repairs| - 1])
  }

  /** Items after every insertion point are not moved by the insertions. */
  lemma {:induction false} SplicedFrame(h: seq<Item>, t: seq<Item>, repairs: seq<Splice>)
    requires forall r :: r in repairs ==> r.at <= |h|
    ensures Spliced(h + t, repairs) == Spliced(h, repairs) + t
    decreases |repairs|
  {
    if repairs != [] {
      var r := repairs[|repairs| - 1];
      assert (h + t)[..r.at] + r.items + (h + t)[r.at..] == (h[..r.at] + r.items + h[r.at..]) + t;
      SplicedFrame(h[..r.at] + r.items + h[r.at..], t, repairs[..|repairs| - 1]);
    }
  }

  /** A repair at the end of what has been scanned appends its items there. */
  lemma SplicedSnoc(h: seq<Item>, repairs: seq<Splice>, ys: seq<Item>)
    requires forall r :: r in repairs ==> r.at <= |h|
    ensures Spliced(h, repairs + [Splice(|h|, ys)]) == Spliced(h, repairs) + ys
  {
    var all := repairs + [Splice(|h|, ys)];
    assert all[..|all| - 1] == repairs;
    assert h[..|h|] + ys + h[|h|..] == h + ys;
    SplicedFrame(h, ys, repairs);
  }

  /** What the whole pass will return once phase two has run, for a scan at position `i`. */
  ghost predicate Recorded(d: IdCodec, h: seq<Item>, i: nat, repairs: seq<Splice>)
    requires i <= |h|
  {
    (forall r :: r in repairs ==> r.at <= i) &&
    Spliced(h[..i], repairs) + Map(d, Dangle, None, h[i..]) == Map(d, Dangle, None, h)
  }

  lemma RecordedOver(d: IdCodec, h: seq<Item>, i: nat, repairs: seq<Splice>)
    requires i < |h| && !IsOwner(Some(h[i])) && Recorded(d, h, i, repairs)
    ensures Recorded(d, h, i + 1, repairs)
  {
    hide Map;
    StepOver(d, Dangle, h[i..]);
    SplicedFrame(h[..i], [h[i]], repairs);
    assert h[..i + 1] == h[..i] + [h[i]] && h[i..][1..] == h[i + 1..];
  }

  lemma DangleRun(d: IdCodec, a: Item, run: seq<Item>)
    requires IsOwner(Some(a)) && AllOutputs(run)
    ensures ApplyRun(d, Dangle, Some(a), run) == run + Synthetic(d, Unanswered(d, a.toolCalls, AnsweredIds(d, run)))
  {
  }

  lemma RecordedRun(d: IdCodec, h: seq<Item>, i: nat, end: nat, repairs: seq<Splice>, ys: seq<Item>, next: seq<Splice>)
    requires i < end <= |h| && IsOwner(Some(h[i])) && AllOutputs(h[i + 1..end]) && Recorded(d, h, i, repairs)
    requires end < |h| ==> !IsOutput(h[end])
    requires ys == Synthetic(d, Unanswered(d, h[i].toolCalls, AnsweredIds(d, h[i + 1..end])))
    requires next == if ys == [] then repairs else repairs + [Splice(end, ys)]
    ensures Recorded(d, h, end, next)
  {
    hide Map, Synthetic, Unanswered, Spliced, ApplyRun, AnsweredIds;
    var a, run, t := h[i], h[i + 1..end], h[end..];
    assert h[i..] == [a] + run + t && h[..end] == h[..i] + ([a] + run);
    StepRun(d, Dangle, a, run, t);
    DangleRun(d, a, run);
    SplicedFrame(h[..i], [a] + run, repairs);
    SplicedSnoc(h[..end], repairs, ys);
    var s, m := Spliced(h[..i], repairs), Map(d, Dangle, None, t);
    assert Spliced(h[..end], next) == s + ([a] + run) + ys;
    RunAppended(s, a, run, ys, m);
  }

  lemma RunAppended(s: seq<Item>, a: Item, run: seq<Item>, ys: seq<Item>, m: seq<Item>)
    ensures s + ([a] + run) + ys + m == s + ([a] + (run + ys) + m)
  {
  }

  method AnsweredInRun(d: IdCodec, h: seq<Item>, start: nat) returns (end: nat, answered: set<string>)
    requires start <= |h|
    ensures start <= end <= |h| && AllOutputs(h[start..end])
    ensures end < |h| ==> !IsOutput(h[end])
    ensures answered == AnsweredIds(d, h[start..end])
  {
    end, answered := start, {};
    while end < |h| && IsOutput(h[end])
      invariant start <= end <= |h|
      invariant AllOutputs(h[start..end])
      invariant answered == AnsweredIds(d, h[start..end])
    {
      assert h[start..end + 1] == h[start..end] + [h[end]];
      answered := answered + {SamplingOutputId(d, h[end])};
      end := end + 1;
    }
  }

  lemma RecordedEnds(d: IdCodec, h: seq<Item>, repairs: seq<Splice>)
    ensures Recorded(d, h, 0, [])
    ensures Recorded(d, h, |h|, repairs) ==>
              (forall r :: r in repairs ==> r.at <= |h|) && Spliced(h, repairs) == Map(d, Dangle, None, h)
  {
    assert h[..0] == [] && h[0..] == h && h[..|h|] == h && h[|h|..] == [];
  }

  method InsertRepairs(h: seq<Item>, repairs: seq<Splice>) returns (items: seq<Item>, inserted: nat)
    requires forall r :: r in repairs ==> r.at <= |h|
    ensures items == Spliced(h, repairs) && |items| == |h| + inserted
  {
    items, inserted := h, 0;
    var k := |repairs|;
    assert repairs[..k] == repairs;
    while k > 0
      invariant 0 <= k <= |repairs|
      invariant forall r :: r in repairs ==> r.at <= |items|
      invariant Spliced(items, repairs[..k]) == Spliced(h, repairs)
      invariant |items| == |h| + inserted
    {
      k := k - 1;
      var r := repairs[k];
      assert repairs[..k + 1][..k] == repairs[..k] && repairs[..k + 1][k] == r;
      items, inserted := items[..r.at] + r.items + items[r.at..], inserted + |r.items|;
    }
  }

  method RepairDanglingToolCalls(d: IdCodec, conversation: seq<Item>) returns (items: seq<Item>, inserted: nat)
    ensures items == Map(d, Dangle, None, conversation)
    ensures |items| == |conversation| + inserted
  {
    hide Map, Spliced, Recorded, Synthetic, Unanswered, AnsweredIds;
    var repairs: seq<Splice>, i := [], 0;
    RecordedEnds(d, conversation, []);
    while i < |conversation|
      invariant i <= |conversation|
      invariant Recorded(d, conversation, i, repairs)
    {
      var a := conversation[i];
      if a.Assistant? && a.toolCalls != [] {
        var end, answered := AnsweredInRun(d, conversation, i + 1);
        var ys := Synthetic(d, Unanswered(d, a.toolCalls, answered));
        var next := if ys == [] then repairs else repairs + [Splice(end, ys)];
        RecordedRun(d, conversation, i, end, repairs, ys, next);
        repairs, i := next, end;
      } else {
        RecordedOver(d, conversation, i, repairs);
        i := i + 1;
      }
    }
    RecordedEnds(d, conversation, repairs);
    items, inserted := InsertRepairs(conversation, repairs);
  }

  // ----- repair_history

  datatype Report = Report(duplicatesRemoved: nat, stripped: seq<string>, inserted: nat) {
    predicate Changed() {
      duplicatesRemoved > 0 || stripped != [] || inserted > 0
    }
  }

  method RepairHistory(d: IdCodec, history: seq<Item>) returns (items: seq<Item>, report: Report)
    ensures items == Repaired(d, history)
    ensures report.Changed() <==> WouldChange(d, history)
  {
    var one, removed := DedupDuplicateToolResults(d, history);
    var two, stripped := StripDisplacedToolResults(d, one);
    var three, inserted := RepairDanglingToolCalls(d, two);
    items, report := three, Report(removed, stripped, inserted);
    StripIsKept(d, one);
    PassesFixExactlyPaired(d, RunOwner, one);
    RepairIsThreePasses(d, None, history);
    LengthFixes(d, Dedup, None, history);
    LengthFixes(d, Dangle, None, two);
  }

  /** Dedup only removes and Dangle only adds, so an unchanged length means an unchanged history. */
  lemma {:induction false} LengthFixes(d: IdCodec, p: Pass, head: Option<Item>, h: seq<Item>)
    requires p == Dedup || p == Dangle
    ensures if p == Dedup then |Map(d, p, head, h)| <= |h| else |h| <= |Map(d, p, head, h)|
    ensures |Map(d, p, head, h)| == |h| ==> Map(d, p, head, h) == h
    decreases |h|
  {
    hide Map, ApplyRun;
    var run, t := h[..RunLength(h)], Tail(h);
    var r, m := ApplyRun(d, p, head, run), MapTail(d, p, t);
    MapOfRun(d, p, head, run, t);
    RunLengthFixes(d, p, head, run);
    if t != [] {
      LengthFixes(d, p, Some(t[0]), t[1..]);
      assert m == [t[0]] + m[1..] && t == [t[0]] + t[1..];
    }
    if |r + m| == |h| {
      assert r == run && m == t;
    }
  }

  lemma RunLengthFixes(d: IdCodec, p: Pass, head: Option<Item>, run: seq<Item>)
    requires p == Dedup || p == Dangle
    requires AllOutputs(run)
    ensures var r := ApplyRun(d, p, head, run);
            (if p == Dedup then |r| <= |run| else |run| <= |r|) && (|r| == |run| ==> r == run)
  {
    LastOnlyKeeps(run);
  }
}
