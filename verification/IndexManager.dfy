/** The index manager's command loop: file events are drained from the queue and coalesced, every
    other command is handled by itself. The reference handles the queue one command at a time. */
module IndexManager {
  import opened Wrappers
  import opened Coalescing

  /** A query is answered from the index; its answer is represented by the index itself. */
  datatype Command =
    | File(event: FileEvent)
    | FileBatch(events: seq<FileEvent>)
    | Rebuild
    | Refresh(stale: seq<Path>, deleted: seq<Path>)
    | Query
    | Shutdown

  predicate IsFile(c: Command) {
    c.File? || c.FileBatch?
  }

  function CommandEvents(c: Command): seq<FileEvent> {
    match c
    case File(event) => [event]
    case FileBatch(events) => events
    case _ => []
  }

  function QueueChanges(commands: seq<Command>): seq<Change> {
    if commands == [] then []
    else QueueChanges(commands[..|commands| - 1]) + AllChanges(CommandEvents(commands[|commands| - 1]))
  }

  // ----- single commands

  function Dropped(index: Index, paths: seq<Path>): Index {
    if paths == [] then index else Without(Dropped(index, paths[..|paths| - 1]), paths[|paths| - 1])
  }

  function Refreshed(w: World, index: Index, paths: seq<Path>): Index {
    if paths == [] then index
    else
      var before := Refreshed(w, index, paths[..|paths| - 1]);
      var p := paths[|paths| - 1];
      if w.supported(p) then Reindexed(w, before, p) else before
  }

  /** What a command leaves, what it answers, and whether the loop goes on. */
  datatype Effect = Effect(index: Index, answers: seq<Index>, more: bool)

  function Handled(w: World, index: Index, c: Command): Effect
    requires !IsFile(c)
  {
    match c
    case Rebuild => Effect(w.rebuilt, [], true)
    case Refresh(stale, deleted) => Effect(Refreshed(w, Dropped(index, deleted), stale), [], true)
    case Query => Effect(index, [index], true)
    case Shutdown => Effect(index, [], false)
  }

  /** The index after all pending entries. */
  function Merged(w: World, index: Index, events: Pending): (r: Index)
    ensures After(w, index, events, r)
  {
    map p | p in index.Keys + events.Keys && Outcome(w, p, At(index, p), KindOf(events, p)).Some?
      :: Outcome(w, p, At(index, p), KindOf(events, p)).value
  }

  function Coalesced(w: World, index: Index, changes: seq<Change>): Index {
    Merged(w, index, InsertAll(map[], changes))
  }

  // ----- the loop

  /** How many file commands at the head of the queue a drain takes when `visible` commands have
      arrived. */
  function Drained(rx: seq<Command>, visible: nat): (n: nat)
    ensures n <= |rx| && n <= visible
    ensures forall k :: 0 <= k < n ==> IsFile(rx[k])
    ensures n < visible && n < |rx| ==> !IsFile(rx[n])
  {
    if visible == 0 || rx == [] || !IsFile(rx[0]) then 0 else 1 + Drained(rx[1..], visible - 1)
  }

  datatype Processed = Processed(effect: Effect, rx: seq<Command>)

  /** `process_command_coalesced` on a received command. */
  function Process(w: World, index: Index, c: Command, rx: seq<Command>, visible: nat): (r: Processed)
    ensures |r.rx| <= |rx|
  {
    match c
    case File(event) =>
      var n := Drained(rx, visible);
      var flushed := Coalesced(w, index, AllChanges([event]) + QueueChanges(rx[..n]));
      if n < visible && n < |rx| then Processed(Handled(w, flushed, rx[n]), rx[n + 1..])
      else Processed(Effect(flushed, [], true), rx[n..])
    case FileBatch(events) => Processed(Effect(Coalesced(w, index, AllChanges(events)), [], true), rx)
    case _ => Processed(Handled(w, index, c), rx)
  }

  /** The index after the pending entries outside `todo`. */
  ghost predicate PartlyMerged(w: World, start: Index, events: Pending, todo: set<Path>, index: Index) {
    forall p :: At(index, p) == Outcome(w, p, At(start, p), if p in todo then None else KindOf(events, p))
  }

  /** The pending entries outside `todo` that touch the index. */
  ghost function Indexable(w: World, events: Pending, todo: set<Path>): set<Path> {
    set p | p in events && p !in todo && w.shouldIndex(p)
  }

  lemma NothingMerged(w: World, start: Index, events: Pending)
    ensures PartlyMerged(w, start, events, events.Keys, start)
    ensures Indexable(w, events, events.Keys) == {}
  {
  }

  lemma MergeOne(w: World, start: Index, events: Pending, todo: set<Path>, index: Index, p: Path)
    requires p in todo && todo <= events.Keys && PartlyMerged(w, start, events, todo, index)
    ensures PartlyMerged(w, start, events, todo - {p}, Applied(w, index, p, events[p]))
    ensures |Indexable(w, events, todo - {p})| == |Indexable(w, events, todo)| + if w.shouldIndex(p) then 1 else 0
  {
    var next := Applied(w, index, p, events[p]);
    forall q ensures At(next, q) == Outcome(w, q, At(start, q), if q in todo - {p} then None else KindOf(events, q)) {
      AppliedAt(w, index, p, events[p], q);
      assert At(index, q) == Outcome(w, q, At(start, q), if q in todo then None else KindOf(events, q));
    }
    var more := if w.shouldIndex(p) then {p} else {};
    assert Indexable(w, events, todo - {p}) == Indexable(w, events, todo) + more;
  }

  lemma AppliedMeans(w: World, index: Index, p: Path, kind: Kind)
    ensures Applied(w, index, p, kind) ==
            if !w.shouldIndex(p) then index else if kind.Removed? then Without(index, p) else Reindexed(w, index, p)
  {
  }

  lemma AllMerged(w: World, start: Index, events: Pending, index: Index)
    requires PartlyMerged(w, start, events, {}, index)
    ensures index == Merged(w, start, events)
  {
    AfterIsUnique(w, start, events, index, Merged(w, start, events));
  }

  class Manager {
    const w: World
    var index: Index
    var updates: nat
    var rx: seq<Command>

    constructor (w: World, index: Index, rx: seq<Command>)
      ensures this.w == w && this.index == index && this.rx == rx && updates == 0
    {
      this.w, this.index, this.rx, this.updates := w, index, rx, 0;
    }

    /** Applies the pending entries in an arbitrary order. */
    method ApplyCoalesced(coalesced: CoalescedEvents)
      modifies this
      ensures index == Merged(w, old(index), coalesced.events) && rx == old(rx)
      ensures updates == old(updates) + |Indexable(w, coalesced.events, {})|
    {
      hide PartlyMerged, Merged, Indexable, Applied;
      var events := coalesced.events;
      var todo := events.Keys;
      NothingMerged(w, index, events);
      while todo != {}
        invariant todo <= events.Keys && rx == old(rx)
        invariant PartlyMerged(w, old(index), events, todo, index)
        invariant updates == old(updates) + |Indexable(w, events, todo)|
        decreases |todo|
      {
        var p :| p in todo;
        MergeOne(w, old(index), events, todo, index, p);
        AppliedMeans(w, index, p, events[p]);
        todo := todo - {p};
        if w.shouldIndex(p) {
          if events[p].Removed? {
            index := Without(index, p);
          } else {
            index := Reindexed(w, index, p);
          }
          updates := updates + 1;
        }
      }
      AllMerged(w, old(index), events, index);
    }

    method HandleOther(c: Command) returns (answers: seq<Index>, more: bool)
      requires !IsFile(c)
      modifies this
      ensures Effect(index, answers, more) == Handled(w, old(index), c) && rx == old(rx)
    {
      answers, more := [], true;
      match c
      case Rebuild => index := w.rebuilt;
      case Refresh(stale, deleted) =>
        ghost var start := index;
        for i := 0 to |deleted|
          invariant index == Dropped(start, deleted[..i]) && rx == old(rx)
        {
          assert deleted[..i + 1][..i] == deleted[..i];
          index := Without(index, deleted[i]);
        }
        assert deleted[..|deleted|] == deleted;
        ghost var kept := index;
        for i := 0 to |stale|
          invariant index == Refreshed(w, kept, stale[..i]) && rx == old(rx)
        {
          assert stale[..i + 1][..i] == stale[..i];
          if w.supported(stale[i]) {
            index := Reindexed(w, index, stale[i]);
          }
        }
        assert stale[..|stale|] == stale;
      case Query => answers := [index];
      case Shutdown => more := false;
    }

    /** A file event: drain what has arrived, flush, and go on to the command that ended the drain. */
    method DrainAndApply(event: FileEvent, visible: nat) returns (answers: seq<Index>, more: bool)
      modifies this
      ensures Processed(Effect(index, answers, more), rx) == Process(w, old(index), File(event), old(rx), visible)
    {
      hide Merged, Handled, InsertAll, Drained, QueueChanges, AllChanges;
      var coalesced := new CoalescedEvents();
      ghost var all, changes := rx, AllChanges([event]);
      AddAll(coalesced, [event]);
      QueueStarts(all, changes);
      var taken := 0;
      while taken < visible && rx != []
        invariant taken <= visible && taken <= |all| && rx == all[taken..] && index == old(index)
        invariant Drained(all, visible) == taken + Drained(rx, visible - taken)
        invariant coalesced.events == InsertAll(map[], changes + QueueChanges(all[..taken]))
        invariant fresh(coalesced)
        decreases |rx|
      {
        DrainedStep(rx, visible - taken);
        var next := rx[0];
        rx := rx[1..];
        if !IsFile(next) {
          ApplyCoalesced(coalesced);
          answers, more := HandleOther(next);
          return;
        }
        QueueGrows(all, taken, changes);
        AddAll(coalesced, CommandEvents(next));
        taken := taken + 1;
      }
      DrainedEnds(rx, visible - taken);
      ApplyCoalesced(coalesced);
      answers, more := [], true;
    }

    method ProcessCommandCoalesced(c: Command, visible: nat) returns (answers: seq<Index>, more: bool)
      modifies this
      ensures Processed(Effect(index, answers, more), rx) == Process(w, old(index), c, old(rx), visible)
    {
      hide Merged, Handled, InsertAll, Drained, QueueChanges;
      if c.File? {
        answers, more := DrainAndApply(c.event, visible);
      } else if c.FileBatch? {
        var coalesced := new CoalescedEvents();
        AddAll(coalesced, c.events);
        ApplyCoalesced(coalesced);
        answers, more := [], true;
      } else {
        answers, more := HandleOther(c);
      }
    }
  }

  lemma QueueStarts(all: seq<Command>, changes: seq<Change>)
    ensures changes + QueueChanges(all[..0]) == changes
  {
  }

  lemma QueueGrows(all: seq<Command>, taken: nat, changes: seq<Change>)
    requires taken < |all|
    ensures InsertAll(map[], changes + QueueChanges(all[..taken + 1])) ==
            InsertAll(InsertAll(map[], changes + QueueChanges(all[..taken])), AllChanges(CommandEvents(all[taken])))
  {
    hide InsertAll, AllChanges;
    assert all[..taken + 1][..taken] == all[..taken];
    var more := AllChanges(CommandEvents(all[taken]));
    InsertAllConcat(map[], changes + QueueChanges(all[..taken]), more);
    assert changes + QueueChanges(all[..taken + 1]) == changes + QueueChanges(all[..taken]) + more;
  }

  lemma DrainedStep(rx: seq<Command>, visible: nat)
    requires rx != [] && visible > 0
    ensures Drained(rx, visible) == if IsFile(rx[0]) then 1 + Drained(rx[1..], visible - 1) else 0
  {
  }

  lemma DrainedEnds(rx: seq<Command>, visible: nat)
    requires rx == [] || visible == 0
    ensures Drained(rx, visible) == 0
  {
  }

  method AddAll(coalesced: CoalescedEvents, events: seq<FileEvent>)
    modifies coalesced
    ensures coalesced.events == InsertAll(old(coalesced.events), AllChanges(events))
  {
    hide InsertAll, Changes;
    NoInserts(coalesced.events);
    for i := 0 to |events|
      invariant coalesced.events == InsertAll(old(coalesced.events), AllChanges(events[..i]))
    {
      assert events[..i + 1][..i] == events[..i];
      coalesced.Add(events[i]);
      InsertAllConcat(old(coalesced.events), AllChanges(events[..i]), Changes(events[i]));
    }
    assert events[..|events|] == events;
  }

  lemma NoInserts(events: Pending)
    ensures InsertAll(events, []) == events
  {
  }

  // ----- whole queues

  /** Number of commands that have arrived by each time the loop drains. */
  type Schedule = seq<nat>

  function Visible(schedule: Schedule): nat {
    if schedule == [] then 0 else schedule[0]
  }

  function Later(schedule: Schedule): Schedule {
    if schedule == [] then [] else schedule[1..]
  }

  /** `run_loop` over a queue, drained as the schedule allows. */
  function Run(w: World, index: Index, rx: seq<Command>, schedule: Schedule): Effect
    decreases |rx|
  {
    if rx == [] then Effect(index, [], true)
    else
      var p := Process(w, index, rx[0], rx[1..], Visible(schedule));
      if !p.effect.more then p.effect
      else
        var rest := Run(w, p.effect.index, p.rx, Later(schedule));
        rest.(answers := p.effect.answers + rest.answers)
  }

  /** One command, with its file changes applied one by one. */
  function Single(w: World, index: Index, c: Command): Effect {
    if IsFile(c) then Effect(Sequential(w, index, AllChanges(CommandEvents(c))), [], true) else Handled(w, index, c)
  }

  function RunOneByOne(w: World, index: Index, rx: seq<Command>): Effect
    decreases |rx|
  {
    if rx == [] then Effect(index, [], true)
    else
      var e := Single(w, index, rx[0]);
      if !e.more then e
      else
        var rest := RunOneByOne(w, e.index, rx[1..]);
        rest.(answers := e.answers + rest.answers)
  }

  /** How many commands at the head of the queue are merged into one batch. */
  function BatchLen(rx: seq<Command>, schedule: Schedule): (n: nat)
    requires rx != []
    ensures n <= |rx|
  {
    if rx[0].File? then 1 + Drained(rx[1..], Visible(schedule)) else if rx[0].FileBatch? then 1 else 0
  }

  /** No batch of the run cancels the changes of a path that is indexed when the batch starts. */
  predicate NeverStale(w: World, index: Index, rx: seq<Command>, schedule: Schedule)
    decreases |rx|
  {
    rx == [] ||
    var p := Process(w, index, rx[0], rx[1..], Visible(schedule));
    && NothingStale(w, index, QueueChanges(rx[..BatchLen(rx, schedule)]))
    && (p.effect.more ==> NeverStale(w, p.effect.index, p.rx, Later(schedule)))
  }

  lemma {:induction false} SequentialConcat(w: World, index: Index, a: seq<Change>, b: seq<Change>)
    ensures Sequential(w, index, a + b) == Sequential(w, Sequential(w, index, a), b)
    decreases |b|
  {
    hide Applied;
    if b == [] {
      assert a + b == a;
    } else {
      SequentialConcat(w, index, a, b[..|b| - 1]);
      assert (a + b)[..|a + b| - 1] == a + b[..|b| - 1];
    }
  }

  lemma {:induction false} QueueChangesFront(rx: seq<Command>, n: nat)
    requires 0 < n <= |rx|
    ensures QueueChanges(rx[..n]) == AllChanges(CommandEvents(rx[0])) + QueueChanges(rx[1..n])
    decreases n
  {
    hide AllChanges;
    assert rx[..n][..n - 1] == rx[..n - 1];
    if n == 1 {
      assert rx[..0] == [] && rx[1..1] == [];
    } else {
      QueueChangesFront(rx, n - 1);
      assert rx[1..n][..n - 2] == rx[1..n - 1];
    }
  }

  /** The reference goes over a stretch of file commands as over the list of their changes. */
  lemma {:induction false} FilesOneByOne(w: World, index: Index, rx: seq<Command>, n: nat)
    requires n <= |rx| && forall k :: 0 <= k < n ==> IsFile(rx[k])
    ensures RunOneByOne(w, index, rx) == RunOneByOne(w, Sequential(w, index, QueueChanges(rx[..n])), rx[n..])
    decreases n
  {
    hide AllChanges, Handled, Applied;
    if n == 0 {
      assert rx[..0] == [] && rx[0..] == rx;
    } else {
      var first := AllChanges(CommandEvents(rx[0]));
      var e := Single(w, index, rx[0]);
      assert e == Effect(Sequential(w, index, first), [], true);
      QueueChangesFront(rx, n);
      assert rx[1..][..n - 1] == rx[1..n] && rx[1..][n - 1..] == rx[n..];
      SequentialConcat(w, index, first, QueueChanges(rx[1..n]));
      FilesOneByOne(w, e.index, rx[1..], n - 1);
      var rest := RunOneByOne(w, e.index, rx[1..]);
      assert [] + rest.answers == rest.answers;
    }
  }

  lemma BatchIsSequential(w: World, index: Index, rx: seq<Command>, schedule: Schedule)
    requires rx != [] && IsFile(rx[0])
    requires NothingStale(w, index, QueueChanges(rx[..BatchLen(rx, schedule)]))
    ensures var n := BatchLen(rx, schedule);
            var p := Process(w, index, rx[0], rx[1..], Visible(schedule));
            var flushed := Sequential(w, index, QueueChanges(rx[..n]));
            && (forall k :: 0 <= k < n ==> IsFile(rx[k]))
            && (|| (p.effect == Effect(flushed, [], true) && p.rx == rx[n..])
                || (n < |rx| && !IsFile(rx[n]) && p.effect == Handled(w, flushed, rx[n]) && p.rx == rx[n + 1..]))
  {
    hide AllChanges, Handled, Sequential, InsertAll, QueueChanges, Drained, NothingStale, Merged;
    var n := BatchLen(rx, schedule);
    var changes := QueueChanges(rx[..n]);
    QueueChangesFront(rx, n);
    if rx[0].File? {
      assert rx[1..][..n - 1] == rx[1..n] && rx[1..][n - 1..] == rx[n..];
      DrainedAreFiles(rx[1..], Visible(schedule));
      forall k | 0 <= k < n ensures IsFile(rx[k]) {
        if k > 0 { assert rx[1..][k - 1] == rx[k]; }
      }
      if n < |rx| {
        assert rx[1..][n - 1] == rx[n] && rx[1..][n..] == rx[n + 1..];
      }
    } else {
      NoQueueChanges(rx);
      assert AllChanges(CommandEvents(rx[0])) + [] == AllChanges(CommandEvents(rx[0]));
    }
    MergedIsAfter(w, index, InsertAll(map[], changes));
    CoalescedIffNothingStale(w, index, changes, Coalesced(w, index, changes));
  }

  lemma MergedIsAfter(w: World, index: Index, events: Pending)
    ensures After(w, index, events, Merged(w, index, events))
  {
  }

  lemma NoQueueChanges(rx: seq<Command>)
    requires rx != []
    ensures QueueChanges(rx[1..1]) == []
  {
  }

  lemma DrainedAreFiles(rx: seq<Command>, visible: nat)
    ensures var n := Drained(rx, visible);
            && n <= |rx| && n <= visible
            && (forall k :: 0 <= k < n ==> IsFile(rx[k]))
            && (n < visible && n < |rx| ==> !IsFile(rx[n]))
  {
  }

  /** For every queue and every drain timing, every query is answered from the index that handling
      the commands one by one would have, and the final index is the same. */
  lemma {:induction false} RunRefinesOneByOne(w: World, index: Index, rx: seq<Command>, schedule: Schedule)
    requires NeverStale(w, index, rx, schedule)
    ensures Run(w, index, rx, schedule) == RunOneByOne(w, index, rx)
    decreases |rx|
  {
    hide Handled, Sequential, QueueChanges, NothingStale, AllChanges;
    if rx != [] {
      var p := Process(w, index, rx[0], rx[1..], Visible(schedule));
      if p.effect.more {
        RunRefinesOneByOne(w, p.effect.index, p.rx, Later(schedule));
      }
      if IsFile(rx[0]) {
        hide Process, BatchLen;
        BatchIsSequential(w, index, rx, schedule);
        var n := BatchLen(rx, schedule);
        var flushed := Sequential(w, index, QueueChanges(rx[..n]));
        FilesOneByOne(w, index, rx, n);
        if n < |rx| && !IsFile(rx[n]) {
          assert rx[n..][1..] == rx[n + 1..];
        }
        RunUnfolds(w, index, rx, schedule);
      }
    }
  }

  lemma RunUnfolds(w: World, index: Index, rx: seq<Command>, schedule: Schedule)
    requires rx != []
    ensures var p := Process(w, index, rx[0], rx[1..], Visible(schedule));
            Run(w, index, rx, schedule) ==
              if !p.effect.more then p.effect
              else
                var rest := Run(w, p.effect.index, p.rx, Later(schedule));
                rest.(answers := p.effect.answers + rest.answers)
  {
  }
}
