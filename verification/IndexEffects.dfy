/** What each command does to the entry of each path, however its file events are applied. */
module IndexEffects {
  import opened Wrappers
  import opened Coalescing
  import opened IndexManager

  // ----- file events

  lemma LastKindSnoc(changes: seq<Change>, c: Change, p: Path)
    ensures LastKind(changes + [c], p) == if c.path == p then Some(c.kind) else LastKind(changes, p)
  {
    assert (changes + [c])[..|changes|] == changes;
  }

  lemma {:induction false} EachLast(paths: seq<Path>, kind: Kind, p: Path)
    ensures LastKind(Each(paths, kind), p) == if p in paths then Some(kind) else None
  {
    hide LastKind;
    if paths == [] {
      NoLastKind(p);
    } else {
      var n := |paths| - 1;
      EachLast(paths[..n], kind, p);
      assert paths == paths[..n] + [paths[n]];
      LastKindSnoc(Each(paths[..n], kind), Change(paths[n], kind), p);
    }
  }

  lemma NoLastKind(p: Path)
    ensures LastKind([], p) == None
  {
  }

  lemma RenameLast(a: Path, b: Path, p: Path)
    ensures LastKind([Change(a, Removed), Change(b, Created)], p) ==
            if p == b then Some(Created) else if p == a then Some(Removed) else None
  {
    hide LastKind;
    NoLastKind(p);
    LastKindSnoc([], Change(a, Removed), p);
    LastKindSnoc([Change(a, Removed)], Change(b, Created), p);
    assert [] + [Change(a, Removed)] == [Change(a, Removed)];
    assert [Change(a, Removed)] + [Change(b, Created)] == [Change(a, Removed), Change(b, Created)];
  }

  lemma InsertAllSnoc(events: Pending, changes: seq<Change>, c: Change)
    ensures InsertAll(events, changes + [c]) == Inserted(InsertAll(events, changes), c.path, c.kind)
  {
    assert (changes + [c])[..|changes|] == changes;
  }

  lemma {:induction false} EachPending(paths: seq<Path>, kind: Kind)
    ensures forall p :: p in InsertAll(map[], Each(paths, kind)) <==> p in paths
    ensures forall p :: p in paths ==> InsertAll(map[], Each(paths, kind))[p] == kind
  {
    if paths != [] {
      var n := |paths| - 1;
      EachPending(paths[..n], kind);
      assert paths == paths[..n] + [paths[n]];
      InsertAllSnoc(map[], Each(paths[..n], kind), Change(paths[n], kind));
    }
  }

  /** One event never cancels itself, so coalescing it alone is applying it. */
  lemma OneEventCancelsNothing(w: World, index: Index, e: FileEvent)
    ensures NothingStale(w, index, Changes(e))
    ensures Coalesced(w, index, Changes(e)) == Sequential(w, index, Changes(e))
  {
    hide Sequential, Merged, LastKind;
    forall p ensures !Cancelled(Changes(e), p) {
      if e.kind.Renamed? && |e.paths| >= 2 {
        var a, b := Change(e.paths[0], Removed), Change(e.paths[1], Created);
        RenameLast(a.path, b.path, p);
        InsertAllSnoc(map[], [], a);
        InsertAllSnoc(map[], [a], b);
        assert [] + [a] == [a] && [a] + [b] == [a, b];
      } else {
        EachLast(e.paths, e.kind, p);
        EachPending(e.paths, e.kind);
      }
    }
    MergedIsAfter(w, index, InsertAll(map[], Changes(e)));
    CoalescedIffNothingStale(w, index, Changes(e), Coalesced(w, index, Changes(e)));
  }

  /** A rename takes the entry of the first path away and reads the second from the disk; every other
      path is as before. */
  lemma RenameMeans(w: World, index: Index, e: FileEvent, p: Path)
    requires e.kind.Renamed? && |e.paths| >= 2
    ensures Coalesced(w, index, Changes(e)) == Sequential(w, index, Changes(e))
    ensures var g := Sequential(w, index, Changes(e));
            At(g, p) ==
              if !w.shouldIndex(p) then At(index, p)
              else if p == e.paths[1] then w.disk(p)
              else if p == e.paths[0] then None
              else At(index, p)
  {
    hide Sequential, Coalesced, LastKind;
    OneEventCancelsNothing(w, index, e);
    SequentialAt(w, index, Changes(e), p);
    RenameLast(e.paths[0], e.paths[1], p);
  }

  /** Any other event removes its paths, or reads them from the disk, and leaves every other path. */
  lemma EventMeans(w: World, index: Index, e: FileEvent, p: Path)
    requires !(e.kind.Renamed? && |e.paths| >= 2)
    ensures Coalesced(w, index, Changes(e)) == Sequential(w, index, Changes(e))
    ensures var g := Sequential(w, index, Changes(e));
            At(g, p) ==
              if !w.shouldIndex(p) || p !in e.paths then At(index, p)
              else if e.kind.Removed? then None
              else w.disk(p)
  {
    hide Sequential, Coalesced, LastKind;
    OneEventCancelsNothing(w, index, e);
    SequentialAt(w, index, Changes(e), p);
    EachLast(e.paths, e.kind, p);
  }

  // ----- the other commands

  lemma {:induction false} DroppedAt(index: Index, paths: seq<Path>, p: Path)
    ensures At(Dropped(index, paths), p) == if p in paths then None else At(index, p)
  {
    if paths != [] {
      DroppedAt(index, paths[..|paths| - 1], p);
      assert paths == paths[..|paths| - 1] + [paths[|paths| - 1]];
    }
  }

  lemma {:induction false} RefreshedAt(w: World, index: Index, paths: seq<Path>, p: Path)
    ensures At(Refreshed(w, index, paths), p) == if p in paths && w.supported(p) then w.disk(p) else At(index, p)
  {
    if paths != [] {
      RefreshedAt(w, index, paths[..|paths| - 1], p);
      assert paths == paths[..|paths| - 1] + [paths[|paths| - 1]];
    }
  }

  /** A background refresh reads the stale paths of supported languages from the disk, drops the
      deleted ones, and leaves the rest; it answers nothing and the loop goes on. */
  lemma RefreshMeans(w: World, index: Index, stale: seq<Path>, deleted: seq<Path>, p: Path)
    ensures var e := Handled(w, index, Refresh(stale, deleted));
            && e.answers == [] && e.more
            && At(e.index, p) ==
                 if p in stale && w.supported(p) then w.disk(p)
                 else if p in deleted then None
                 else At(index, p)
  {
    hide Dropped, Refreshed;
    DroppedAt(index, deleted, p);
    RefreshedAt(w, Dropped(index, deleted), stale, p);
  }

  /** A drain ends before a final command that is no file event. */
  lemma DrainEnds(rx: seq<Command>, visible: nat)
    requires rx != [] && !IsFile(rx[|rx| - 1])
    ensures Drained(rx, visible) < |rx|
  {
  }

  /** What the final command of a queue leaves behind: a rebuild the rebuilt index, a query an answer
      from the index as it is. */
  predicate Settles(w: World, c: Command, e: Effect) {
    && (c.Rebuild? ==> e.index == w.rebuilt)
    && (c.Query? ==> e.answers == [e.index])
  }

  lemma HandledSettles(w: World, index: Index, c: Command)
    requires !IsFile(c)
    ensures Settles(w, c, Handled(w, index, c))
  {
    hide Refreshed, Dropped;
  }

  /** Some end of the queue is left, with the final command on it unless that was handled. */
  predicate LeavesEnd(w: World, rx: seq<Command>, p: Processed) {
    && |p.rx| < |rx| && p.rx == rx[|rx| - |p.rx|..]
    && (p.rx == [] ==> Settles(w, rx[|rx| - 1], p.effect))
  }

  lemma ProcessTakesFront(w: World, index: Index, rx: seq<Command>, visible: nat)
    requires rx != [] && !IsFile(rx[|rx| - 1])
    ensures LeavesEnd(w, rx, Process(w, index, rx[0], rx[1..], visible))
  {
    hide Drained, Handled, Coalesced, AllChanges, QueueChanges, LeavesEnd, Settles;
    var t := rx[1..];
    match rx[0] {
      case File(event) =>
        var n := Drained(t, visible);
        DrainEnds(t, visible);
        assert t[n + 1..] == rx[n + 2..] && t[n..] == rx[n + 1..];
        var flushed := Coalesced(w, index, AllChanges([event]) + QueueChanges(t[..n]));
        if n < visible {
          HandledSettles(w, flushed, t[n]);
          EndLeft(w, rx, n + 2, Handled(w, flushed, t[n]));
        } else {
          EndLeft(w, rx, n + 1, Effect(flushed, [], true));
        }
      case FileBatch(events) =>
        EndLeft(w, rx, 1, Effect(Coalesced(w, index, AllChanges(events)), [], true));
      case _ =>
        HandledSettles(w, index, rx[0]);
        EndLeft(w, rx, 1, Handled(w, index, rx[0]));
    }
  }

  lemma EndLeft(w: World, rx: seq<Command>, k: nat, e: Effect)
    requires 0 < k <= |rx| && (k == |rx| ==> Settles(w, rx[|rx| - 1], e))
    ensures LeavesEnd(w, rx, Processed(e, rx[k..]))
  {
    hide Settles;
  }

  lemma StepGoesOn(w: World, index: Index, rx: seq<Command>, visible: nat)
    requires rx != [] && forall c :: c in rx ==> !c.Shutdown?
    ensures Process(w, index, rx[0], rx[1..], visible).effect.more
  {
    hide Coalesced, Refreshed, Dropped, AllChanges, QueueChanges;
  }

  /** A rebuild heals: whatever the batches before it left, stale entries included, and however the
      queue was drained, the loop goes on from the rebuilt index. */
  lemma {:induction false} RebuildHeals(w: World, index: Index, rx: seq<Command>, schedule: Schedule)
    requires rx != [] && rx[|rx| - 1].Rebuild? && forall c :: c in rx ==> !c.Shutdown?
    ensures var e := Run(w, index, rx, schedule); e.index == w.rebuilt && e.more
    decreases |rx|
  {
    hide Process;
    ProcessTakesFront(w, index, rx, Visible(schedule));
    StepGoesOn(w, index, rx, Visible(schedule));
    var p := Process(w, index, rx[0], rx[1..], Visible(schedule));
    if p.rx != [] {
      assert p.rx[|p.rx| - 1] == rx[|rx| - 1];
      RebuildHeals(w, p.effect.index, p.rx, Later(schedule));
    }
  }

  /** A query is answered from the index that everything queued before it has left, however the queue
      was drained. */
  lemma {:induction false} QuerySeesQueue(w: World, index: Index, rx: seq<Command>, schedule: Schedule)
    requires rx != [] && rx[|rx| - 1].Query? && forall c :: c in rx ==> !c.Shutdown?
    ensures var e := Run(w, index, rx, schedule); e.answers != [] && e.answers[|e.answers| - 1] == e.index && e.more
    decreases |rx|
  {
    hide Process;
    ProcessTakesFront(w, index, rx, Visible(schedule));
    StepGoesOn(w, index, rx, Visible(schedule));
    var p := Process(w, index, rx[0], rx[1..], Visible(schedule));
    if p.rx != [] {
      assert p.rx[|p.rx| - 1] == rx[|rx| - 1];
      QuerySeesQueue(w, p.effect.index, p.rx, Later(schedule));
    }
  }
}
