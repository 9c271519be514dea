/** Event coalescing in the index manager: file events are merged per path before they touch the
    index. The reference applies every change by itself, in order. The disk does not change. */
module Coalescing {
  import opened Wrappers

  /** A path, by its form relative to the workspace root. */
  type Path = string

  /** What indexing one file contributes. */
  type Symbols = seq<string>

  type Index = map<Path, Symbols>

  datatype Kind = Created | Modified | Removed | Renamed

  datatype FileEvent = FileEvent(paths: seq<Path>, kind: Kind)

  datatype Change = Change(path: Path, kind: Kind)

  /** The rest of the system: which paths are indexed at all (and which languages are supported),
      what reading a file yields (`None` when it cannot be read, is empty, binary or too large), and
      the index a rebuild would make. */
  datatype World = World(shouldIndex: Path -> bool, supported: Path -> bool, disk: Path -> Option<Symbols>, rebuilt: Index)

  // ----- one change at a time

  function At(index: Index, p: Path): Option<Symbols> {
    if p in index then Some(index[p]) else None
  }

  function Without(index: Index, p: Path): Index {
    index - {p}
  }

  /** `reindex_file`: the old entry goes first, and stays away if the file cannot be read. */
  function Reindexed(w: World, index: Index, p: Path): Index {
    match w.disk(p)
    case Some(symbols) => Without(index, p)[p := symbols]
    case None => Without(index, p)
  }

  function Applied(w: World, index: Index, p: Path, kind: Kind): Index {
    if !w.shouldIndex(p) then index
    else if kind.Removed? then Without(index, p)
    else Reindexed(w, index, p)
  }

  /** The changes an event stands for. */
  function Changes(e: FileEvent): seq<Change> {
    if e.kind.Renamed? && |e.paths| >= 2 then [Change(e.paths[0], Removed), Change(e.paths[1], Created)]
    else Each(e.paths, e.kind)
  }

  function Each(paths: seq<Path>, kind: Kind): seq<Change> {
    if paths == [] then [] else Each(paths[..|paths| - 1], kind) + [Change(paths[|paths| - 1], kind)]
  }

  function AllChanges(events: seq<FileEvent>): seq<Change> {
    if events == [] then [] else AllChanges(events[..|events| - 1]) + Changes(events[|events| - 1])
  }

  function Sequential(w: World, index: Index, changes: seq<Change>): Index {
    if changes == [] then index
    else
      var c := changes[|changes| - 1];
      Applied(w, Sequential(w, index, changes[..|changes| - 1]), c.path, c.kind)
  }

  // ----- coalescing

  type Pending = map<Path, Kind>

  function Inserted(events: Pending, p: Path, kind: Kind): Pending {
    if p !in events then events[p := kind]
    else if (events[p].Created? || events[p].Modified?) && kind.Removed? then events - {p}
    else if events[p].Removed? && (kind.Created? || kind.Modified?) then events[p := Created]
    else events[p := kind]
  }

  function InsertAll(events: Pending, changes: seq<Change>): Pending {
    if changes == [] then events
    else
      var c := changes[|changes| - 1];
      Inserted(InsertAll(events, changes[..|changes| - 1]), c.path, c.kind)
  }

  lemma {:induction false} InsertAllConcat(events: Pending, a: seq<Change>, b: seq<Change>)
    ensures InsertAll(events, a + b) == InsertAll(InsertAll(events, a), b)
    decreases |b|
  {
    hide Inserted;
    if b == [] {
      assert a + b == a;
    } else {
      InsertAllConcat(events, a, b[..|b| - 1]);
      assert (a + b)[..|a + b| - 1] == a + b[..|b| - 1];
    }
  }

  class CoalescedEvents {
    var events: Pending

    constructor ()
      ensures events == map[]
    {
      events := map[];
    }

    /** The change takes effect after those already pending, on every index; a removal after a
        creation or modification leaves nothing pending instead. */
    method Insert(path: Path, kind: Kind)
      modifies this
      ensures events == Inserted(old(events), path, kind)
      ensures forall q :: q != path ==> KindOf(events, q) == KindOf(old(events), q)
      ensures path !in events <==> path in old(events) && (old(events)[path].Created? || old(events)[path].Modified?) && kind.Removed?
      ensures forall w: World, before: Option<Symbols> :: path in events ==>
                Outcome(w, path, before, KindOf(events, path)) ==
                Outcome(w, path, Outcome(w, path, before, KindOf(old(events), path)), Some(kind))
    {
      if path !in events {
        events := events[path := kind];
        return;
      }
      match (events[path], kind) {
        case (Created, Removed) => events := events - {path};
        case (Modified, Removed) => events := events - {path};
        case (Removed, Created) => events := events[path := Created];
        case (Removed, Modified) => events := events[path := Created];
        case _ => events := events[path := kind];
      }
    }

    /** A rename leaves its second path to be indexed and nothing but a removal of its first; paths
        the event does not list keep what was pending. */
    method Add(event: FileEvent)
      modifies this
      ensures events == InsertAll(old(events), Changes(event))
      ensures forall q :: q !in event.paths ==> KindOf(events, q) == KindOf(old(events), q)
      ensures event.kind.Renamed? && |event.paths| >= 2 ==>
                && KindOf(events, event.paths[1]) == Some(Created)
                && (event.paths[0] != event.paths[1] ==> KindOf(events, event.paths[0]) in {None, Some(Removed)})
    {
      if event.kind.Renamed? && |event.paths| >= 2 {
        ghost var both := [Change(event.paths[0], Removed), Change(event.paths[1], Created)];
        assert both[..1] == [both[0]] && [both[0]][..0] == [];
        Insert(event.paths[0], Removed);
        assert KindOf(events, event.paths[0]) in {None, Some(Removed)};
        assert events == InsertAll(old(events), both[..1]);
        Insert(event.paths[1], Created);
        return;
      }
      for i := 0 to |event.paths|
        invariant events == InsertAll(old(events), Each(event.paths[..i], event.kind))
        invariant forall q :: q !in event.paths ==> KindOf(events, q) == KindOf(old(events), q)
      {
        EachSnoc(event.paths, i, event.kind);
        Insert(event.paths[i], event.kind);
      }
      assert event.paths[..|event.paths|] == event.paths;
    }
  }

  lemma EachSnoc(paths: seq<Path>, i: nat, kind: Kind)
    requires i < |paths|
    ensures var all := Each(paths[..i + 1], kind);
            all != [] && all[|all| - 1] == Change(paths[i], kind) && all[..|all| - 1] == Each(paths[..i], kind)
  {
    assert paths[..i + 1][..i] == paths[..i];
  }

  /** The effect of one pending entry on the entry of its path. */
  function Outcome(w: World, p: Path, before: Option<Symbols>, kind: Option<Kind>): Option<Symbols> {
    if kind.None? || !w.shouldIndex(p) then before
    else if kind.value.Removed? then None
    else w.disk(p)
  }

  function KindOf(events: Pending, p: Path): Option<Kind> {
    if p in events then Some(events[p]) else None
  }

  /** `index'` is `index` after all pending entries, in whichever order. */
  ghost predicate After(w: World, index: Index, events: Pending, index': Index) {
    forall p :: At(index', p) == Outcome(w, p, At(index, p), KindOf(events, p))
  }

  lemma AfterIsUnique(w: World, index: Index, events: Pending, a: Index, b: Index)
    requires After(w, index, events, a) && After(w, index, events, b)
    ensures a == b
  {
    forall p ensures At(a, p) == At(b, p) {}
    SameEverywhere(a, b);
  }

  lemma SameEverywhere(a: Index, b: Index)
    requires forall p :: At(a, p) == At(b, p)
    ensures a == b
  {
    forall p ensures p in a <==> p in b {
      assert At(a, p) == At(b, p);
    }
    forall p | p in a ensures a[p] == b[p] {
      assert At(a, p) == At(b, p);
    }
  }

  lemma AppliedAt(w: World, index: Index, p: Path, kind: Kind, q: Path)
    ensures At(Applied(w, index, p, kind), q) == Outcome(w, q, At(index, q), if q == p then Some(kind) else None)
  {
  }

  // ----- what coalescing decides per path

  /** The last change of a path. */
  function LastKind(changes: seq<Change>, p: Path): Option<Kind> {
    if changes == [] then None
    else if changes[|changes| - 1].path == p then Some(changes[|changes| - 1].kind)
    else LastKind(changes[..|changes| - 1], p)
  }

  lemma {:induction false} SequentialAt(w: World, index: Index, changes: seq<Change>, p: Path)
    ensures At(Sequential(w, index, changes), p) == Outcome(w, p, At(index, p), LastKind(changes, p))
  {
    hide Applied, Outcome;
    if changes == [] {
      NoOutcome(w, p, At(index, p));
    } else {
      var before, c := changes[..|changes| - 1], changes[|changes| - 1];
      SequentialAt(w, index, before, p);
      AppliedAt(w, Sequential(w, index, before), c.path, c.kind, p);
      if c.path != p {
        NoOutcome(w, p, At(Sequential(w, index, before), p));
      } else {
        LastWins(w, p, At(index, p), LastKind(before, p), Some(c.kind));
      }
    }
  }

  lemma NoOutcome(w: World, p: Path, before: Option<Symbols>)
    ensures Outcome(w, p, before, None) == before
  {
  }

  lemma LastWins(w: World, p: Path, before: Option<Symbols>, first: Option<Kind>, last: Option<Kind>)
    requires last.Some?
    ensures Outcome(w, p, Outcome(w, p, before, first), last) == Outcome(w, p, before, last)
  {
  }

  /** A path is pending with the effect of its last change, or its changes were cancelled and the
      last one was a removal. */
  lemma {:induction false} PendingKind(changes: seq<Change>, p: Path)
    ensures var pending, last := KindOf(InsertAll(map[], changes), p), LastKind(changes, p);
            && (pending.Some? ==> last.Some? && pending.value.Removed? == last.value.Removed?)
            && (pending.None? && last.Some? ==> last == Some(Removed))
  {
    if changes != [] {
      PendingKind(changes[..|changes| - 1], p);
    }
  }

  /** The path was changed, and the changes were cancelled. */
  predicate Cancelled(changes: seq<Change>, p: Path) {
    LastKind(changes, p).Some? && p !in InsertAll(map[], changes)
  }

  /** No cancelled path had an entry in the index. */
  predicate NothingStale(w: World, index: Index, changes: seq<Change>) {
    forall p :: p in index && w.shouldIndex(p) ==> !Cancelled(changes, p)
  }

  lemma CoalescedAt(w: World, index: Index, changes: seq<Change>, p: Path)
    ensures Outcome(w, p, At(index, p), KindOf(InsertAll(map[], changes), p)) == At(Sequential(w, index, changes), p)
            <==> !(p in index && w.shouldIndex(p) && Cancelled(changes, p))
  {
    hide InsertAll, LastKind, Sequential;
    SequentialAt(w, index, changes, p);
    PendingKind(changes, p);
  }

  /** A batch of changes is applied as one by one exactly when no cancelled path was indexed. */
  lemma CoalescedIffNothingStale(w: World, index: Index, changes: seq<Change>, index': Index)
    requires After(w, index, InsertAll(map[], changes), index')
    ensures index' == Sequential(w, index, changes) <==> NothingStale(w, index, changes)
  {
    hide InsertAll, Sequential, Outcome, Cancelled, KindOf;
    var events := InsertAll(map[], changes);
    forall p ensures At(index', p) == At(Sequential(w, index, changes), p)
                     <==> !(p in index && w.shouldIndex(p) && Cancelled(changes, p)) {
      CoalescedAt(w, index, changes, p);
      assert At(index', p) == Outcome(w, p, At(index, p), KindOf(events, p));
    }
    if NothingStale(w, index, changes) {
      SameEverywhere(index', Sequential(w, index, changes));
    }
  }

  /** An indexed file that is modified and then removed in one batch keeps its old entry. */
  lemma RemovedFileStaysIndexed(w: World, p: Path, symbols: Symbols, index': Index)
    requires w.shouldIndex(p)
    requires After(w, map[p := symbols], InsertAll(map[], [Change(p, Modified), Change(p, Removed)]), index')
    ensures p in index' && p !in Sequential(w, map[p := symbols], [Change(p, Modified), Change(p, Removed)])
  {
    var both := [Change(p, Modified), Change(p, Removed)];
    assert both[..1] == [Change(p, Modified)] && [Change(p, Modified)][..0] == [];
    assert InsertAll(map[], [Change(p, Modified)]) == map[p := Modified];
    assert InsertAll(map[], both) == map[];
    assert At(index', p) == Some(symbols);
  }
}
