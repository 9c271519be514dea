/** Waiting on a terminal screen: the feeder, resizes and a waiter share a grid behind a lock and a
    generation counter. Every interleaving of their atomic steps is a list of actions. */
module WaitProtocol {
  import opened Bytes
  import opened Strings
  import opened Wrappers

  /** A condition on the trimmed screen text; a compiled regular expression is any predicate. */
  datatype Condition = Text(needle: string) | Gone(needle: string) | Regex(matches: string -> bool)

  predicate Met(c: Condition, screen: string) {
    match c
    case Text(needle) => Contains(screen, needle)
    case Gone(needle) => !Contains(screen, needle)
    case Regex(matches) => matches(screen)
  }

  /** A text is there wherever it stands on the screen, and gone exactly when it is not there. */
  lemma ConditionsMean(before: string, needle: string, after: string, screen: string)
    ensures Met(Text(needle), before + needle + after)
    ensures Met(Gone(needle), screen) <==> !Met(Text(needle), screen)
  {
    assert OccursAt(before + needle + after, needle, |before|);
  }

  // ----- processes

  /** The feeder changes the grid under the lock and bumps afterwards; leaving drops its sender. */
  datatype Feeder = Idle | Fed | Exited

  /** A resize holds the lock to its end, and bumps only if it can still get hold of the sender. */
  datatype Resizer = Away | Locked | Resized | Holding | Bumped

  /** `Marked` is after `borrow_and_update`, `Parked` inside `select!`. */
  datatype Waiter = Looping | Marked | Parked | Matched(screen: string) | Ended | TimedOut

  datatype State = State(grid: string, generation: nat, seen: nat, feeder: Feeder, resizer: Resizer, waiter: Waiter,
                         missed: bool)

  datatype Action =
    | Feed(grid: string) | FeederBump | FeederExit
    | Lock | ResizeFails | Resize(grid: string) | Upgrade | ResizerBump | Unlock
    | Mark | Check | Wake | End | Timeout

  /** The sender lives while the feeder or a resize owns it. */
  predicate SenderAlive(st: State) {
    st.feeder != Exited || st.resizer.Holding? || st.resizer.Bumped?
  }

  predicate Enabled(st: State, a: Action) {
    match a
    case Feed(_) => st.feeder.Idle? && st.resizer.Away?
    case FeederBump => st.feeder.Fed?
    case FeederExit => st.feeder.Idle?
    case Lock => st.resizer.Away?
    case ResizeFails => st.resizer.Locked?
    case Resize(_) => st.resizer.Locked?
    case Upgrade => st.resizer.Resized?
    case ResizerBump => st.resizer.Holding?
    case Unlock => st.resizer.Bumped?
    case Mark => st.waiter.Looping?
    case Check => st.waiter.Marked? && st.resizer.Away?
    case Wake => st.waiter.Parked? && st.generation != st.seen
    case End => st.waiter.Parked? && st.generation == st.seen && !SenderAlive(st)
    case Timeout => st.waiter.Parked?
  }

  /** One atomic step; a step that is not enabled waits, that is, changes nothing. `missed` records
      a resize that changed the grid and then found the sender gone. */
  function Step(c: Condition, st: State, a: Action): State {
    if !Enabled(st, a) then st
    else
      match a
      case Feed(grid) => st.(grid := grid, feeder := Fed)
      case FeederBump => st.(generation := st.generation + 1, feeder := Idle)
      case FeederExit => st.(feeder := Exited)
      case Lock => st.(resizer := Locked)
      case ResizeFails => st.(resizer := Away)
      case Resize(grid) => st.(grid := grid, resizer := Resized)
      case Upgrade => if st.feeder != Exited then st.(resizer := Holding) else st.(resizer := Away, missed := true)
      case ResizerBump => st.(generation := st.generation + 1, resizer := Bumped)
      case Unlock => st.(resizer := Away)
      case Mark => st.(seen := st.generation, waiter := Marked)
      case Check => st.(waiter := if Met(c, st.grid) then Matched(st.grid) else Parked)
      case Wake => st.(seen := st.generation, waiter := Looping)
      case End => st.(waiter := Ended)
      case Timeout => st.(waiter := TimedOut)
  }

  /** A session whose waiter is about to start, with any screen and generation. */
  function Init(grid: string, generation: nat): State {
    State(grid, generation, generation, Idle, Away, Looping, false)
  }

  function Run(c: Condition, st: State, actions: seq<Action>): State
    decreases |actions|
  {
    if actions == [] then st else Step(c, Run(c, st, actions[..|actions| - 1]), actions[|actions| - 1])
  }

  // ----- the grid

  /** The screen an action writes. */
  function Written(a: Action): Option<string> {
    match a
    case Feed(grid) => Some(grid)
    case Resize(grid) => Some(grid)
    case _ => None
  }

  /** The action at `k` is performed and writes the screen. */
  predicate WritesAt(c: Condition, st: State, actions: seq<Action>, k: nat)
    requires k < |actions|
  {
    Written(actions[k]).Some? && Enabled(Run(c, st, actions[..k]), actions[k])
  }

  /** Over every run, the grid is what the last output or resize performed has written. */
  lemma {:induction false} GridIsLastWritten(c: Condition, st: State, actions: seq<Action>, k: nat)
    requires k <= |actions| && (k > 0 ==> WritesAt(c, st, actions, k - 1))
    requires forall j :: k <= j < |actions| ==> !WritesAt(c, st, actions, j)
    ensures Run(c, st, actions).grid == if k == 0 then st.grid else Written(actions[k - 1]).value
    decreases |actions|
  {
    hide Enabled;
    if actions != [] {
      var n := |actions| - 1;
      var before := actions[..n];
      assert actions[..n] == before;
      if k <= n {
        assert forall j :: 0 <= j < n ==> before[..j] == actions[..j] && before[j] == actions[j];
        assert forall j :: k <= j < n ==> WritesAt(c, st, before, j) == WritesAt(c, st, actions, j);
        GridIsLastWritten(c, st, before, k);
        assert !WritesAt(c, st, actions, n);
      }
    }
  }

  // ----- no lost wakeup

  /** A change of the grid whose bump is still to come. */
  predicate BumpPending(st: State) {
    st.feeder.Fed? || st.resizer.Holding? || (st.resizer.Resized? && st.feeder != Exited)
  }

  /** A resize that changed the grid and did not bump, or no longer can. */
  predicate Unannounced(st: State) {
    st.missed || (st.resizer.Resized? && st.feeder.Exited?)
  }

  predicate Inv(c: Condition, st: State) {
    && st.seen <= st.generation
    && (st.missed ==> st.feeder.Exited?)
    && (st.waiter.Matched? ==> Met(c, st.waiter.screen))
    && (st.waiter.Ended? ==> !SenderAlive(st))
    && (st.waiter.Parked? && Met(c, st.grid) ==> st.generation != st.seen || BumpPending(st) || Unannounced(st))
    && (st.waiter.Ended? && Met(c, st.grid) ==> Unannounced(st))
  }

  lemma StepKeeps(c: Condition, st: State, a: Action)
    requires Inv(c, st)
    ensures Inv(c, Step(c, st, a))
  {
  }

  lemma {:induction false} EveryRunKeeps(c: Condition, grid: string, generation: nat, actions: seq<Action>)
    ensures Inv(c, Run(c, Init(grid, generation), actions))
    decreases |actions|
  {
    hide Inv, Step;
    if actions == [] {
      InitInv(c, grid, generation);
    } else {
      var before := actions[..|actions| - 1];
      EveryRunKeeps(c, grid, generation, before);
      StepKeeps(c, Run(c, Init(grid, generation), before), actions[|actions| - 1]);
    }
  }

  lemma InitInv(c: Condition, grid: string, generation: nat)
    ensures Inv(c, Init(grid, generation))
  {
  }

  /** While the feeder lives, a parked waiter whose condition holds on the grid has an unseen
      generation or a bump on its way. */
  lemma NoLostWakeup(c: Condition, grid: string, generation: nat, actions: seq<Action>)
    ensures var st := Run(c, Init(grid, generation), actions);
            st.feeder != Exited && st.waiter.Parked? && Met(c, st.grid) ==>
              st.generation != st.seen || BumpPending(st)
  {
    hide Met, Run;
    EveryRunKeeps(c, grid, generation, actions);
  }

  /** The feeder and the resize finish what they have begun, without another change of the grid. */
  function BumpsDone(c: Condition, st: State): State {
    var fed := if st.feeder.Fed? then Step(c, st, FeederBump) else st;
    match fed.resizer
    case Away => fed
    case Locked => Step(c, fed, ResizeFails)
    case Resized => Step(c, Step(c, Step(c, fed, Upgrade), ResizerBump), Unlock)
    case Holding => Step(c, Step(c, fed, ResizerBump), Unlock)
    case Bumped => Step(c, fed, Unlock)
  }

  lemma BumpsArrive(c: Condition, st: State)
    requires st.seen <= st.generation && (st.seen < st.generation || BumpPending(st))
    requires st.feeder != Exited && st.waiter.Parked?
    ensures var g := BumpsDone(c, st);
            g.grid == st.grid && g.waiter == Parked && g.resizer == Away && g.seen < g.generation
  {
    hide Met;
    var fed := if st.feeder.Fed? then Step(c, st, FeederBump) else st;
    assert fed.resizer == st.resizer && fed.feeder.Idle? && fed.seen <= fed.generation;
    match st.resizer
    case Resized => assert Step(c, fed, Upgrade).resizer == Holding;
    case Holding => assert Step(c, fed, ResizerBump).resizer == Bumped;
    case _ =>
  }

  lemma RecheckMatches(c: Condition, g: State)
    requires g.waiter == Parked && g.resizer == Away && g.seen < g.generation && Met(c, g.grid)
    ensures Step(c, Step(c, Step(c, g, Wake), Mark), Check).waiter == Matched(g.grid)
  {
    hide Met;
  }

  /** So the waiter comes to match: the steps already under way and its own are enough. */
  lemma ParkedWaiterMatches(c: Condition, st: State)
    requires Inv(c, st) && st.feeder != Exited && st.waiter.Parked? && Met(c, st.grid)
    ensures Step(c, Step(c, Step(c, BumpsDone(c, st), Wake), Mark), Check).waiter == Matched(st.grid)
  {
    hide Met, Step, BumpsDone;
    BumpsArrive(c, st);
    RecheckMatches(c, BumpsDone(c, st));
  }

  // ----- outcomes

  /** A match was on a screen where the condition held. An `ended` outcome means that the session is
      over, and that the condition fails on the final grid unless a resize went unannounced. */
  lemma OutcomesMean(c: Condition, grid: string, generation: nat, actions: seq<Action>)
    ensures var st := Run(c, Init(grid, generation), actions);
            && (st.waiter.Matched? ==> Met(c, st.waiter.screen))
            && (st.waiter.Ended? ==> st.feeder.Exited? && !SenderAlive(st))
            && (st.waiter.Ended? && !Unannounced(st) ==> !Met(c, st.grid))
  {
    hide Met, Run;
    EveryRunKeeps(c, grid, generation, actions);
  }

  /** The grid left by the last resize made after the exit of the feeder, or caught by it between
      changing the grid and bumping. */
  function LateResize(c: Condition, st: State, actions: seq<Action>): Option<string>
    decreases |actions|
  {
    if actions == [] then None
    else
      var before, a := actions[..|actions| - 1], actions[|actions| - 1];
      var at := Run(c, st, before);
      if a.Resize? && Enabled(at, a) && at.feeder.Exited? then Some(a.grid)
      else if a.FeederExit? && Enabled(at, a) && at.resizer.Resized? then Some(at.grid)
      else LateResize(c, st, before)
  }

  lemma {:induction false} LateResizeIsUnannounced(c: Condition, grid: string, generation: nat, actions: seq<Action>)
    ensures var st, late := Run(c, Init(grid, generation), actions), LateResize(c, Init(grid, generation), actions);
            && (Unannounced(st) <==> late.Some?)
            && (late.Some? ==> st.feeder.Exited? && st.grid == late.value)
    decreases |actions|
  {
    if actions != [] {
      LateResizeIsUnannounced(c, grid, generation, actions[..|actions| - 1]);
    }
  }

  /** An `ended` wait is right, its condition false on the final grid, exactly when no late resize
      has made it true. */
  lemma EndedUnmetIff(c: Condition, grid: string, generation: nat, actions: seq<Action>)
    ensures var st, late := Run(c, Init(grid, generation), actions), LateResize(c, Init(grid, generation), actions);
            st.waiter.Ended? ==> st.feeder.Exited? && (Met(c, st.grid) <==> late.Some? && Met(c, late.value))
  {
    hide Met, Run, LateResize;
    LateResizeIsUnannounced(c, grid, generation, actions);
    OutcomesMean(c, grid, generation, actions);
  }

  /** A resize that changes the grid just before the feeder leaves, and looks for the sender just
      after, is never announced: the wait ends although its condition holds on the final grid. */
  lemma ResizeRacingExitIsMissed(c: Condition, a: string, b: string)
    requires !Met(c, a) && Met(c, b)
    ensures var parked := Step(c, Step(c, Init(a, 0), Mark), Check);
            var resized := Step(c, Step(c, parked, Lock), Resize(b));
            var ended := Step(c, Step(c, Step(c, resized, FeederExit), Upgrade), End);
            ended.waiter == Ended && ended.grid == b && ended.missed
  {
    hide Met;
    var parked := Step(c, Step(c, Init(a, 0), Mark), Check);
    assert parked.waiter == Parked;
  }

  // ----- the raw tail

  const RAW_TAIL_CAP: nat := 2048

  function LastBytes(s: seq<Byte>): (r: seq<Byte>)
    ensures |r| <= RAW_TAIL_CAP
  {
    if |s| <= RAW_TAIL_CAP then s else s[|s| - RAW_TAIL_CAP..]
  }

  class RawTail {
    var tail: seq<Byte>

    constructor ()
      ensures tail == []
    {
      tail := [];
    }

    /** `push_raw_tail`. */
    method Push(bytes: seq<Byte>)
      requires |tail| <= RAW_TAIL_CAP
      modifies this
      ensures tail == LastBytes(old(tail) + bytes)
    {
      hide LastBytes;
      if |bytes| >= RAW_TAIL_CAP {
        LongPush(tail, bytes);
        tail := bytes[|bytes| - RAW_TAIL_CAP..];
        return;
      }
      ghost var popped := 0;
      while |tail| + |bytes| > RAW_TAIL_CAP
        invariant 0 <= popped <= |old(tail)| && tail == old(tail)[popped..]
        invariant popped > 0 ==> |tail| + |bytes| >= RAW_TAIL_CAP
        decreases |tail|
      {
        tail := tail[1..];
        popped := popped + 1;
      }
      ShortPush(old(tail), popped, bytes);
      tail := tail + bytes;
    }
  }

  lemma LongPush(tail: seq<Byte>, bytes: seq<Byte>)
    requires |bytes| >= RAW_TAIL_CAP
    ensures LastBytes(tail + bytes) == bytes[|bytes| - RAW_TAIL_CAP..]
  {
  }

  lemma ShortPush(tail: seq<Byte>, popped: nat, bytes: seq<Byte>)
    requires popped <= |tail| && |tail| - popped + |bytes| <= RAW_TAIL_CAP
    requires popped > 0 ==> |tail| - popped + |bytes| == RAW_TAIL_CAP
    ensures LastBytes(tail + bytes) == tail[popped..] + bytes
  {
  }

  function PushAll(chunks: seq<seq<Byte>>): seq<Byte> {
    if chunks == [] then [] else LastBytes(PushAll(chunks[..|chunks| - 1]) + chunks[|chunks| - 1])
  }

  function AllBytes(chunks: seq<seq<Byte>>): seq<Byte> {
    if chunks == [] then [] else AllBytes(chunks[..|chunks| - 1]) + chunks[|chunks| - 1]
  }

  /** However the output was cut into pushes, the tail is the last bytes of all of it. */
  lemma {:induction false} TailIsLastBytes(chunks: seq<seq<Byte>>)
    ensures PushAll(chunks) == LastBytes(AllBytes(chunks))
  {
    if chunks != [] {
      TailIsLastBytes(chunks[..|chunks| - 1]);
      LastOfLast(AllBytes(chunks[..|chunks| - 1]), chunks[|chunks| - 1]);
    }
  }

  lemma LastOfLast(s: seq<Byte>, b: seq<Byte>)
    ensures LastBytes(LastBytes(s) + b) == LastBytes(s + b)
  {
    if |s| > RAW_TAIL_CAP {
      assert LastBytes(s) + b == (s + b)[|s| - RAW_TAIL_CAP..];
    }
  }
}
