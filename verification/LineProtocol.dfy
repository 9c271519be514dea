/** The line reader as a protocol: a producer that fills and sends, a consumer that polls, in any
    interleaving. Sends are never refused, which allows every schedule of the bounded channel. */
module LineProtocol {
  import opened Bytes
  import opened LineReader

  datatype Message = Bytes(line: seq<Byte>) | Failure

  datatype PollResult = Pending | Ready(count: nat) | Broken

  // ----- the consumer

  datatype Polled = Polled(stash: seq<Byte>, queue: seq<Message>, result: PollResult, bytes: seq<Byte>)

  /** One poll into a buffer of `n` bytes. */
  function Poll(stash: seq<Byte>, queue: seq<Message>, closed: bool, n: nat): Polled {
    if stash != [] then Served(stash, queue, n)
    else if queue != [] then
      match queue[0]
      case Bytes(line) => Served(line, queue[1..], n)
      case Failure => Polled([], queue[1..], Broken, [])
    else Polled([], [], if closed then Ready(0) else Pending, [])
  }

  function Served(line: seq<Byte>, queue: seq<Message>, n: nat): Polled {
    var k := if |line| <= n then |line| else n;
    Polled(line[k..], queue, Ready(k), line[..k])
  }

  class LineBufferedRead {
    var buf: seq<Byte>
    var pos: nat
    var rx: seq<Message>
    var closed: bool

    ghost predicate Valid()
      reads this
    {
      pos < |buf| || (buf == [] && pos == 0)
    }

    ghost function Stash(): seq<Byte>
      requires Valid()
      reads this
    {
      buf[pos..]
    }

    constructor ()
      ensures Valid() && Stash() == [] && rx == [] && !closed
    {
      buf, pos, rx, closed := [], 0, [], false;
    }

    /** Serves the rest of the current line. */
    method ServeStash(dst: array<Byte>) returns (n: nat)
      requires Valid() && pos < |buf|
      modifies this, dst
      ensures Valid() && rx == old(rx) && closed == old(closed)
      ensures var p := Served(old(Stash()), rx, dst.Length);
              && Stash() == p.stash && p.result == Ready(n)
              && |p.bytes| <= dst.Length && dst[..] == p.bytes + old(dst[..])[|p.bytes|..]
    {
      var avail := |buf| - pos;
      n := if avail <= dst.Length then avail else dst.Length;
      SliceOfSlice(buf, pos, n);
      CopyInto(dst, buf[pos..pos + n]);
      pos := pos + n;
      if pos >= |buf| {
        buf, pos := [], 0;
      }
    }

    /** Serves a line just received, and stashes what does not fit. */
    method ServeLine(line: seq<Byte>, dst: array<Byte>) returns (n: nat)
      requires buf == [] && pos == 0
      modifies this, dst
      ensures Valid() && rx == old(rx) && closed == old(closed)
      ensures var p := Served(line, rx, dst.Length);
              && Stash() == p.stash && p.result == Ready(n)
              && |p.bytes| <= dst.Length && dst[..] == p.bytes + old(dst[..])[|p.bytes|..]
    {
      n := if |line| <= dst.Length then |line| else dst.Length;
      CopyInto(dst, line[..n]);
      if n < |line| {
        buf, pos := line, n;
      }
    }

    method PollRead(dst: array<Byte>) returns (r: PollResult)
      requires Valid()
      modifies this, dst
      ensures Valid() && closed == old(closed)
      ensures var p := Poll(old(Stash()), old(rx), old(closed), dst.Length);
              && Stash() == p.stash && rx == p.queue && r == p.result
              && |p.bytes| <= dst.Length && dst[..] == p.bytes + old(dst[..])[|p.bytes|..]
    {
      hide Poll;
      if pos < |buf| {
        PollStash(Stash(), rx, closed, dst.Length);
        var n := ServeStash(dst);
        return Ready(n);
      }
      PollQueue(rx, closed, dst.Length);
      assert dst[..] == [] + dst[..][0..];
      if rx != [] {
        var message := rx[0];
        rx := rx[1..];
        match message
        case Bytes(line) =>
          var n := ServeLine(line, dst);
          return Ready(n);
        case Failure => return Broken;
      }
      r := if closed then Ready(0) else Pending;
    }
  }

  lemma PollStash(stash: seq<Byte>, queue: seq<Message>, closed: bool, n: nat)
    requires stash != []
    ensures Poll(stash, queue, closed, n) == Served(stash, queue, n)
  {
  }

  lemma PollQueue(queue: seq<Message>, closed: bool, n: nat)
    ensures Poll([], queue, closed, n) ==
            if queue == [] then Polled([], [], if closed then Ready(0) else Pending, [])
            else if queue[0].Bytes? then Served(queue[0].line, queue[1..], n)
            else Polled([], queue[1..], Broken, [])
  {
  }

  lemma SliceOfSlice(s: seq<Byte>, at: nat, n: nat)
    requires at + n <= |s|
    ensures s[at..][..n] == s[at..at + n] && s[at..][n..] == s[at + n..]
  {
  }

  method CopyInto(dst: array<Byte>, bytes: seq<Byte>)
    requires |bytes| <= dst.Length
    modifies dst
    ensures dst[..] == bytes + old(dst[..])[|bytes|..]
  {
    for i := 0 to |bytes|
      invariant dst[..i] == bytes[..i]
      invariant forall k :: i <= k < dst.Length ==> dst[k] == old(dst[k])
    {
      dst[i] := bytes[i];
    }
  }

  // ----- both processes

  datatype Producer =
    | Reading(partial: seq<Byte>)
    | Sending(line: seq<Byte>)
    | Failing(lost: seq<Byte>)
    | Failed(lost: seq<Byte>)
    | Finished

  function Held(p: Producer): seq<Byte> {
    match p
    case Reading(partial) => partial
    case Sending(line) => line
    case Failing(lost) => lost
    case Failed(lost) => lost
    case Finished => []
  }

  predicate Closed(p: Producer) {
    p.Failed? || p.Finished?
  }

  /** `delivered` is what polls have handed out, `reported` whether one has returned the error. */
  datatype State = State(chunks: seq<seq<Byte>>, producer: Producer, queue: seq<Message>, stash: seq<Byte>,
                         delivered: seq<Byte>, reported: bool)

  datatype Config = Config(cap: nat, fails: bool)

  datatype Action = Produce | Consume(size: nat)

  /** One step of the producer task: a fill with its cap check, the end of the stream, or a send. */
  function ProducerStep(c: Config, st: State): State
    requires Flowing(st.chunks)
  {
    match st.producer
    case Reading(partial) =>
      if st.chunks == [] then
        st.(producer := if c.fails then Failing(partial) else if partial == [] then Finished else Sending(partial))
      else
        var n := LineLen(st.chunks[0]);
        var next := partial + st.chunks[0][..n];
        st.(chunks := Consumed(st.chunks, n),
            producer := if |next| > c.cap then Failing(next) else if NEWLINE in st.chunks[0] then Sending(next) else Reading(next))
    case Sending(line) => st.(queue := st.queue + [Bytes(line)], producer := Reading([]))
    case Failing(lost) => st.(queue := st.queue + [Failure], producer := Failed(lost))
    case Failed(_) => st
    case Finished => st
  }

  function PollStep(st: State, size: nat): State {
    var p := Poll(st.stash, st.queue, Closed(st.producer), size);
    st.(stash := p.stash, queue := p.queue, delivered := st.delivered + p.bytes,
        reported := st.reported || p.result.Broken?)
  }

  function Step(c: Config, st: State, a: Action): (r: State)
    requires Flowing(st.chunks)
    ensures Flowing(r.chunks)
  {
    match a
    case Produce =>
      StepFlows(c, st);
      ProducerStep(c, st)
    case Consume(size) => PollStep(st, size)
  }

  lemma StepFlows(c: Config, st: State)
    requires Flowing(st.chunks)
    ensures Flowing(ProducerStep(c, st).chunks)
  {
    if st.producer.Reading? && st.chunks != [] {
      ConsumedBytes(st.chunks, LineLen(st.chunks[0]));
    }
  }

  function Init(chunks: seq<seq<Byte>>): State {
    State(chunks, Reading([]), [], [], [], false)
  }

  function Run(c: Config, chunks: seq<seq<Byte>>, actions: seq<Action>): (r: State)
    requires Flowing(chunks)
    ensures Flowing(r.chunks)
    decreases |actions|
  {
    if actions == [] then Init(chunks)
    else Step(c, Run(c, chunks, actions[..|actions| - 1]), actions[|actions| - 1])
  }

  // ----- what every interleaving keeps

  function LineOf(m: Message): seq<Byte> {
    if m.Bytes? then m.line else []
  }

  function InFlight(queue: seq<Message>): seq<Byte> {
    if queue == [] then [] else LineOf(queue[0]) + InFlight(queue[1..])
  }

  /** Nothing is lost, repeated or reordered. */
  predicate Conserved(source: seq<Byte>, st: State) {
    source == st.delivered + st.stash + InFlight(st.queue) + Held(st.producer) + Flatten(st.chunks)
  }

  /** Nothing is left behind the queue, and nothing will be. */
  predicate Drained(c: Config, st: State) {
    st.chunks == [] && Held(st.producer) == [] && !c.fails && (st.producer.Reading? || st.producer.Finished?)
  }

  /** A line ends at its only newline; only the last one of a clean stream may lack it. */
  predicate GoodLine(c: Config, line: seq<Byte>, last: bool) {
    && line != [] && |line| <= c.cap && NEWLINE !in line[..|line| - 1]
    && (Terminated(line) || last)
  }

  /** The source failed inside this line. */
  predicate CutOff(c: Config, st: State, lost: seq<Byte>) {
    c.fails && st.chunks == [] && NEWLINE !in lost
  }

  predicate GoodProducer(c: Config, st: State) {
    match st.producer
    case Reading(partial) => NEWLINE !in partial && |partial| <= c.cap
    case Sending(line) => GoodLine(c, line, st.chunks == [] && !c.fails)
    case Failing(lost) => |lost| > c.cap || CutOff(c, st, lost)
    case Failed(lost) => |lost| > c.cap || CutOff(c, st, lost)
    case Finished => st.chunks == [] && !c.fails
  }

  predicate GoodQueue(c: Config, st: State) {
    forall i :: 0 <= i < |st.queue| ==>
      match st.queue[i]
      case Bytes(line) => GoodLine(c, line, i == |st.queue| - 1 && Drained(c, st))
      case Failure => i == |st.queue| - 1 && st.producer.Failed?
  }

  /** Where the stash is used up, the consumer is between two lines, or at the end of everything. */
  predicate AtBoundary(c: Config, st: State) {
    var seen := st.delivered + st.stash;
    seen == [] || Terminated(seen) || (st.queue == [] && Drained(c, st))
  }

  /** A failure is queued or has been reported, once. */
  predicate GoodReport(st: State) {
    if st.producer.Failed? then st.reported <==> st.queue == [] || !st.queue[|st.queue| - 1].Failure? else !st.reported
  }

  predicate Inv(c: Config, source: seq<Byte>, st: State) {
    && Flowing(st.chunks) && Conserved(source, st) && GoodProducer(c, st) && GoodQueue(c, st) && AtBoundary(c, st)
    && GoodReport(st)
  }

  lemma {:induction false} InFlightSnoc(queue: seq<Message>, m: Message)
    ensures InFlight(queue + [m]) == InFlight(queue) + LineOf(m)
  {
    hide InFlight, LineOf;
    NothingInFlight();
    if queue == [] {
      assert queue + [m] == [m] && [m][1..] == [];
      InFlightCons([m]);
      assert LineOf(m) + [] == [] + LineOf(m);
    } else {
      InFlightSnoc(queue[1..], m);
      assert (queue + [m])[1..] == queue[1..] + [m];
      InFlightCons(queue);
      InFlightCons(queue + [m]);
      var first, rest := LineOf(queue[0]), InFlight(queue[1..]);
      assert first + (rest + LineOf(m)) == first + rest + LineOf(m);
    }
  }

  lemma NothingInFlight()
    ensures InFlight([]) == []
  {
  }

  lemma InFlightCons(queue: seq<Message>)
    requires queue != []
    ensures InFlight(queue) == LineOf(queue[0]) + InFlight(queue[1..])
  {
  }

  /** A step of the producer that keeps queue, stash and deliveries, with nothing drained yet. */
  lemma ProducerOnly(c: Config, source: seq<Byte>, st: State, g: State)
    requires Inv(c, source, st) && !Drained(c, st)
    requires g.queue == st.queue && g.stash == st.stash && g.delivered == st.delivered && g.reported == st.reported
    requires !g.producer.Failed? && Held(g.producer) + Flatten(g.chunks) == Held(st.producer) + Flatten(st.chunks)
    requires Flowing(g.chunks) && GoodProducer(c, g) && !st.producer.Failed?
    ensures Inv(c, source, g)
  {
    hide Flatten, Flowing, GoodProducer, InFlight, Held, Terminated;
    var all := st.delivered + st.stash + InFlight(st.queue);
    assert all + Held(st.producer) + Flatten(st.chunks) == all + (Held(st.producer) + Flatten(st.chunks));
    assert all + Held(g.producer) + Flatten(g.chunks) == all + (Held(g.producer) + Flatten(g.chunks));
    assert forall i :: 0 <= i < |st.queue| ==> st.queue[i].Bytes? && GoodLine(c, st.queue[i].line, false);
  }

  lemma FillKeeps(c: Config, source: seq<Byte>, st: State)
    requires Inv(c, source, st) && st.producer.Reading? && st.chunks != []
    ensures Inv(c, source, ProducerStep(c, st))
  {
    hide LineLen, Flatten, Consumed, Flowing, NextLine, Inv;
    InvProducer(c, source, st);
    var partial := st.producer.partial;
    var all := partial + Flatten(st.chunks);
    FillProgress(all, c.cap, partial, c.fails, st.chunks);
    var g := ProducerStep(c, st);
    if g.producer.Sending? {
      LineIsGood(all, g.producer.line);
    }
    ProducerOnly(c, source, st, g);
  }

  lemma InvProducer(c: Config, source: seq<Byte>, st: State)
    requires Inv(c, source, st)
    ensures Flowing(st.chunks) && GoodProducer(c, st)
  {
  }

  lemma LineIsGood(all: seq<Byte>, line: seq<Byte>)
    requires line == NextLine(all) && NEWLINE in line
    ensures Terminated(line) && NEWLINE !in line[..|line| - 1]
  {
    assert line[..|line| - 1] == all[..|line| - 1];
  }

  lemma SendKeeps(c: Config, source: seq<Byte>, st: State)
    requires Inv(c, source, st) && (st.producer.Sending? || st.producer.Failing?)
    ensures Inv(c, source, ProducerStep(c, st))
  {
    hide Flatten, Flowing, InFlight, Terminated;
    var g := ProducerStep(c, st);
    SendConserves(source, st, g);
    assert !Drained(c, st);
    forall i | 0 <= i < |st.queue| ensures st.queue[i].Bytes? && GoodLine(c, st.queue[i].line, false) {}
    SendBoundary(c, st, g);
  }

  lemma SendConserves(source: seq<Byte>, st: State, g: State)
    requires Conserved(source, st) && (st.producer.Sending? || st.producer.Failing?)
    requires g.chunks == st.chunks && g.stash == st.stash && g.delivered == st.delivered
    requires st.producer.Sending? ==> g.producer == Reading([]) && g.queue == st.queue + [Bytes(st.producer.line)]
    requires st.producer.Failing? ==> g.producer == Failed(st.producer.lost) && g.queue == st.queue + [Failure]
    ensures Conserved(source, g)
  {
    hide Flatten, InFlight;
    var m := g.queue[|st.queue|];
    InFlightSnoc(st.queue, m);
    var before, rest := st.delivered + st.stash + InFlight(st.queue), Flatten(st.chunks);
    assert st.delivered + st.stash + (InFlight(st.queue) + LineOf(m)) == before + LineOf(m);
    assert before + LineOf(m) + Held(g.producer) + rest == before + Held(st.producer) + rest;
  }

  lemma SendBoundary(c: Config, st: State, g: State)
    requires AtBoundary(c, st) && !Drained(c, st) && g.stash == st.stash && g.delivered == st.delivered
    ensures AtBoundary(c, g)
  {
  }

  lemma EndKeeps(c: Config, source: seq<Byte>, st: State)
    requires Inv(c, source, st) && !st.producer.Sending? && !st.producer.Failing?
    requires st.producer.Reading? ==> st.chunks == []
    ensures Inv(c, source, ProducerStep(c, st))
  {
  }

  lemma StashPollKeeps(c: Config, source: seq<Byte>, st: State, size: nat)
    requires Inv(c, source, st) && (st.stash != [] || st.queue == [])
    ensures Inv(c, source, PollStep(st, size))
  {
    hide Flatten, Flowing, GoodLine, InFlight, GoodProducer, Terminated;
    var g := PollStep(st, size);
    assert g.delivered + g.stash == st.delivered + st.stash;
    assert g.queue == st.queue;
    SameDrained(c, st, g);
  }

  lemma QueuePollConserves(source: seq<Byte>, st: State, size: nat)
    requires Conserved(source, st) && st.stash == [] && st.queue != []
    ensures var g := PollStep(st, size);
            && Conserved(source, g) && g.delivered + g.stash == st.delivered + LineOf(st.queue[0])
  {
    hide Flatten, InFlight, Held;
    var g, line := PollStep(st, size), LineOf(st.queue[0]);
    InFlightCons(st.queue);
    assert g.queue == st.queue[1..];
    assert g.delivered + g.stash == st.delivered + line;
    var rest := InFlight(g.queue);
    assert st.delivered + st.stash + (line + rest) == st.delivered + line + rest;
  }

  lemma QueuePollQueue(c: Config, st: State, size: nat)
    requires GoodQueue(c, st) && GoodReport(st) && st.stash == [] && st.queue != []
    ensures GoodQueue(c, PollStep(st, size)) && GoodReport(PollStep(st, size))
  {
    hide GoodLine, Drained;
    var g := PollStep(st, size);
    assert g.queue == st.queue[1..];
    SameDrained(c, st, g);
    forall i | 0 <= i < |g.queue| ensures g.queue[i] == st.queue[i + 1] {}
  }

  lemma QueuePollBoundary(c: Config, st: State, g: State)
    requires GoodQueue(c, st) && AtBoundary(c, st) && st.stash == [] && st.queue != []
    requires g.queue == st.queue[1..] && g.chunks == st.chunks && g.producer == st.producer
    requires g.delivered + g.stash == st.delivered + LineOf(st.queue[0])
    ensures AtBoundary(c, g)
  {
    hide GoodLine, Drained;
    SameDrained(c, st, g);
    assert st.delivered + st.stash == st.delivered;
    if st.queue[0].Bytes? {
      LineEnds(c, st.queue[0].line, |st.queue| == 1 && Drained(c, st));
    } else {
      assert st.delivered + [] == st.delivered;
      FailedIsNotDrained(c, st);
    }
  }

  lemma FailedIsNotDrained(c: Config, st: State)
    requires st.producer.Failed?
    ensures !Drained(c, st)
  {
  }

  lemma QueuePollKeeps(c: Config, source: seq<Byte>, st: State, size: nat)
    requires Inv(c, source, st) && st.stash == [] && st.queue != []
    ensures Inv(c, source, PollStep(st, size))
  {
    hide Flowing, Conserved, GoodProducer, GoodQueue, AtBoundary, GoodReport, Drained;
    var g := PollStep(st, size);
    QueuePollConserves(source, st, size);
    QueuePollQueue(c, st, size);
    QueuePollBoundary(c, st, g);
    SameDrained(c, st, g);
  }

  lemma SameDrained(c: Config, st: State, g: State)
    requires st.chunks == g.chunks && st.producer == g.producer
    ensures Drained(c, st) == Drained(c, g) && GoodProducer(c, st) == GoodProducer(c, g)
  {
  }

  lemma PollKeeps(c: Config, source: seq<Byte>, st: State, size: nat)
    requires Inv(c, source, st)
    ensures Inv(c, source, PollStep(st, size))
  {
    hide Inv, PollStep;
    if st.stash != [] || st.queue == [] {
      StashPollKeeps(c, source, st, size);
    } else {
      QueuePollKeeps(c, source, st, size);
    }
  }

  lemma LineEnds(c: Config, line: seq<Byte>, last: bool)
    requires GoodLine(c, line, last)
    ensures line != [] && (line[|line| - 1] == NEWLINE || last)
  {
  }

  /** Over every chunking and every interleaving of fills, sends and polls of any size, delivered,
      stashed, queued, held and unread bytes are the source, in order, and every line sent is
      complete and within the cap. */
  lemma {:induction false} EveryRunKeeps(c: Config, chunks: seq<seq<Byte>>, actions: seq<Action>)
    requires Flowing(chunks)
    ensures Inv(c, Flatten(chunks), Run(c, chunks, actions))
    decreases |actions|
  {
    hide Flatten, Inv;
    if actions == [] {
      InitInv(c, chunks);
    } else {
      var before := actions[..|actions| - 1];
      EveryRunKeeps(c, chunks, before);
      StepKeeps(c, Flatten(chunks), Run(c, chunks, before), actions[|actions| - 1]);
    }
  }

  lemma InitInv(c: Config, chunks: seq<seq<Byte>>)
    requires Flowing(chunks)
    ensures Inv(c, Flatten(chunks), Init(chunks))
  {
  }

  lemma StepKeeps(c: Config, source: seq<Byte>, st: State, a: Action)
    requires Flowing(st.chunks) && Inv(c, source, st)
    ensures Inv(c, source, Step(c, st, a))
  {
    hide Inv, ProducerStep, PollStep;
    match a
    case Consume(size) => PollKeeps(c, source, st, size);
    case Produce =>
      if st.producer.Sending? || st.producer.Failing? {
        SendKeeps(c, source, st);
      } else if st.producer.Reading? && st.chunks != [] {
        FillKeeps(c, source, st);
      } else {
        EndKeeps(c, source, st);
      }
  }

  // ----- what a poll means

  /** A poll suspends only with nothing stashed or queued, after whole lines. */
  lemma PendingOnlyBetweenLines(c: Config, source: seq<Byte>, st: State, size: nat)
    requires Inv(c, source, st)
    requires Poll(st.stash, st.queue, Closed(st.producer), size).result == Pending
    ensures st.stash == [] && st.queue == [] && !Closed(st.producer)
    ensures st.delivered == [] || Terminated(st.delivered) || st.delivered == source
  {
    assert st.delivered + st.stash == st.delivered;
  }

  /** A read of no bytes into a buffer with room means that the stream is over; it was delivered
      whole unless it failed. */
  lemma ZeroMeansOver(c: Config, source: seq<Byte>, st: State, size: nat)
    requires Inv(c, source, st) && size > 0
    requires Poll(st.stash, st.queue, Closed(st.producer), size).result == Ready(0)
    ensures st.stash == [] && st.queue == [] && Closed(st.producer)
    ensures st.producer.Finished? ==> st.delivered == source
    ensures st.producer.Failed? ==> source == st.delivered + st.producer.lost + Flatten(st.chunks)
  {
    QueuedNotEmpty(c, st);
  }

  lemma QueuedNotEmpty(c: Config, st: State)
    requires GoodQueue(c, st)
    ensures forall i :: 0 <= i < |st.queue| && st.queue[i].Bytes? ==> st.queue[i].line != []
  {
  }

  /** A poll hands out a prefix of the stash or of the next line, as much as fits. */
  lemma PollDelivers(stash: seq<Byte>, queue: seq<Message>, closed: bool, size: nat)
    ensures var p := Poll(stash, queue, closed, size);
            && |p.bytes| <= size && (p.result.Ready? ==> p.result.count == |p.bytes|)
            && (|p.bytes| < size ==> p.stash == [])
            && stash + InFlight(queue) == p.bytes + p.stash + InFlight(p.queue)
  {
    hide InFlight;
    if stash == [] && queue != [] {
      InFlightCons(queue);
    }
  }

  // ----- when a stream is delivered without an error

  /** Every line of `s` is within the cap. */
  predicate LinesWithin(cap: nat, s: seq<Byte>)
    decreases |s|
  {
    s == [] || (LineLen(s) > 0 && LineLen(s) <= cap && LinesWithin(cap, s[LineLen(s)..]))
  }

  /** What the rest of the stream still has to be for all lines of the source to fit. */
  predicate Undecided(c: Config, source: seq<Byte>, st: State) {
    match st.producer
    case Reading(partial) => LinesWithin(c.cap, source) == LinesWithin(c.cap, partial + Flatten(st.chunks))
    case Sending(_) => LinesWithin(c.cap, source) == LinesWithin(c.cap, Flatten(st.chunks))
    case Failing(lost) => LinesWithin(c.cap, source) <==> |lost| <= c.cap
    case Failed(lost) => LinesWithin(c.cap, source) <==> |lost| <= c.cap
    case Finished => LinesWithin(c.cap, source) && !c.fails
  }

  lemma UndecidedStep(c: Config, source: seq<Byte>, st: State)
    requires Inv(c, source, st) && Undecided(c, source, st)
    ensures Undecided(c, source, ProducerStep(c, st))
  {
    hide Flatten, Flowing, Conserved, GoodQueue, AtBoundary, LineLen, Consumed;
    match st.producer
    case Reading(partial) =>
      if st.chunks == [] {
        NoMoreBytes(c, partial);
      } else {
        hide LinesWithin;
        var all := partial + Flatten(st.chunks);
        FillProgress(all, c.cap, partial, c.fails, st.chunks);
        var g := ProducerStep(c, st);
        LineDecides(c, all, partial, g);
      }
    case Sending(_) => assert [] + Flatten(st.chunks) == Flatten(st.chunks);
    case _ =>
  }

  lemma NoMoreBytes(c: Config, partial: seq<Byte>)
    requires NEWLINE !in partial && |partial| <= c.cap
    ensures LinesWithin(c.cap, partial + Flatten([])) && LinesWithin(c.cap, Flatten([]))
  {
    assert partial + Flatten([]) == partial;
  }

  lemma LineDecides(c: Config, all: seq<Byte>, partial: seq<Byte>, g: State)
    requires all == Held(g.producer) + Flatten(g.chunks) && all != []
    requires g.producer.Failing? ==> ReadOutcome(all, c.cap, c.fails, TooLong(g.producer.lost), g.chunks)
    requires g.producer.Sending? ==> ReadOutcome(all, c.cap, c.fails, Line(g.producer.line), g.chunks)
    ensures g.producer.Failing? ==> !LinesWithin(c.cap, all)
    ensures g.producer.Sending? ==> LinesWithin(c.cap, all) == LinesWithin(c.cap, Flatten(g.chunks))
  {
    hide Flatten;
  }

  lemma {:induction false} EveryRunDecides(c: Config, chunks: seq<seq<Byte>>, actions: seq<Action>)
    requires Flowing(chunks)
    ensures Undecided(c, Flatten(chunks), Run(c, chunks, actions))
    decreases |actions|
  {
    hide Flatten, Inv, LinesWithin, ProducerStep, Undecided;
    if actions == [] {
      InitUndecided(c, chunks);
    } else {
      var before := actions[..|actions| - 1];
      EveryRunDecides(c, chunks, before);
      EveryRunKeeps(c, chunks, before);
      var st := Run(c, chunks, before);
      if actions[|actions| - 1] == Produce {
        UndecidedStep(c, Flatten(chunks), st);
      } else {
        PollKeepsUndecided(c, Flatten(chunks), st, actions[|actions| - 1].size);
      }
    }
  }

  lemma InitUndecided(c: Config, chunks: seq<seq<Byte>>)
    ensures Undecided(c, Flatten(chunks), Init(chunks))
  {
    assert [] + Flatten(chunks) == Flatten(chunks);
  }

  lemma PollKeepsUndecided(c: Config, source: seq<Byte>, st: State, size: nat)
    requires Undecided(c, source, st)
    ensures Undecided(c, source, PollStep(st, size))
  {
    hide LinesWithin, Flatten;
  }

  /** A source that fails is delivered whole exactly when its lines fit and it fails between them. */
  lemma FailedDelivery(c: Config, source: seq<Byte>, st: State)
    requires Inv(c, source, st) && Undecided(c, source, st)
    requires st.producer.Failed? && st.stash == [] && st.queue == []
    ensures st.delivered == source <==> LinesWithin(c.cap, source) && (source == [] || Terminated(source))
    ensures LinesWithin(c.cap, source) ==> c.fails
  {
    hide LinesWithin;
    var lost := st.producer.lost;
    assert st.delivered + st.stash == st.delivered;
    assert source == st.delivered + lost + Flatten(st.chunks);
    if |lost| <= c.cap {
      assert source == st.delivered + lost;
      if lost != [] {
        assert source[|source| - 1] == lost[|lost| - 1];
      }
    }
  }

  /** In every run that comes to a zero read into a buffer with room: an error was reported unless
      every line is within the cap and the source does not fail, and the whole source was delivered
      exactly when every line is within the cap and a failure, if any, came between two lines. */
  lemma DeliveredIffLinesFit(c: Config, chunks: seq<seq<Byte>>, actions: seq<Action>, size: nat)
    requires Flowing(chunks) && size > 0
    requires var st := Run(c, chunks, actions);
             Poll(st.stash, st.queue, Closed(st.producer), size).result == Ready(0)
    ensures var st, source := Run(c, chunks, actions), Flatten(chunks);
            && (st.reported <==> !(LinesWithin(c.cap, source) && !c.fails))
            && (st.delivered == source <==>
                LinesWithin(c.cap, source) && (!c.fails || source == [] || Terminated(source)))
  {
    hide LinesWithin, Flatten, Inv, Terminated, Run;
    var st, source := Run(c, chunks, actions), Flatten(chunks);
    EveryRunKeeps(c, chunks, actions);
    EveryRunDecides(c, chunks, actions);
    ZeroMeansOver(c, source, st, size);
    ReportMeans(c, source, st);
    if st.producer.Failed? {
      FailedDelivery(c, source, st);
    }
  }

  lemma ReportMeans(c: Config, source: seq<Byte>, st: State)
    requires Inv(c, source, st) && st.queue == []
    ensures st.reported <==> st.producer.Failed?
  {
  }

  // ----- an unterminated last line

  /** The next poll would suspend after some bytes of a line that has no newline yet. */
  predicate SuspendsInsideLine(st: State) {
    && st.stash == [] && st.queue == [] && !Closed(st.producer)
    && st.delivered != [] && !Terminated(st.delivered)
  }

  function Rank(p: Producer): nat {
    if p.Sending? then 1 else if p.Reading? && p.partial != [] then 2 else 0
  }

  /** The next step of a schedule that polls whatever is ready, and lets the producer run otherwise. */
  function NextAction(st: State): Action {
    if st.stash != [] then Consume(|st.stash|)
    else if st.queue != [] then Consume(if st.queue[0].Bytes? then |st.queue[0].line| else 0)
    else Produce
  }

  predicate Settled(st: State) {
    st.stash == [] && st.queue == [] && st.chunks == [] && st.producer == Reading([])
  }

  lemma NextActionProgress(c: Config, source: seq<Byte>, st: State)
    requires Inv(c, source, st) && (st.producer.Reading? || st.producer.Sending?) && !Settled(st)
    ensures var g := Step(c, st, NextAction(st));
            || |Flatten(g.chunks)| < |Flatten(st.chunks)|
            || (g.chunks == st.chunks
                && (|| Rank(g.producer) < Rank(st.producer)
                    || (g.producer == st.producer
                        && (|| |g.queue| < |st.queue|
                            || (g.queue == st.queue && |g.stash| < |st.stash|)))))
    ensures Step(c, st, NextAction(st)).producer != Finished
  {
    hide LineLen, Flatten, Consumed, Conserved, GoodQueue, AtBoundary;
    if NextAction(st) == Produce && st.producer.Reading? && st.chunks != [] {
      FillProgress(st.producer.partial + Flatten(st.chunks), c.cap, st.producer.partial, c.fails, st.chunks);
    }
  }

  /** From every state of a run that will not fail, some continuation delivers everything and
      leaves the consumer waiting for the end of the stream. */
  lemma {:induction false} Settle(c: Config, chunks: seq<seq<Byte>>, actions: seq<Action>) returns (longer: seq<Action>)
    requires Flowing(chunks) && LinesWithin(c.cap, Flatten(chunks)) && !c.fails
    requires !Run(c, chunks, actions).producer.Finished?
    ensures Settled(Run(c, chunks, longer))
    decreases var st := Run(c, chunks, actions); |Flatten(st.chunks)|,
              Rank(Run(c, chunks, actions).producer), |Run(c, chunks, actions).queue|, |Run(c, chunks, actions).stash|
  {
    hide Flatten, Inv, LinesWithin, Step, Rank, Undecided, NextAction;
    var st := Run(c, chunks, actions);
    if Settled(st) {
      return actions;
    }
    EveryRunKeeps(c, chunks, actions);
    NotFailing(c, chunks, actions);
    NextActionProgress(c, Flatten(chunks), st);
    var next := actions + [NextAction(st)];
    assert next[..|next| - 1] == actions;
    assert Run(c, chunks, next) == Step(c, st, NextAction(st));
    longer := Settle(c, chunks, next);
  }

  lemma NotFailing(c: Config, chunks: seq<seq<Byte>>, actions: seq<Action>)
    requires Flowing(chunks) && LinesWithin(c.cap, Flatten(chunks)) && !c.fails
    ensures var p := Run(c, chunks, actions).producer; p.Reading? || p.Sending? || p.Finished?
  {
    hide Flatten, LinesWithin, Run;
    EveryRunDecides(c, chunks, actions);
    EveryRunKeeps(c, chunks, actions);
  }

  lemma SettledDelivered(c: Config, source: seq<Byte>, st: State)
    requires Inv(c, source, st) && Settled(st)
    ensures st.delivered == source
  {
  }

  lemma SuspendedMeans(c: Config, source: seq<Byte>, st: State)
    requires Inv(c, source, st) && Undecided(c, source, st) && SuspendsInsideLine(st)
    ensures LinesWithin(c.cap, source) && !c.fails && source != [] && !Terminated(source)
  {
    assert st.delivered + st.stash == st.delivered;
    assert Drained(c, st) && Held(st.producer) + Flatten(st.chunks) == [];
    PendingOnlyBetweenLines(c, source, st, 0);
  }

  /** Some schedule suspends the consumer inside a line exactly when every line is within the cap and
      the source ends, without an error, on a line that has no newline: the consumer may have read all
      of that line and still have to wait for the end of the stream. */
  lemma SuspendsInsideLineIff(c: Config, chunks: seq<seq<Byte>>)
    requires Flowing(chunks)
    ensures var source := Flatten(chunks);
            (exists actions :: SuspendsInsideLine(Run(c, chunks, actions))) <==>
            LinesWithin(c.cap, source) && !c.fails && source != [] && !Terminated(source)
  {
    hide Flatten, LinesWithin, Run, Inv, Terminated, Undecided;
    var source := Flatten(chunks);
    forall actions | SuspendsInsideLine(Run(c, chunks, actions))
      ensures LinesWithin(c.cap, source) && !c.fails && source != [] && !Terminated(source)
    {
      EveryRunKeeps(c, chunks, actions);
      EveryRunDecides(c, chunks, actions);
      SuspendedMeans(c, source, Run(c, chunks, actions));
    }
    if LinesWithin(c.cap, source) && !c.fails && source != [] && !Terminated(source) {
      RunStarts(c, chunks);
      var actions := Settle(c, chunks, []);
      EveryRunKeeps(c, chunks, actions);
      SettledDelivered(c, source, Run(c, chunks, actions));
      assert SuspendsInsideLine(Run(c, chunks, actions));
    }
  }

  lemma RunStarts(c: Config, chunks: seq<seq<Byte>>)
    requires Flowing(chunks)
    ensures Run(c, chunks, []) == Init(chunks)
  {
  }
}
