/** `ObserverPublishQueue`: the real queue, whose every method takes exactly the step of the
    pipeline machine while its byte and drop counters stay the sums they stand for. */
module PublishQueue {
  import opened Text
  import opened Events
  import opened Trim
  import opened Groups
  import opened Coalescer
  import opened Pipeline
  import opened GatherProofs
  import opened PipelineProofs
  import opened Frames

  /** `(serialized_len, source_events, event)` */
  datatype Queued = Queued(bytes: nat, sourceEvents: nat, event: Event)

  function QueuedOf(es: seq<Entry>): (r: seq<Queued>)
    ensures |r| == |es|
    ensures forall i | 0 <= i < |es| :: r[i] == Queued(es[i].bytes, |es[i].group|, es[i].event)
  {
    seq(|es|, i requires 0 <= i < |es| => Queued(es[i].bytes, |es[i].group|, es[i].event))
  }

  lemma {:induction false} EntryBytesSnoc(es: seq<Entry>, e: Entry)
    ensures EntryBytes(es + [e]) == EntryBytes(es) + e.bytes
  {
    assert Front(es + [e]) == es;
  }

  lemma {:induction false} EntryBytesConcat(a: seq<Entry>, b: seq<Entry>)
    ensures EntryBytes(a + b) == EntryBytes(a) + EntryBytes(b)
  {
    if b == [] {
      assert a + b == a;
    } else {
      assert Front(a + b) == a + Front(b) && Last(a + b) == Last(b);
      EntryBytesConcat(a, Front(b));
    }
  }

  lemma {:induction false} EntryBytesFirst(es: seq<Entry>)
    requires es != []
    ensures EntryBytes(es) == es[0].bytes + EntryBytes(es[1..])
  {
    EntryBytesConcat([es[0]], es[1..]);
    EntryBytesSnoc([], es[0]);
    assert [es[0]] + es[1..] == es && [] + [es[0]] == [es[0]];
  }

  lemma {:induction false} RecordedAreBytes(gs: seq<Group>, ps: seq<PendingChunk>)
    requires Filled(gs) && |gs| == |ps|
    requires forall i | 0 <= i < |gs| :: ps[i].bytes == Recorded(gs[i])
    ensures RecordedBytes(gs) == BytesOf(ps)
  {
    if gs != [] {
      RecordedAreBytes(gs[1..], ps[1..]);
    }
  }

  /** The least eviction is unique, so a loop that stops at the first queue within budget
      stops where ShedCount does. */
  lemma {:induction false} ShedCountIs(q: Queue, n: nat)
    requires Sound(q) && LeastEviction(q, n)
    ensures n == ShedCount(q)
  {
    var r := ShedCount(q);
    assert !OverBudget(Drop(q, r)) && !OverBudget(Drop(q, n));
  }

  lemma {:induction false} EnterNone(base: seq<Entry>, gs: seq<Group>)
    requires Filled(gs)
    ensures base + EnterAll(gs[..0]) == base
  {
  }

  lemma {:induction false} EnterNext(base: seq<Entry>, gs: seq<Group>, i: nat)
    requires Filled(gs) && i < |gs|
    ensures base + EnterAll(gs[..i + 1]) == base + EnterAll(gs[..i]) + [Enter(gs[i])]
  {
    EnterAllSnoc(gs[..i], gs[i], gs[..i + 1]);
    Associative(base, EnterAll(gs[..i]), [Enter(gs[i])]);
  }

  lemma {:induction false} EnterAllSnoc(gs: seq<Group>, g: Group, all: seq<Group>)
    requires Filled(gs) && g != [] && all == gs + [g]
    ensures Filled(all) && EnterAll(all) == EnterAll(gs) + [Enter(g)]
  {
    hide Enter;
    if gs == [] {
      assert all == [g] && all[1..] == [];
    } else {
      assert all[1..] == gs[1..] + [g];
      EnterAllSnoc(gs[1..], g, all[1..]);
      Associative([Enter(gs[0])], EnterAll(gs[1..]), [Enter(g)]);
    }
  }

  lemma {:induction false} CountNext(gs: seq<Group>, n: nat)
    requires n < |gs|
    ensures SourceCount(gs[..n + 1]) == SourceCount(gs[..n]) + |gs[n]|
  {
    assert Front(gs[..n + 1]) == gs[..n];
  }

  lemma {:induction false} DropNext(q: Queue, n: nat)
    requires Sound(q) && n < |q.fifo| + |q.pending|
    ensures Drop(q, n + 1) == Drop(Drop(q, n), 1)
    ensures Retained(q)[n] == Retained(Drop(q, n))[0]
  {
  }

  /** The gather loop's result from a state with the entries `left` still queued. */
  function GatherFrom(g: Gathered, left: seq<Entry>, channel: Option<Text>): Gathered
    requires Grouped(left)
    decreases left
  {
    if left == [] then g else GatherFrom(GatherStep(g, left[0], channel), left[1..], channel)
  }

  lemma {:induction false} GatherFromStart(done: seq<Entry>, left: seq<Entry>, channel: Option<Text>)
    requires Grouped(done) && Grouped(left)
    ensures Grouped(done + left)
    ensures GatherFrom(Gather(done, channel), left, channel) == Gather(done + left, channel)
    decreases left
  {
    hide GatherStep, FrameLen;
    if left == [] {
      assert done + left == done;
    } else {
      assert Front(done + [left[0]]) == done;
      GatherFromStart(done + [left[0]], left[1..], channel);
      assert done + left == done + [left[0]] + left[1..];
    }
  }

  lemma {:induction false} LogGrows(log: seq<Departure>, d: Departure)
    ensures EvictedSources(log + [d])
         == EvictedSources(log) + if d.Evicted? then SourceCount(d.groups) else 0
  {
    assert Front(log + [d]) == log;
  }

  lemma {:induction false} FrontChannel(fifo: seq<Entry>)
    requires Grouped(fifo) && Proper(fifo) && fifo != []
    ensures fifo[0].event.channelId == ChannelOf(fifo[0].group)
  {
    assert ProperEntry(fifo[0]);
    EnterFacts(fifo[0]);
  }

  lemma {:induction false} TickedIs(w: World, all: seq<Entry>)
    requires Sound(w.queue) && all == Flushed(w.queue)
    ensures Retained(w.queue) == [] <==> all == []
    ensures all == [] ==> Ticked(w) == w && w.queue == Queue([], [])
  {
  }

  lemma {:induction false} TickedTo(w: World, g: Gathered, after: World)
    requires Sound(w.queue) && Flushed(w.queue) != []
    requires g == Gather(Flushed(w.queue), ChannelOf(Flushed(w.queue)[0].group))
    requires after == World(w.hist, Queue(g.kept, []), w.log + [Shipped(GroupsOf(g.picked))])
    ensures after == Ticked(w)
  {
  }

  lemma {:induction false} SlotFrame(all: seq<Entry>, channel: Option<Text>, g: Gathered)
    requires Grouped(all) && Proper(all) && all != [] && channel == ChannelOf(all[0].group)
    requires g == Gather(all, channel)
    ensures Grouped(g.kept) && Proper(g.kept) && Grouped(g.picked)
    ensures g.picked != [] && FrameOf(GroupsOf(g.picked)) == SealBatch(EventsOf(g.picked))
  {
    GatherTakesFront(all, channel);
    GatherKeepsProper(all, channel);
    ProperIsEnterAll(g.picked);
  }

  /** Whether the envelope around the picked events exceeds the cap. */
  method EnvelopeOverflows(picked: seq<Event>, ghost es: seq<Entry>) returns (over: bool)
    requires Grouped(es) && Proper(es) && es != [] && picked == EventsOf(es)
    ensures over <==> FrameLen(es) > CAP
  {
    FrameLenIsSerialized(es);
    over := SerializedLen(BatchEnvelope(picked)) > CAP;
  }

  /** One event passes through the gather loop. */
  method GatherOne(front: Queued, picked0: seq<Event>, kept0: seq<Queued>, gathering0: bool,
                   channel: Option<Text>, ghost g: Gathered, ghost e: Entry)
    returns (picked: seq<Event>, kept: seq<Queued>, gathering: bool, taken: bool)
    requires Grouped(g.picked) && Grouped(g.kept) && e.group != []
    requires Proper(g.picked) && Proper(g.kept) && ProperEntry(e)
    requires front == Queued(e.bytes, |e.group|, e.event)
    requires picked0 == EventsOf(g.picked) && kept0 == QueuedOf(g.kept) && gathering0 == g.gathering
    ensures var b := GatherStep(g, e, channel);
            Grouped(b.picked) && Grouped(b.kept)
            && picked == EventsOf(b.picked) && kept == QueuedOf(b.kept) && gathering == b.gathering
            && EntryBytes(b.kept) == EntryBytes(g.kept) + if taken then 0 else front.bytes
  {
    hide EntryBytes, FrameLen, Fit, Merged, Enter, Gather, SerializedLen;
    picked, kept, gathering, taken := picked0, kept0, gathering0, false;
    EnterFacts(e);
    EntryBytesSnoc(g.kept, e);
    if gathering && front.event.channelId == channel {
      picked := picked + [front.event];
      ProperSnoc(g.picked, e);
      assert picked == EventsOf(g.picked + [e]);
      var over := EnvelopeOverflows(picked, g.picked + [e]);
      if |picked| > 1 && over {
        picked := picked[..|picked| - 1];
        assert picked == picked0;
        kept := kept + [front];
        gathering := false;
      } else {
        taken := true;
      }
    } else {
      if gathering && (channel.None? || front.event.channelId.None?) {
        gathering := false;
      }
      kept := kept + [front];
    }
  }

  /** Where the gather loop stands: `g` is what it has sorted, `left` what it has not. */
  ghost predicate Gathering(g: Gathered, left: seq<Entry>, picked: seq<Event>, kept: seq<Queued>,
                            gathering: bool, rest: seq<Queued>, bytes: nat)
  {
    && Grouped(g.picked) && Grouped(g.kept) && Grouped(left)
    && Proper(g.picked) && Proper(g.kept) && Proper(left)
    && picked == EventsOf(g.picked) && kept == QueuedOf(g.kept) && gathering == g.gathering
    && rest == QueuedOf(left) && bytes == EntryBytes(g.kept) + EntryBytes(left)
  }

  method GatherPop(picked0: seq<Event>, kept0: seq<Queued>, gathering0: bool, rest0: seq<Queued>, bytes0: nat,
                   channel: Option<Text>, ghost g: Gathered, ghost left: seq<Entry>)
    returns (picked: seq<Event>, kept: seq<Queued>, gathering: bool, rest: seq<Queued>, bytes: nat)
    requires Gathering(g, left, picked0, kept0, gathering0, rest0, bytes0) && left != []
    ensures Gathering(GatherStep(g, left[0], channel), left[1..], picked, kept, gathering, rest, bytes)
    ensures |rest| < |rest0|
  {
    PopLeft(left, rest0);
    var front, taken := rest0[0], false;
    rest, bytes := rest0[1..], bytes0;
    picked, kept, gathering, taken := GatherOne(front, picked0, kept0, gathering0, channel, g, left[0]);
    StepKeepsProper(g, left[0], channel, GatherStep(g, left[0], channel));
    if taken {
      bytes := bytes - front.bytes;
    }
  }

  lemma {:induction false} PopLeft(left: seq<Entry>, rest: seq<Queued>)
    requires Grouped(left) && Proper(left) && left != [] && rest == QueuedOf(left)
    ensures Grouped(left[1..]) && Proper(left[1..]) && ProperEntry(left[0])
    ensures rest[0] == Queued(left[0].bytes, |left[0].group|, left[0].event)
    ensures rest[1..] == QueuedOf(left[1..])
    ensures EntryBytes(left) == left[0].bytes + EntryBytes(left[1..])
  {
    EntryBytesFirst(left);
    ProperSuffix(left, 1);
  }

  const UNSORTED := Gathered([], [], true)

  lemma {:induction false} GatheringStarts(all: seq<Entry>, queue: seq<Queued>, bytes: nat, channel: Option<Text>)
    requires Grouped(all) && Proper(all) && queue == QueuedOf(all) && bytes == EntryBytes(all)
    ensures Gathering(UNSORTED, all, [], [], true, queue, bytes)
    ensures GatherFrom(UNSORTED, all, channel) == Gather(all, channel)
  {
    GatherFromStart([], all, channel);
    assert [] + all == all;
  }

  lemma {:induction false} GatheringEnds(g: Gathered, left: seq<Entry>, picked: seq<Event>, kept: seq<Queued>,
                                         gathering: bool, bytes: nat, channel: Option<Text>)
    requires Gathering(g, left, picked, kept, gathering, [], bytes)
    ensures GatherFrom(g, left, channel) == g
    ensures picked == EventsOf(g.picked) && kept == QueuedOf(g.kept) && bytes == EntryBytes(g.kept)
  {
  }

  /** The gather loop: pops every queued event into the frame or into what is kept, and gives
      back the bytes of those it kept. */
  method GatherLoop(queue: seq<Queued>, bytes0: nat, channel: Option<Text>, ghost all: seq<Entry>)
    returns (picked: seq<Event>, kept: seq<Queued>, bytes: nat, ghost g: Gathered)
    requires Grouped(all) && Proper(all) && queue == QueuedOf(all) && bytes0 == EntryBytes(all)
    ensures g == Gather(all, channel)
    ensures picked == EventsOf(g.picked) && kept == QueuedOf(g.kept) && bytes == EntryBytes(g.kept)
  {
    ghost var left := all;
    g := UNSORTED;
    var gathering, rest := true, queue;
    picked, kept, bytes := [], [], bytes0;
    GatheringStarts(all, queue, bytes, channel);
    while |rest| > 0
      invariant Gathering(g, left, picked, kept, gathering, rest, bytes)
      invariant GatherFrom(g, left, channel) == Gather(all, channel)
      decreases |rest|
    {
      picked, kept, gathering, rest, bytes := GatherPop(picked, kept, gathering, rest, bytes, channel, g, left);
      g, left := GatherStep(g, left[0], channel), left[1..];
    }
    assert rest == [];
    GatheringEnds(g, left, picked, kept, gathering, bytes, channel);
  }

  ghost predicate OverUntil(q: Queue, n: nat)
    requires Sound(q)
  {
    n <= |q.fifo| + |q.pending| && forall m | 0 <= m < n :: OverBudget(Drop(q, m))
  }

  lemma {:induction false} OverNext(q: Queue, n: nat)
    requires Sound(q) && OverUntil(q, n) && OverBudget(Drop(q, n))
    ensures OverUntil(q, n + 1)
  {
  }

  class ObserverPublishQueue {
    const coalescer: ChunkCoalescer
    var events: seq<Queued>
    var pendingBytes: nat
    var droppedEvents: nat
    /** The machine's queue entries, its history and its record of departures. */
    ghost var fifo: seq<Entry>
    ghost var hist: seq<Source>
    ghost var log: seq<Departure>

    ghost function Machine(): World
      reads this, coalescer
    {
      World(hist, Queue(fifo, coalescer.groups), log)
    }

    /** The queue holds what the machine's entries say, counted in bytes. */
    ghost predicate Holds()
      reads this
    {
      && Grouped(fifo) && Proper(fifo)
      && events == QueuedOf(fifo)
      && pendingBytes == EntryBytes(fifo)
    }

    ghost predicate Valid()
      reads this, coalescer
    {
      && coalescer.Valid() && Holds()
      && droppedEvents == EvictedSources(log)
    }

    constructor ()
      ensures Valid() && fresh(coalescer) && Machine() == START
    {
      coalescer := new ChunkCoalescer();
      events, pendingBytes, droppedEvents := [], 0, 0;
      fifo, hist, log := [], [], [];
    }

    method Ingest(event: Event)
      requires Valid()
      modifies this, coalescer
      ensures Valid() && Machine() == Ingested(old(Machine()), event)
    {
      Absorb(event, Observed(|hist|, event));
    }

    method Absorb(event: Event, ghost s: Source)
      requires Valid() && s == Observed(s.at, event)
      modifies this, coalescer
      ensures Valid() && Machine() == Absorbed(old(Machine()), s)
    {
      ghost var q := Arrive(Machine().queue, s);
      Receive(event, s);
      ghost var n := EnforceByteBudget(q);
    }

    method Receive(event: Event, ghost s: Source)
      requires Valid() && s == Observed(s.at, event)
      modifies this, coalescer
      ensures Valid() && log == old(log) && hist == old(hist) + [s]
      ensures Machine().queue == Arrive(old(Machine().queue), s)
    {
      hide Observed, SerializedLen, EnterAll;
      ghost var a := Accept(coalescer.groups, s);
      var ready, released := coalescer.Ingest(event, s);
      assert coalescer.groups == a.pending && released == a.released;
      EnqueueAll(ready, released);
      hist := hist + [s];
    }

    method EnqueueAll(ready: seq<Ready>, ghost released: seq<Group>)
      requires Holds() && Filled(released) && Releases(ready, released)
      modifies this`events, this`pendingBytes, this`fifo
      ensures Holds() && fifo == old(fifo) + EnterAll(released)
    {
      ghost var base := fifo;
      EnterNone(base, released);
      for i := 0 to |ready|
        invariant Holds() && fifo == base + EnterAll(released[..i])
      {
        assert ready[i] == ReadyOf(released[i]);
        Enqueue(ready[i].sourceEvents, ready[i].event, released[i]);
        EnterNext(base, released, i);
      }
      assert released[..|ready|] == released;
    }

    method Enqueue(sourceEvents: nat, event: Event, ghost g: Group)
      requires Holds() && g != [] && sourceEvents == |g| && event == Merged(g)
      modifies this`events, this`pendingBytes, this`fifo
      ensures Holds() && fifo == old(fifo) + [Enter(g)]
    {
      hide SerializedLen, Fit, Overhead, Recorded;
      ghost var elided;
      var fitted: Event;
      fitted, elided := FitToBudget(event);
      var bytes := SerializedLen(fitted);
      EntryBytesSnoc(fifo, Enter(g));
      ProperSnoc(fifo, Enter(g));
      pendingBytes := pendingBytes + bytes;
      events := events + [Queued(bytes, sourceEvents, fitted)];
      fifo := fifo + [Enter(g)];
    }

    method TotalPendingBytes() returns (n: nat)
      requires Valid()
      ensures n == TotalBytes(Machine().queue)
    {
      n := pendingBytes + coalescer.pendingBytes;
      RecordedAreBytes(coalescer.groups, coalescer.pending);
    }

    /** Drops the oldest retained entry; the count is the number of events it stood for. */
    method EvictOldest() returns (dropped: nat)
      requires Valid() && |fifo| + |coalescer.groups| > 0
      modifies this`events, this`pendingBytes, this`fifo, coalescer
      ensures Valid() && Machine().queue == Drop(old(Machine().queue), 1)
      ensures dropped == |Retained(old(Machine().queue))[0]|
    {
      hide Recorded, RecordedBytes, TotalBytes, EntryBytes;
      if |events| > 0 {
        var front := events[0];
        EntryBytesFirst(fifo);
        ProperSuffix(fifo, 1);
        events := events[1..];
        fifo := fifo[1..];
        pendingBytes := pendingBytes - front.bytes;
        dropped := front.sourceEvents;
      } else {
        var d := coalescer.DropOldest();
        dropped := d.value;
      }
    }

    method EnforceByteBudget(ghost q: Queue) returns (ghost n: nat)
      requires Valid() && q == Machine().queue
      modifies this, coalescer
      ensures Valid() && hist == old(hist) && n == ShedCount(q)
      ensures Machine().queue == Drop(q, n) && log == old(log) + [Evicted(Retained(q)[..n])]
    {
      var dropped;
      dropped, n := EvictWhileOver(q);
      RecordEviction(dropped, Retained(q)[..n]);
    }

    method RecordEviction(dropped: nat, ghost gone: seq<Group>)
      requires Valid() && dropped == SourceCount(gone)
      modifies this`droppedEvents, this`log
      ensures Valid() && log == old(log) + [Evicted(gone)]
    {
      LogGrows(log, Evicted(gone));
      if dropped > 0 {
        droppedEvents := droppedEvents + dropped;
      }
      log := log + [Evicted(gone)];
    }

    method EvictWhileOver(ghost q: Queue) returns (dropped: nat, ghost n: nat)
      requires Valid() && q == Machine().queue
      modifies this`events, this`pendingBytes, this`fifo, coalescer
      ensures Valid() && n == ShedCount(q) && Machine().queue == Drop(q, n)
      ensures dropped == SourceCount(Retained(q)[..n])
    {
      hide TotalBytes, EntryBytes, RecordedBytes;
      dropped, n := 0, 0;
      var total := TotalPendingBytes();
      while total > BUDGET && |events| + |coalescer.pending| > 1
        invariant Valid() && OverUntil(q, n)
        invariant Machine().queue == Drop(q, n)
        invariant total == TotalBytes(Machine().queue)
        invariant dropped == SourceCount(Retained(q)[..n])
        decreases |events| + |coalescer.pending|
      {
        assert OverBudget(Machine().queue);
        OverNext(q, n);
        var d := EvictNext(q, n);
        dropped := dropped + d;
        n := n + 1;
        total := TotalPendingBytes();
      }
      ShedCountIs(q, n);
    }

    /** Evicts one entry of `q` when `n` have gone before it. */
    method EvictNext(ghost q: Queue, ghost n: nat) returns (d: nat)
      requires Valid() && Sound(q) && n < |q.fifo| + |q.pending| && Machine().queue == Drop(q, n)
      modifies this`events, this`pendingBytes, this`fifo, coalescer
      ensures Valid() && Machine().queue == Drop(q, n + 1)
      ensures |events| + |coalescer.pending| < old(|events| + |coalescer.pending|)
      ensures SourceCount(Retained(q)[..n + 1]) == SourceCount(Retained(q)[..n]) + d
    {
      DropNext(q, n);
      CountNext(Retained(q), n);
      d := EvictOldest();
    }

    method IsEmpty() returns (empty: bool)
      requires Valid()
      ensures empty <==> Retained(Machine().queue) == []
    {
      empty := |events| == 0 && |coalescer.pending| == 0;
    }

    method NextFrame() returns (frame: Option<Event>, ghost shipped: seq<Group>)
      requires Valid()
      modifies this, coalescer
      ensures Valid() && Machine() == Ticked(old(Machine()))
      ensures frame.None? <==> Retained(old(Machine().queue)) == []
      ensures frame.None? ==> log == old(log)
      ensures frame.Some? ==> log == old(log) + [Shipped(shipped)]
                              && Filled(shipped) && shipped != [] && frame.value == FrameOf(shipped)
    {
      hide Ticked, Gather, FrameOf, EnterAll;
      ghost var w := Machine();
      FlushPending();
      TickedIs(w, fifo);
      if |events| == 0 {
        return None, [];
      }
      ghost var g;
      frame, g := ShipFrame(fifo);
      shipped := GroupsOf(g.picked);
      TickedTo(w, g, Machine());
    }

    /** The rest of a publish slot, once the pending chunks are flushed. */
    method ShipFrame(ghost all: seq<Entry>) returns (frame: Option<Event>, ghost g: Gathered)
      requires Valid() && all == fifo && all != []
      modifies this`events, this`pendingBytes, this`fifo, this`log
      ensures Valid() && g == Gather(all, ChannelOf(all[0].group)) && g.picked != []
      ensures fifo == g.kept && log == old(log) + [Shipped(GroupsOf(g.picked))]
      ensures frame == Some(FrameOf(GroupsOf(g.picked)))
    {
      frame, g := PackFrame(all);
      LogGrows(old(log), Shipped(GroupsOf(g.picked)));
    }

    /** Packs the frame of the front event's channel. */
    method PackFrame(ghost all: seq<Entry>) returns (frame: Option<Event>, ghost g: Gathered)
      requires Holds() && all == fifo && all != []
      modifies this`events, this`pendingBytes, this`fifo, this`log
      ensures Holds() && g == Gather(all, ChannelOf(all[0].group)) && g.picked != []
      ensures fifo == g.kept && log == old(log) + [Shipped(GroupsOf(g.picked))]
      ensures frame == Some(FrameOf(GroupsOf(g.picked)))
    {
      hide Gather, FrameOf, EntryBytes;
      FrontChannel(all);
      var channel := events[0].event.channelId;
      var picked;
      picked, events, pendingBytes, g := GatherLoop(events, pendingBytes, channel, all);
      SlotFrame(all, channel, g);
      fifo, log := g.kept, log + [Shipped(GroupsOf(g.picked))];
      frame := Some(SealBatch(picked));
    }

    /** Moves every pending chunk entry behind the queued events. */
    method FlushPending()
      requires Valid()
      modifies this, coalescer
      ensures Valid() && log == old(log) && hist == old(hist)
      ensures Machine().queue == Queue(Flushed(old(Machine().queue)), [])
    {
      hide EnterAll, ReadyOf, Merged, Recorded;
      var ready, released := coalescer.Flush();
      EnqueueAll(ready, released);
    }
  }
}
