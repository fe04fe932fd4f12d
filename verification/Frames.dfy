/** The frames that ship: each entry's event and size are those its group determines, a
    frame has one channel, and an envelope of two or more fits the cap. */
module Frames {
  import opened Text
  import opened Events
  import opened Trim
  import opened Groups
  import opened Pipeline
  import opened GatherProofs

  ghost predicate ProperEntry(e: Entry)
    requires e.group != []
  {
    e == Enter(e.group)
  }

  /** Every entry is the one its group determines. */
  ghost predicate Proper(es: seq<Entry>)
    requires Grouped(es)
  {
    forall i {:trigger ProperEntry(es[i])} | 0 <= i < |es| :: ProperEntry(es[i])
  }

  lemma {:induction false} ProperSnoc(es: seq<Entry>, e: Entry)
    requires Grouped(es) && e.group != []
    ensures Grouped(es + [e])
    ensures Proper(es) && ProperEntry(e) ==> Proper(es + [e])
  {
    if Proper(es) && ProperEntry(e) {
      forall i | 0 <= i < |es + [e]|
        ensures ProperEntry((es + [e])[i])
      {
        if i < |es| { assert ProperEntry(es[i]); }
      }
    }
  }

  lemma {:induction false} ProperConcat(a: seq<Entry>, b: seq<Entry>)
    requires Grouped(a) && Grouped(b) && Proper(a) && Proper(b)
    ensures Grouped(a + b) && Proper(a + b)
  {
    forall i | 0 <= i < |a + b|
      ensures ProperEntry((a + b)[i])
    {
      if i < |a| { assert ProperEntry(a[i]); } else { assert ProperEntry(b[i - |a|]); }
    }
  }

  lemma {:induction false} ProperSuffix(es: seq<Entry>, n: nat)
    requires Grouped(es) && Proper(es) && n <= |es|
    ensures Grouped(es[n..]) && Proper(es[n..])
  {
    forall i | 0 <= i < |es[n..]|
      ensures ProperEntry(es[n..][i])
    {
      assert ProperEntry(es[n + i]);
    }
  }

  lemma {:induction false} ProperPrefix(es: seq<Entry>, n: nat)
    requires Grouped(es) && Proper(es) && n <= |es|
    ensures Grouped(es[..n]) && Proper(es[..n])
  {
    hide ProperEntry;
    assert forall i | 0 <= i < n :: ProperEntry(es[i]);
  }

  lemma {:induction false} EnterAllAt(gs: seq<Group>, i: nat)
    requires Filled(gs) && i < |gs|
    ensures EnterAll(gs)[i] == Enter(gs[i])
  {
    if i > 0 {
      EnterAllAt(gs[1..], i - 1);
    }
  }

  lemma {:induction false} EnterAllProper(gs: seq<Group>)
    requires Filled(gs)
    ensures Grouped(EnterAll(gs)) && Proper(EnterAll(gs))
  {
    var es := EnterAll(gs);
    forall i | 0 <= i < |es|
      ensures ProperEntry(es[i])
    {
      EnterAllAt(gs, i);
    }
  }

  lemma {:induction false} ProperIsEnterAll(es: seq<Entry>)
    requires Grouped(es) && Proper(es)
    ensures EnterAll(GroupsOf(es)) == es
  {
    forall i | 0 <= i < |es|
      ensures EnterAll(GroupsOf(es))[i] == es[i]
    {
      EnterAllAt(GroupsOf(es), i);
      assert ProperEntry(es[i]);
    }
  }

  /** What an entry's fields are. Trimming never moves an event to another channel. */
  lemma {:induction false} EnterFacts(e: Entry)
    requires e.group != [] && ProperEntry(e)
    ensures e.bytes == SerializedLen(e.event)
    ensures e.overhead == Overhead(e.event)
    ensures e.event == Fit(Merged(e.group))
    ensures e.event.channelId == ChannelOf(e.group)
  {
    TrimmedFloor(Merged(e.group));
  }

  function EventsOf(es: seq<Entry>): (r: seq<Event>)
    ensures |r| == |es| && forall i | 0 <= i < |es| :: r[i] == es[i].event
  {
    seq(|es|, i requires 0 <= i < |es| => es[i].event)
  }

  lemma {:induction false} SerializedSumSnoc(es: seq<Event>, e: Event)
    ensures SerializedSum(es + [e]) == SerializedSum(es) + SerializedLen(e)
  {
    if es == [] {
      assert es + [e] == [e];
      assert [e][1..] == [];
    } else {
      assert (es + [e])[1..] == es[1..] + [e];
      SerializedSumSnoc(es[1..], e);
    }
  }

  lemma {:induction false} EntryBytesAreSerialized(es: seq<Entry>)
    requires Grouped(es) && Proper(es)
    ensures EntryBytes(es) == SerializedSum(EventsOf(es))
  {
    if es != [] {
      hide SerializedSum, EventsOf, Enter;
      var (front, e) := (Front(es), Last(es));
      ProperPrefix(es, |front|);
      EntryBytesAreSerialized(front);
      LastIsSerialized(front, e, es);
    }
  }

  lemma {:induction false} LastIsSerialized(front: seq<Entry>, e: Entry, es: seq<Entry>)
    requires Grouped(es) && Proper(es) && es == front + [e]
    ensures SerializedSum(EventsOf(es)) == SerializedSum(EventsOf(front)) + e.bytes
  {
    assert ProperEntry(es[|front|]);
    EnterFacts(e);
    SerializedSumSnoc(EventsOf(front), e.event);
    assert EventsOf(es) == EventsOf(front) + [e.event];
  }

  /** The length the gather loop compares with the cap is that of the real envelope. */
  lemma {:induction false} FrameLenIsSerialized(es: seq<Entry>)
    requires Grouped(es) && Proper(es) && es != []
    ensures FrameLen(es) == SerializedLen(BatchEnvelope(EventsOf(es)))
  {
    EntryBytesAreSerialized(es);
    assert ProperEntry(es[|es| - 1]);
    EnterFacts(Last(es));
    EnvelopeLen(EventsOf(es));
  }

  lemma {:induction false} StepKeepsProper(a: Gathered, e: Entry, c: Option<Text>, b: Gathered)
    requires Grouped(a.picked) && Grouped(a.kept) && e.group != [] && b == GatherStep(a, e, c)
    requires Proper(a.picked) && Proper(a.kept) && ProperEntry(e)
    ensures Grouped(b.picked) && Grouped(b.kept) && Proper(b.picked) && Proper(b.kept)
  {
    ProperSnoc(a.picked, e);
    ProperSnoc(a.kept, e);
    assert b.picked == a.picked || b.picked == a.picked + [e];
    assert b.kept == a.kept || b.kept == a.kept + [e];
  }

  lemma {:induction false} GatherKeepsProper(es: seq<Entry>, c: Option<Text>)
    requires Grouped(es) && Proper(es)
    ensures Proper(Gather(es, c).picked) && Proper(Gather(es, c).kept)
  {
    hide GatherStep, ProperEntry, Enter;
    if es != [] {
      assert ProperEntry(es[|es| - 1]);
      var front := Front(es);
      assert Proper(front) by { assert forall i | 0 <= i < |front| :: ProperEntry(es[i]) && front[i] == es[i]; }
      GatherKeepsProper(front, c);
      StepKeepsProper(Gather(Front(es), c), Last(es), c, Gather(es, c));
    }
  }

  // ------------------------------------------------------- every run

  /** The event a slot publishes for the groups it ships. */
  function FrameOf(gs: seq<Group>): Event
    requires gs != [] && Filled(gs)
  {
    SealBatch(EventsOf(EnterAll(gs)))
  }

  /** A frame has one channel, its own, and fits the cap if it is an envelope. */
  ghost predicate GoodFrame(gs: seq<Group>) {
    && gs != [] && Filled(gs)
    && (forall i | 0 <= i < |gs| :: ChannelOf(gs[i]) == ChannelOf(gs[0]))
    && FrameOf(gs).channelId == ChannelOf(gs[0])
    && (|gs| > 1 ==> SerializedLen(FrameOf(gs)) <= CAP)
    && (|gs| == 1 ==> FrameOf(gs) == Fit(Merged(gs[0])))
  }

  lemma {:induction false} SealedEntries(picked: seq<Entry>, c: Option<Text>)
    requires Grouped(picked) && Proper(picked) && picked != []
    requires forall i | 0 <= i < |picked| :: ChannelOf(picked[i].group) == c
    ensures var f := SealBatch(EventsOf(picked));
            && f.channelId == c
            && (|picked| > 1 ==> SerializedLen(f) == FrameLen(picked))
            && (|picked| == 1 ==> f == Fit(Merged(picked[0].group)))
  {
    hide FrameLen, SerializedLen, Fit, Merged, Enter;
    FrameLenIsSerialized(picked);
    assert ProperEntry(picked[0]) && ProperEntry(picked[|picked| - 1]);
    EnterFacts(picked[0]);
    EnterFacts(Last(picked));
    EnvelopeCarriesEvents(EventsOf(picked));
  }

  lemma {:induction false} PickedFrame(es: seq<Entry>, c: Option<Text>, picked: seq<Entry>)
    requires Grouped(es) && Proper(es) && es != [] && c == ChannelOf(es[0].group)
    requires picked == Gather(es, c).picked
    ensures GoodFrame(GroupsOf(picked))
  {
    hide SealBatch, FrameLen, SerializedLen, Gather, EnterAll, Merged, Fit;
    GatherTakesFront(es, c);
    GatherKeepsProper(es, c);
    ProperIsEnterAll(picked);
    SealedEntries(picked, c);
  }

  ghost predicate GoodLog(log: seq<Departure>) {
    forall i | 0 <= i < |log| && log[i].Shipped? :: GoodFrame(log[i].groups)
  }

  lemma {:induction false} DropKeepsProper(q: Queue, n: nat)
    requires Sound(q) && Proper(q.fifo) && n <= |q.fifo| + |q.pending|
    ensures Proper(Drop(q, n).fifo)
  {
    if n <= |q.fifo| {
      ProperSuffix(q.fifo, n);
    }
  }

  lemma {:induction false} AbsorbKeepsProper(w: World, s: Source)
    requires Sound(w.queue) && Proper(w.queue.fifo) && GoodLog(w.log)
    ensures Proper(Absorbed(w, s).queue.fifo) && GoodLog(Absorbed(w, s).log)
  {
    hide Enter, ProperEntry, GoodFrame, EnterAll, Recorded;
    var q, released := Arrive(w.queue, s), Accept(w.queue.pending, s).released;
    EnterAllProper(released);
    ProperConcat(w.queue.fifo, EnterAll(released));
    DropKeepsProper(q, ShedCount(q));
  }

  lemma {:induction false} TickKeepsProper(w: World)
    requires Sound(w.queue) && Proper(w.queue.fifo) && GoodLog(w.log)
    ensures Proper(Ticked(w).queue.fifo) && GoodLog(Ticked(w).log)
  {
    hide Enter, ProperEntry, GoodFrame, EnterAll, Gather;
    EnterAllProper(w.queue.pending);
    ProperConcat(w.queue.fifo, EnterAll(w.queue.pending));
    var all := Flushed(w.queue);
    if all != [] {
      var c := ChannelOf(all[0].group);
      GatherKeepsProper(all, c);
      PickedFrame(all, c, Gather(all, c).picked);
    }
  }

  /** Every frame of every run is good. */
  lemma {:induction false} RunShipsGoodFrames(ops: seq<Op>)
    ensures Proper(Run(ops).queue.fifo) && GoodLog(Run(ops).log)
  {
    if ops != [] {
      RunShipsGoodFrames(Front(ops));
      var w := Run(Front(ops));
      match Last(ops)
      case Ingest(e) => AbsorbKeepsProper(w, Observed(|w.hist|, e));
      case Tick => TickKeepsProper(w);
    }
  }
}
