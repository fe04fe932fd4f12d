/** The in-process observer bus (`ObserverHandle`) and the loop that feeds the publish queue
    from its replay buffer and its live channel. */
module ObserverBus {
  import opened Text
  import opened Json
  import opened Events
  import opened Groups
  import opened Pipeline
  import opened PipelineProofs
  import opened Frames
  import opened PublishQueue

  /** OBSERVER_BUFFER_CAP */
  const BUFFER_CAP: nat := 1_000

  datatype Context = Context(
    channelId: Option<Text>, sessionId: Option<Text>, turnId: Option<Text>, startedAt: Option<Text>)

  /** The replay buffer after the events `es` were emitted: the newest BUFFER_CAP of them. */
  function Replay(es: seq<Event>): seq<Event> {
    if |es| <= BUFFER_CAP then es else es[|es| - BUFFER_CAP..]
  }

  /** Sequence numbers count from one. */
  ghost predicate Stamped(es: seq<Event>) {
    forall i | 0 <= i < |es| :: es[i].seq_ == i + 1
  }

  /** A receiver of the live channel: how many events sent on it lie behind the receiver. */
  datatype Receiver = Receiver(next: nat)

  /** One emit is one step: the number it takes and the push it makes are not separated here. */
  class ObserverHandle {
    var nextSeq: nat
    var buffer: seq<Event>
    /** Every event sent on the live channel, in order. */
    var emitted: seq<Event>

    ghost predicate Valid()
      reads this
    {
      Stamped(emitted) && nextSeq == |emitted| + 1 && buffer == Replay(emitted)
    }

    constructor InProcess()
      ensures Valid() && emitted == []
    {
      nextSeq, buffer, emitted := 1, [], [];
    }

    method Emit(kind: Text, agentIndex: Option<nat>, context: Context, payload: Json, now: Text)
      requires Valid()
      modifies this
      ensures Valid()
      ensures emitted == old(emitted) + [Event(|old(emitted)| + 1, now, kind, agentIndex, context.channelId,
                context.sessionId, context.turnId, context.startedAt, payload)]
    {
      var event := Event(nextSeq, now, kind, agentIndex, context.channelId,
                         context.sessionId, context.turnId, context.startedAt, payload);
      nextSeq := nextSeq + 1;
      if |buffer| >= BUFFER_CAP {
        buffer := buffer[1..];
      }
      buffer := buffer + [event];
      emitted := emitted + [event];
    }

    /** The replay buffer as it stands. */
    method Snapshot() returns (events: seq<Event>)
      requires Valid()
      ensures events == Replay(emitted)
    {
      events := buffer;
    }

    /** A new receiver: nothing sent so far reaches it. */
    method Subscribe() returns (rx: Receiver)
      requires Valid()
      ensures rx == Receiver(|emitted|)
    {
      rx := Receiver(|emitted|);
    }

    /** `recv`, when no event has been lost: the next event sent, if there is one yet. */
    method Recv(rx: Receiver) returns (event: Option<Event>, left: Receiver)
      requires Valid() && rx.next <= |emitted|
      ensures left.next <= |emitted|
      ensures emitted[rx.next..] == (if event.Some? then [event.value] else []) + emitted[left.next..]
      ensures event.None? ==> rx.next == |emitted|
    {
      if rx.next == |emitted| {
        return None, rx;
      }
      event, left := Some(emitted[rx.next]), Receiver(rx.next + 1);
    }
  }

  /** Reading a receiver empty yields what was sent since it was made, once each and in order. */
  method ReceiveAll(bus: ObserverHandle, rx: Receiver) returns (events: seq<Event>)
    requires bus.Valid() && rx.next <= |bus.emitted|
    ensures events == bus.emitted[rx.next..]
  {
    events := [];
    var at := rx;
    var event: Option<Event>;
    event, at := bus.Recv(at);
    while event.Some?
      invariant at.next <= |bus.emitted| && (event.None? ==> at.next == |bus.emitted|)
      invariant bus.emitted[rx.next..] == events + (if event.Some? then [event.value] else []) + bus.emitted[at.next..]
      decreases |bus.emitted| - at.next, event.Some?
    {
      events := events + [event.value];
      ghost var before := at;
      event, at := bus.Recv(at);
      NextReceived(bus.emitted, rx.next, before.next, events, if event.Some? then [event.value] else [], at.next);
    }
    assert bus.emitted[at.next..] == [];
  }

  lemma {:induction false} NextReceived(sent: seq<Event>, from: nat, at: nat, events: seq<Event>, more: seq<Event>, left: nat)
    requires from <= |sent| && at <= |sent| && left <= |sent|
    requires sent[from..] == events + sent[at..] && sent[at..] == more + sent[left..]
    ensures sent[from..] == events + more + sent[left..]
    ensures more != [] ==> at < left || |sent| - left < |sent| - at
  {
    assert |sent[at..]| == |more| + |sent[left..]|;
  }

  // --------------------------------------------------------- hand-off

  function MaxSeq(es: seq<Event>): nat {
    if es == [] then 0
    else if Last(es).seq_ > MaxSeq(Front(es)) then Last(es).seq_ else MaxSeq(Front(es))
  }

  /** The live events the publisher does not take for repeats of the snapshot. */
  function After(max: nat, es: seq<Event>): seq<Event> {
    if es == [] then [] else After(max, Front(es)) + if Last(es).seq_ <= max then [] else [Last(es)]
  }

  lemma {:induction false} MaxOfRun(es: seq<Event>, n: nat)
    requires forall i | 0 <= i < |es| :: es[i].seq_ == n + i + 1
    ensures MaxSeq(es) == if es == [] then 0 else n + |es|
  {
    if es != [] {
      MaxOfRun(Front(es), n);
    }
  }

  lemma {:induction false} AfterRun(max: nat, es: seq<Event>, n: nat)
    requires forall i | 0 <= i < |es| :: es[i].seq_ == n + i + 1
    requires n <= max
    ensures After(max, es) == if |es| <= max - n then [] else es[max - n..]
  {
    if es != [] {
      AfterRun(max, Front(es), n);
      assert Last(es).seq_ == n + |es|;
      if |es| > max - n {
        assert es[max - n..] == Front(es)[max - n..] + [Last(es)];
      }
    }
  }

  lemma {:induction false} SnapshotRun(emitted: seq<Event>, at: nat, start: nat)
    requires Stamped(emitted) && at <= |emitted| && start == if at <= BUFFER_CAP then 0 else at - BUFFER_CAP
    ensures Replay(emitted[..at]) == emitted[start..at]
    ensures MaxSeq(Replay(emitted[..at])) == at
  {
    MaxOfRun(emitted[start..at], start);
  }

  lemma {:induction false} LiveRun(emitted: seq<Event>, from: nat, at: nat)
    requires Stamped(emitted) && from <= at <= |emitted|
    ensures After(at, emitted[from..]) == emitted[at..]
  {
    AfterRun(at, emitted[from..], from);
  }

  /** Subscribe, then snapshot: whatever was emitted before, between and after the two calls,
      the publisher ingests the replay buffer as the snapshot found it followed by every
      later event, that is one unbroken run of what was emitted, each event once and in order. */
  lemma {:induction false} HandOff(emitted: seq<Event>, subscribed: nat, snapshotAt: nat, start: nat)
    requires Stamped(emitted) && subscribed <= snapshotAt <= |emitted|
    requires start == if snapshotAt <= BUFFER_CAP then 0 else snapshotAt - BUFFER_CAP
    ensures var snapshot := Replay(emitted[..snapshotAt]);
            snapshot + After(MaxSeq(snapshot), emitted[subscribed..]) == emitted[start..]
  {
    hide Replay, MaxSeq, After, Stamped;
    SnapshotRun(emitted, snapshotAt, start);
    LiveRun(emitted, subscribed, snapshotAt);
    assert emitted[start..snapshotAt] + emitted[snapshotAt..] == emitted[start..];
  }

  ghost predicate Increasing(es: seq<Event>) {
    forall i, j | 0 <= i < j < |es| :: es[i].seq_ < es[j].seq_
  }

  lemma {:induction false} AfterIsLater(max: nat, es: seq<Event>)
    requires Increasing(es)
    ensures Increasing(After(max, es))
    ensures forall i | 0 <= i < |After(max, es)| :: max < After(max, es)[i].seq_
    ensures es != [] ==> forall i | 0 <= i < |After(max, es)| :: After(max, es)[i].seq_ <= Last(es).seq_
  {
    if |es| > 1 {
      AfterIsLater(max, Front(es));
      assert Last(Front(es)) == es[|es| - 2];
    }
  }

  lemma {:induction false} SeqsBelowMax(es: seq<Event>)
    ensures forall i | 0 <= i < |es| :: es[i].seq_ <= MaxSeq(es)
  {
    if es != [] {
      SeqsBelowMax(Front(es));
    }
  }

  /** Even when the receiver lags and loses events, what is ingested never repeats and never
      goes back. */
  lemma {:induction false} LagNeverRepeats(snapshot: seq<Event>, live: seq<Event>)
    requires Increasing(snapshot) && Increasing(live)
    ensures Increasing(snapshot + After(MaxSeq(snapshot), live))
  {
    AfterIsLater(MaxSeq(snapshot), live);
    SeqsBelowMax(snapshot);
  }

  // ----------------------------------------------------- publisher loop

  /** What the publisher's select can see. */
  datatype Wakeup = Live(event: Event) | Lagged(count: nat) | Closed | Timer

  /** The events among the first wakeups that come from the live channel while it is open. */
  function LiveEvents(ws: seq<Wakeup>): seq<Event> {
    if ws == [] then []
    else LiveEvents(Front(ws)) + if Last(ws).Live? && Closed !in Front(ws) then [Last(ws).event] else []
  }

  /** The events the operations ingest. */
  function InputsOf(ops: seq<Op>): seq<Event> {
    if ops == [] then [] else InputsOf(Front(ops)) + if Last(ops).Ingest? then [Last(ops).event] else []
  }

  /** What the loop does at one wakeup: it ingests a new live event while the channel is open,
      and publishes at the timer, at nothing else. */
  function OpOf(max: nat, closed: bool, w: Wakeup): seq<Op> {
    match w
    case Live(event) => if !closed && event.seq_ > max then [Op.Ingest(event)] else []
    case Timer => [Tick]
    case _ => []
  }

  function OpsOf(max: nat, ws: seq<Wakeup>): seq<Op> {
    if ws == [] then [] else OpsOf(max, Front(ws)) + OpOf(max, Closed in Front(ws), Last(ws))
  }

  function Loads(snapshot: seq<Event>): seq<Op> {
    if snapshot == [] then [] else Loads(Front(snapshot)) + [Op.Ingest(Last(snapshot))]
  }

  /** Everything the publisher does with a snapshot and a list of wakeups. */
  function PublisherOps(snapshot: seq<Event>, ws: seq<Wakeup>): seq<Op> {
    Loads(snapshot) + OpsOf(MaxSeq(snapshot), ws)
  }

  /** The publisher ends after `n` wakeups: the last was the timer, with the channel closed
      before it, and it left the queue empty. */
  ghost predicate Stops(snapshot: seq<Event>, ws: seq<Wakeup>, n: nat) {
    && 0 < n <= |ws| && ws[n - 1] == Timer && Closed in ws[..n - 1]
    && Retained(Run(PublisherOps(snapshot, ws[..n])).queue) == []
  }

  /** The publisher has not ended before `used` wakeups. */
  ghost predicate KeptGoing(snapshot: seq<Event>, ws: seq<Wakeup>, used: nat) {
    forall n: nat | n < used :: !Stops(snapshot, ws, n)
  }

  /** The frames of the departures, in order. */
  function FramesOf(log: seq<Departure>): seq<Event> {
    if log == [] then [] else FramesOf(Front(log)) + FrameAt(Last(log))
  }

  function FrameAt(d: Departure): seq<Event> {
    if d.Shipped? && d.groups != [] && Unfilled(d.groups) == 0 then [FrameOf(d.groups)] else []
  }

  /** How many of the groups are empty: none that ever ship. */
  function Unfilled(gs: seq<Group>): (n: nat)
    ensures n == 0 <==> Filled(gs)
  {
    if gs == [] then 0 else (if gs[0] == [] then 1 else 0) + Unfilled(gs[1..])
  }

  lemma {:induction false} RunSnoc(ops: seq<Op>, op: Op)
    ensures Run(ops + [op]) == Step(Run(ops), op)
    ensures InputsOf(ops + [op]) == InputsOf(ops) + if op.Ingest? then [op.event] else []
  {
    assert Front(ops + [op]) == ops;
  }

  /** The history of a run is what it ingested, in order. */
  lemma {:induction false} HistoryIsInput(ops: seq<Op>)
    ensures |Run(ops).hist| == |InputsOf(ops)|
    ensures forall i | 0 <= i < |InputsOf(ops)| :: Run(ops).hist[i] == Observed(i, InputsOf(ops)[i])
  {
    hide Step, Observed;
    if ops != [] {
      HistoryIsInput(Front(ops));
      HistoryGrows(Run(Front(ops)), Last(ops));
    }
  }

  lemma {:induction false} TakeNext<T>(s: seq<T>, i: nat)
    requires i < |s|
    ensures s[..i + 1] != [] && Front(s[..i + 1]) == s[..i] && Last(s[..i + 1]) == s[i]
  {
  }

  lemma {:induction false} FramesGrow(log: seq<Departure>, d: Departure)
    ensures FramesOf(log + [d]) == FramesOf(log) + FrameAt(d)
  {
    assert Front(log + [d]) == log;
  }

  /** The queue stands for `w`, and `frames` are what it published. */
  ghost predicate Serves(queue: ObserverPublishQueue, w: World, frames: seq<Event>)
    reads queue, queue.coalescer
  {
    queue.Valid() && queue.Machine() == w && frames == FramesOf(w.log)
  }

  method IngestOne(queue: ObserverPublishQueue, event: Event, ghost w: World, ghost frames: seq<Event>)
    requires Serves(queue, w, frames)
    modifies queue, queue.coalescer
    ensures Sound(w.queue) && Serves(queue, Ingested(w, event), frames)
  {
    hide FramesOf, Observed, SerializedLen;
    queue.Ingest(event);
    FramesGrow(w.log, Last(queue.log));
    assert FrameAt(Last(queue.log)) == [];
  }

  method TickOne(queue: ObserverPublishQueue, ghost w: World, frames0: seq<Event>)
    returns (frames: seq<Event>, empty: bool)
    requires Serves(queue, w, frames0)
    modifies queue, queue.coalescer
    ensures Sound(w.queue) && Serves(queue, Ticked(w), frames)
    ensures empty <==> Retained(Ticked(w).queue) == []
  {
    hide Ticked, FramesOf, FrameOf;
    var frame;
    ghost var shipped;
    frame, shipped := queue.NextFrame();
    frames := frames0;
    if frame.Some? {
      FramesGrow(w.log, Shipped(shipped));
      frames := frames + [frame.value];
    }
    empty := queue.IsEmpty();
  }

  /** Ingests the snapshot and finds its highest sequence number. */
  method Preload(queue: ObserverPublishQueue, snapshot: seq<Event>) returns (max: nat)
    requires Serves(queue, START, [])
    modifies queue, queue.coalescer
    ensures Serves(queue, Run(Loads(snapshot)), []) && max == MaxSeq(snapshot)
  {
    max := 0;
    for i := 0 to |snapshot|
      invariant Serves(queue, Run(Loads(snapshot[..i])), [])
      invariant max == MaxSeq(snapshot[..i])
    {
      NextOfSnapshot(snapshot, i);
      if snapshot[i].seq_ > max {
        max := snapshot[i].seq_;
      }
      RunSnoc(Loads(snapshot[..i]), Op.Ingest(snapshot[i]));
      IngestOne(queue, snapshot[i], Run(Loads(snapshot[..i])), []);
    }
    assert snapshot[..|snapshot|] == snapshot;
  }

  lemma {:induction false} NextOfSnapshot(snapshot: seq<Event>, i: nat)
    requires i < |snapshot|
    ensures Loads(snapshot[..i + 1]) == Loads(snapshot[..i]) + [Op.Ingest(snapshot[i])]
    ensures MaxSeq(snapshot[..i + 1])
         == if snapshot[i].seq_ > MaxSeq(snapshot[..i]) then snapshot[i].seq_ else MaxSeq(snapshot[..i])
  {
    TakeNext(snapshot, i);
  }

  lemma {:induction false} AfterNext(max: nat, es: seq<Event>, e: Event)
    ensures After(max, es + [e]) == After(max, es) + if e.seq_ <= max then [] else [e]
  {
    assert Front(es + [e]) == es;
  }

  /** What one wakeup adds to the live events seen so far. */
  lemma {:induction false} NextLive(ws: seq<Wakeup>, i: nat)
    requires i < |ws|
    ensures LiveEvents(ws[..i + 1])
         == LiveEvents(ws[..i]) + if ws[i].Live? && Closed !in ws[..i] then [ws[i].event] else []
    ensures Closed in ws[..i + 1] <==> Closed in ws[..i] || ws[i] == Closed
  {
    TakeNext(ws, i);
    assert ws[..i + 1] == ws[..i] + [ws[i]];
  }

  /** What the publisher ingests after the snapshot. */
  function Fed(max: nat, ws: seq<Wakeup>): seq<Event> { After(max, LiveEvents(ws)) }

  lemma {:induction false} FedNext(max: nat, ws: seq<Wakeup>, i: nat)
    requires i < |ws|
    ensures Closed in ws[..i + 1] <==> Closed in ws[..i] || ws[i] == Closed
    ensures Fed(max, ws[..i + 1])
         == Fed(max, ws[..i])
            + if ws[i].Live? && Closed !in ws[..i] && ws[i].event.seq_ > max then [ws[i].event] else []
  {
    NextLive(ws, i);
    if ws[i].Live? && Closed !in ws[..i] {
      AfterNext(max, LiveEvents(ws[..i]), ws[i].event);
    } else {
      assert LiveEvents(ws[..i + 1]) == LiveEvents(ws[..i]);
    }
  }

  lemma {:induction false} OpsNext(snapshot: seq<Event>, max: nat, ws: seq<Wakeup>, i: nat, closed: bool)
    requires i < |ws| && (closed <==> Closed in ws[..i]) && max == MaxSeq(snapshot)
    ensures PublisherOps(snapshot, ws[..i + 1]) == PublisherOps(snapshot, ws[..i]) + OpOf(max, closed, ws[i])
    ensures Closed in ws[..i + 1] <==> closed || ws[i] == Closed
  {
    TakeNext(ws, i);
    assert ws[..i + 1] == ws[..i] + [ws[i]];
    Associative(Loads(snapshot), OpsOf(max, ws[..i]), OpOf(max, closed, ws[i]));
  }

  lemma {:induction false} InputsConcat(a: seq<Op>, b: seq<Op>)
    ensures InputsOf(a + b) == InputsOf(a) + InputsOf(b)
  {
    if b == [] {
      assert a + b == a && InputsOf(a) + [] == InputsOf(a);
    } else {
      InputsConcat(a, Front(b));
      assert Front(a + b) == a + Front(b) && Last(a + b) == Last(b);
      Associative(InputsOf(a), InputsOf(Front(b)), if Last(b).Ingest? then [Last(b).event] else []);
    }
  }

  lemma {:induction false} LoadsInputs(snapshot: seq<Event>)
    ensures InputsOf(Loads(snapshot)) == snapshot
  {
    if snapshot != [] {
      LoadsInputs(Front(snapshot));
      InputsConcat(Loads(Front(snapshot)), [Op.Ingest(Last(snapshot))]);
      InputsOfOne(Op.Ingest(Last(snapshot)));
      assert snapshot == Front(snapshot) + [Last(snapshot)];
    }
  }

  lemma {:induction false} InputsOfOne(op: Op)
    ensures InputsOf([op]) == if op.Ingest? then [op.event] else []
  {
    assert Front([op]) == [];
  }

  lemma {:induction false} OpInputs(max: nat, closed: bool, w: Wakeup)
    ensures InputsOf(OpOf(max, closed, w)) == if w.Live? && !closed && w.event.seq_ > max then [w.event] else []
  {
    if OpOf(max, closed, w) != [] {
      InputsOfOne(OpOf(max, closed, w)[0]);
    }
  }

  lemma {:induction false} OpsInputs(max: nat, ws: seq<Wakeup>)
    ensures InputsOf(OpsOf(max, ws)) == Fed(max, ws)
  {
    hide OpOf;
    if ws != [] {
      hide InputsOf, OpOf, Fed;
      var front, w := Front(ws), Last(ws);
      OpsInputs(max, front);
      InputsConcat(OpsOf(max, front), OpOf(max, Closed in front, w));
      OpInputs(max, Closed in front, w);
      assert ws[..|front|] == front && ws[..|front| + 1] == ws;
      FedNext(max, ws, |front|);
    }
  }

  /** What the publisher ingests: the snapshot, then what Fed lets through. */
  lemma {:induction false} PublisherInputs(snapshot: seq<Event>, ws: seq<Wakeup>)
    ensures InputsOf(PublisherOps(snapshot, ws)) == snapshot + Fed(MaxSeq(snapshot), ws)
  {
    InputsConcat(Loads(snapshot), OpsOf(MaxSeq(snapshot), ws));
    LoadsInputs(snapshot);
    OpsInputs(MaxSeq(snapshot), ws);
  }

  /** The publisher of a live bus: subscribed before its snapshot was taken, and with no event
      lost, it ingests one unbroken run of what was emitted, each event once and in order. */
  lemma {:induction false} PublisherMissesNothing(emitted: seq<Event>, subscribed: nat, snapshotAt: nat, start: nat,
                                                  ws: seq<Wakeup>)
    requires Stamped(emitted) && subscribed <= snapshotAt <= |emitted|
    requires start == if snapshotAt <= BUFFER_CAP then 0 else snapshotAt - BUFFER_CAP
    requires LiveEvents(ws) == emitted[subscribed..]
    ensures InputsOf(PublisherOps(Replay(emitted[..snapshotAt]), ws)) == emitted[start..]
  {
    PublisherInputs(Replay(emitted[..snapshotAt]), ws);
    HandOff(emitted, subscribed, snapshotAt, start);
  }

  function Timers(ws: seq<Wakeup>): nat {
    if ws == [] then 0 else Timers(Front(ws)) + if Last(ws) == Timer then 1 else 0
  }

  lemma {:induction false} FramesConcat(log: seq<Departure>, d: Departure)
    ensures |FramesOf(log + [d])| <= |FramesOf(log)| + if d.Shipped? then 1 else 0
  {
    FramesGrow(log, d);
  }

  lemma {:induction false} StepFrames(w: World, op: Op)
    requires Sound(w.queue)
    ensures |FramesOf(Step(w, op).log)| <= |FramesOf(w.log)| + if op.Tick? then 1 else 0
  {
    match op
    case Ingest(e) =>
      FramesConcat(w.log, Last(Ingested(w, e).log));
    case Tick =>
      if Flushed(w.queue) != [] {
        FramesConcat(w.log, Last(Ticked(w).log));
      }
  }

  lemma {:induction false} LoadsFrames(snapshot: seq<Event>)
    ensures |FramesOf(Run(Loads(snapshot)).log)| == 0
  {
    if snapshot != [] {
      LoadsFrames(Front(snapshot));
      RunSnoc(Loads(Front(snapshot)), Op.Ingest(Last(snapshot)));
      StepFrames(Run(Loads(Front(snapshot))), Op.Ingest(Last(snapshot)));
    }
  }

  /** What one wakeup does to the queue. */
  function Woken(w: World, max: nat, closed: bool, wakeup: Wakeup): (r: World)
    requires Sound(w.queue)
    ensures Sound(r.queue)
  {
    var ops := OpOf(max, closed, wakeup);
    if ops == [] then w else Step(w, ops[0])
  }

  lemma {:induction false} WokenRun(ops: seq<Op>, max: nat, closed: bool, wakeup: Wakeup)
    ensures Run(ops + OpOf(max, closed, wakeup)) == Woken(Run(ops), max, closed, wakeup)
  {
    var more := OpOf(max, closed, wakeup);
    if more == [] {
      assert ops + more == ops;
    } else {
      assert more == [more[0]];
      RunSnoc(ops, more[0]);
    }
  }

  lemma {:induction false} WokenFrames(w: World, max: nat, closed: bool, wakeup: Wakeup)
    requires Sound(w.queue)
    ensures |FramesOf(Woken(w, max, closed, wakeup).log)| <= |FramesOf(w.log)| + if wakeup == Timer then 1 else 0
  {
    hide Step, FramesOf;
    var ops := OpOf(max, closed, wakeup);
    if ops != [] {
      StepFrames(w, ops[0]);
    }
  }

  /** The pacer: however large the snapshot and however many events arrive, the publisher has
      never sent more frames than the timer has fired. */
  lemma {:induction false} AtMostOneFrameATick(snapshot: seq<Event>, ws: seq<Wakeup>)
    ensures |FramesOf(Run(PublisherOps(snapshot, ws)).log)| <= Timers(ws)
  {
    hide Run, FramesOf, PublisherOps;
    if ws == [] {
      LoadsFrames(snapshot);
      PublisherStarts(snapshot, ws);
      assert ws[..0] == ws;
    } else {
      var front, w := Front(ws), Last(ws);
      AtMostOneFrameATick(snapshot, front);
      assert ws[..|front|] == front && ws[..|front| + 1] == ws;
      OpsNext(snapshot, MaxSeq(snapshot), ws, |front|, Closed in front);
      var before := Run(PublisherOps(snapshot, front));
      WokenRun(PublisherOps(snapshot, front), MaxSeq(snapshot), Closed in front, w);
      WokenFrames(before, MaxSeq(snapshot), Closed in front, w);
    }
  }

  /** One pass of the select loop. */
  method Wake(queue: ObserverPublishQueue, wakeup: Wakeup, max: nat, closed0: bool, ghost w: World, frames0: seq<Event>)
    returns (closed: bool, done: bool, frames: seq<Event>)
    requires Serves(queue, w, frames0)
    modifies queue, queue.coalescer
    ensures Sound(w.queue) && Serves(queue, Woken(w, max, closed0, wakeup), frames)
    ensures closed == (closed0 || wakeup == Closed)
    ensures done <==> wakeup == Timer && closed0 && Retained(Woken(w, max, closed0, wakeup).queue) == []
  {
    closed, done, frames := closed0, false, frames0;
    match wakeup
    case Live(event) =>
      if !closed {
        if event.seq_ > max {
          IngestOne(queue, event, w, frames);
        }
      }
    case Lagged(count) =>
    case Closed => closed := true;
    case Timer =>
      var empty;
      frames, empty := TickOne(queue, w, frames);
      done := closed && empty;
  }

  /** The publisher: does with its snapshot and wakeups just what PublisherOps says, and stops
      at the first wakeup that Stops allows. `used` is how many wakeups it saw. */
  method RunPublisher(snapshot: seq<Event>, wakeups: seq<Wakeup>)
    returns (frames: seq<Event>, used: nat)
    ensures used <= |wakeups|
    ensures frames == FramesOf(Run(PublisherOps(snapshot, wakeups[..used])).log)
    ensures used == |wakeups| || Stops(snapshot, wakeups, used)
    ensures KeptGoing(snapshot, wakeups, used)
  {
    var queue := new ObserverPublishQueue();
    assert Serves(queue, START, []);
    hide Serves, Run, PublisherOps, Stops, Woken, KeptGoing;
    var max := Preload(queue, snapshot);
    frames, used := [], 0;
    var closed, done := false, false;
    PublisherStarts(snapshot, wakeups);
    while used < |wakeups| && !done
      invariant fresh(queue) && fresh(queue.coalescer)
      invariant used <= |wakeups| && (closed <==> Closed in wakeups[..used])
      invariant Serves(queue, Run(PublisherOps(snapshot, wakeups[..used])), frames)
      invariant done <==> Stops(snapshot, wakeups, used)
      invariant KeptGoing(snapshot, wakeups, used)
    {
      ghost var ops := PublisherOps(snapshot, wakeups[..used]);
      OpsNext(snapshot, max, wakeups, used, closed);
      WokenRun(ops, max, closed, wakeups[used]);
      closed, done, frames := Wake(queue, wakeups[used], max, closed, Run(ops), frames);
      used := used + 1;
      StopsAfter(snapshot, wakeups, used);
    }
    assert frames == FramesOf(Run(PublisherOps(snapshot, wakeups[..used])).log) by {
      ServedFrames(queue, Run(PublisherOps(snapshot, wakeups[..used])), frames);
    }
  }

  lemma {:induction false} PublisherStarts(snapshot: seq<Event>, ws: seq<Wakeup>)
    ensures PublisherOps(snapshot, ws[..0]) == Loads(snapshot)
    ensures !Stops(snapshot, ws, 0) && KeptGoing(snapshot, ws, 0)
  {
    assert Loads(snapshot) + [] == Loads(snapshot);
  }

  lemma {:induction false} StopsAfter(snapshot: seq<Event>, ws: seq<Wakeup>, n: nat)
    requires 0 < n <= |ws|
    ensures KeptGoing(snapshot, ws, n - 1) && !Stops(snapshot, ws, n - 1) ==> KeptGoing(snapshot, ws, n)
    ensures Stops(snapshot, ws, n) <==>
            ws[n - 1] == Timer && Closed in ws[..n - 1]
            && Retained(Run(PublisherOps(snapshot, ws[..n])).queue) == []
  {
  }

  lemma {:induction false} ServedFrames(queue: ObserverPublishQueue, w: World, frames: seq<Event>)
    requires Serves(queue, w, frames)
    ensures frames == FramesOf(w.log)
  {
  }
}
