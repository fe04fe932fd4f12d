/** The publish pipeline as a state machine: what `ObserverPublishQueue` retains, what one
    ingest and one publish slot do to it, and the record of everything that has left it. */
module Pipeline {
  import opened Text
  import opened Events
  import opened Trim
  import opened Groups

  /** OBSERVER_PENDING_QUEUE_MAX_BYTES */
  const BUDGET: nat := 4 * 1024 * 1024

  /** A queued entry: its group, the event that will ship, that event's serialized length,
      and the overhead of a batch envelope it would close. */
  datatype Entry = Entry(group: Group, event: Event, bytes: nat, overhead: nat)

  function Enter(g: Group): Entry
    requires g != []
  {
    var event := Fit(Merged(g));
    Entry(g, event, SerializedLen(event), Overhead(event))
  }

  function EnterAll(gs: seq<Group>): (es: seq<Entry>)
    requires Filled(gs)
    ensures |es| == |gs| && forall i | 0 <= i < |gs| :: es[i].group == gs[i]
  {
    if gs == [] then [] else [Enter(gs[0])] + EnterAll(gs[1..])
  }

  datatype Queue = Queue(fifo: seq<Entry>, pending: seq<Group>)

  ghost predicate Sound(q: Queue) {
    Filled(q.pending) && forall i | 0 <= i < |q.fifo| :: q.fifo[i].group != []
  }

  function GroupsOf(es: seq<Entry>): (gs: seq<Group>)
    ensures |gs| == |es| && forall i | 0 <= i < |es| :: gs[i] == es[i].group
  {
    seq(|es|, i requires 0 <= i < |es| => es[i].group)
  }

  /** Everything retained, oldest first: the queue proper, then the coalescer. */
  function Retained(q: Queue): seq<Group> { GroupsOf(q.fifo) + q.pending }

  function EntryBytes(es: seq<Entry>): nat {
    if es == [] then 0 else EntryBytes(Front(es)) + Last(es).bytes
  }

  function RecordedBytes(gs: seq<Group>): nat
    requires Filled(gs)
  {
    if gs == [] then 0 else Recorded(gs[0]) + RecordedBytes(gs[1..])
  }

  /** `total_pending_bytes` */
  function TotalBytes(q: Queue): nat
    requires Filled(q.pending)
  {
    EntryBytes(q.fifo) + RecordedBytes(q.pending)
  }

  // -------------------------------------------------------------- ingest

  function Arrive(q: Queue, s: Source): (r: Queue)
    requires Sound(q)
    ensures Sound(r)
  {
    var a := Accept(q.pending, s);
    assert Filled(a.released) && Filled(a.pending);
    Queue(q.fifo + EnterAll(a.released), a.pending)
  }

  predicate OverBudget(q: Queue)
    requires Filled(q.pending)
  {
    TotalBytes(q) > BUDGET && |q.fifo| + |q.pending| > 1
  }

  /** The queue without its `n` oldest entries: the queue front first, then the coalescer's. */
  function Drop(q: Queue, n: nat): (r: Queue)
    requires Sound(q) && n <= |q.fifo| + |q.pending|
    ensures Sound(r) && |r.fifo| + |r.pending| == |q.fifo| + |q.pending| - n
    ensures Retained(r) == Retained(q)[n..]
  {
    if n <= |q.fifo| then Queue(q.fifo[n..], q.pending) else Queue([], q.pending[n - |q.fifo|..])
  }

  /** How many entries eviction takes: the fewest after which the queue is not over budget. */
  function ShedCount(q: Queue, n: nat := 0): (r: nat)
    requires Sound(q) && (n == 0 || n < |q.fifo| + |q.pending|)
    ensures n <= r <= |q.fifo| + |q.pending|
    ensures !OverBudget(Drop(q, r))
    ensures forall m | n <= m < r :: OverBudget(Drop(q, m))
    decreases |q.fifo| + |q.pending| - n
  {
    if OverBudget(Drop(q, n)) then ShedCount(q, n + 1) else n
  }

  // -------------------------------------------------------- publish slot

  /** Length of the batch envelope around the entries' events. */
  function FrameLen(es: seq<Entry>): nat
    requires es != []
  {
    Last(es).overhead + EntryBytes(es) + |es| - 1
  }

  datatype Gathered = Gathered(picked: seq<Entry>, kept: seq<Entry>, gathering: bool)

  ghost predicate Grouped(es: seq<Entry>) {
    forall i | 0 <= i < |es| :: es[i].group != []
  }

  /** One entry of the gather loop of `next_frame`. */
  function GatherStep(a: Gathered, e: Entry, channel: Option<Text>): Gathered
    requires e.group != []
  {
    if a.gathering && ChannelOf(e.group) == channel then
      if a.picked != [] && FrameLen(a.picked + [e]) > CAP
      then Gathered(a.picked, a.kept + [e], false)
      else Gathered(a.picked + [e], a.kept, true)
    else
      Gathered(a.picked, a.kept + [e], a.gathering && channel.Some? && ChannelOf(e.group).Some?)
  }

  function Gather(es: seq<Entry>, channel: Option<Text>): (r: Gathered)
    requires Grouped(es)
    ensures Grouped(r.picked) && Grouped(r.kept)
    ensures |r.picked| + |r.kept| == |es|
  {
    if es == [] then Gathered([], [], true)
    else GatherStep(Gather(Front(es), channel), Last(es), channel)
  }

  // -------------------------------------------------------------- worlds

  datatype Departure = Shipped(groups: seq<Group>) | Evicted(groups: seq<Group>)

  /** A whole run so far: what was ingested, what is retained, and everything that left,
      in the order it left. */
  datatype World = World(hist: seq<Source>, queue: Queue, log: seq<Departure>)

  const START := World([], Queue([], []), [])

  function Ingested(w: World, e: Event): (r: World)
    requires Sound(w.queue)
    ensures Sound(r.queue)
  {
    Absorbed(w, Observed(|w.hist|, e))
  }

  function Absorbed(w: World, s: Source): (r: World)
    requires Sound(w.queue)
    ensures Sound(r.queue)
  {
    var q := Arrive(w.queue, s);
    var n := ShedCount(q);
    World(w.hist + [s], Drop(q, n), w.log + [Evicted(Retained(q)[..n])])
  }

  /** The queue as a publish slot finds it: pending chunks flushed behind everything else. */
  function Flushed(q: Queue): (es: seq<Entry>)
    requires Sound(q)
    ensures Grouped(es)
  {
    q.fifo + EnterAll(q.pending)
  }

  function Ticked(w: World): (r: World)
    requires Sound(w.queue)
    ensures Sound(r.queue)
  {
    var all := Flushed(w.queue);
    if all == [] then w
    else
      var g := Gather(all, ChannelOf(all[0].group));
      World(w.hist, Queue(g.kept, []), w.log + [Shipped(GroupsOf(g.picked))])
  }

  datatype Op = Ingest(event: Event) | Tick

  function Step(w: World, op: Op): (r: World)
    requires Sound(w.queue)
    ensures Sound(r.queue)
  {
    match op case Ingest(e) => Ingested(w, e) case Tick => Ticked(w)
  }

  function Run(ops: seq<Op>): (w: World)
    ensures Sound(w.queue)
  {
    if ops == [] then START else Step(Run(Front(ops)), Last(ops))
  }
}
