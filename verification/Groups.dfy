/** The abstract entries of the publish pipeline. An entry, wherever it is kept, stands for
    the group of ingested events it was made from; its event, text and recorded size are
    functions of that group. */
module Groups {
  import opened Text
  import opened Events
  import opened Chunks

  /** OBSERVER_CHUNK_MAX_TEXT_BYTES */
  const CHUNK_MAX: nat := 60_000

  /** What may share an entry: the chunks of one key. Any other event is alone in its entry. */
  datatype Stream = Chunked(key: ChunkKey) | Plain(channel: Option<Text>)

  /** An ingested event: its place in the order of arrival, the event, and what the
      coalescer reads off it. */
  datatype Source = Source(at: nat, event: Event, stream: Stream, text: Text, size: nat)

  type Group = seq<Source>

  function StreamOf(e: Event): Stream {
    match ChunkOf(e) case Some(c) => Chunked(c.key) case None => Plain(e.channelId)
  }

  function ChunkText(e: Event): Text {
    match ChunkOf(e) case Some(c) => c.text case None => []
  }

  function Observed(at: nat, e: Event): Source {
    Source(at, e, StreamOf(e), ChunkText(e), SerializedLen(e))
  }

  function ChannelOf(g: Group): Option<Text>
    requires g != []
  {
    g[0].event.channelId
  }

  function Last<T>(s: seq<T>): T
    requires s != []
  {
    s[|s| - 1]
  }

  function Front<T>(s: seq<T>): seq<T>
    requires s != []
  {
    s[..|s| - 1]
  }

  /** The chunk texts of the group, one after the other. */
  function TextOf(g: Group): Text {
    if g == [] then [] else TextOf(Front(g)) + Last(g).text
  }

  lemma {:induction false} TextOfSnoc(g: Group, s: Source)
    ensures TextOf(g + [s]) == TextOf(g) + s.text
  {
    assert Front(g + [s]) == g;
  }

  /** The first event, at the position of the last. */
  function Skeleton(g: Group): Event
    requires g != []
  {
    g[0].event.(seq_ := Last(g).event.seq_, timestamp := Last(g).event.timestamp)
  }

  /** The event a flush makes of a pending entry. */
  function Rebuilt(skeleton: Event, text: Text): Event {
    skeleton.(payload := SetChunkText(skeleton.payload, text))
  }

  /** The one event that stands for the whole group. */
  function Merged(g: Group): Event
    requires g != []
  {
    if g[0].stream.Chunked? then Rebuilt(Skeleton(g), TextOf(g)) else g[0].event
  }

  /** Bytes recorded for a pending entry: the first event serialized plus the text. */
  function Recorded(g: Group): nat
    requires g != []
  {
    g[0].size + |TextOf(g)|
  }

  lemma {:induction false} PositionIsIrrelevant(e: Event, f: Event)
    requires f == e.(seq_ := f.seq_, timestamp := f.timestamp)
    ensures ChunkOf(f) == ChunkOf(e)
  {
  }

  /** A merged chunk event reads back as the concatenated text under the group's key. */
  lemma {:induction false} MergedReadsBack(g: Group)
    requires g != [] && g[0] == Observed(g[0].at, g[0].event) && g[0].stream.Chunked?
    ensures ChunkOf(Merged(g)) == Some(Chunk(g[0].stream.key, TextOf(g)))
  {
    PositionIsIrrelevant(g[0].event, Skeleton(g));
    SetThenRead(Skeleton(g), TextOf(g));
  }

  // ------------------------------------------------------ the coalescer's step

  ghost predicate Filled(gs: seq<Group>) {
    forall i | 0 <= i < |gs| :: gs[i] != []
  }

  /** Position of the first group of stream `st`. */
  function FindStream(gs: seq<Group>, st: Stream): (i: nat)
    requires Filled(gs)
    ensures i <= |gs|
    ensures i < |gs| ==> gs[i][0].stream == st
    ensures forall k | 0 <= k < i :: gs[k][0].stream != st
  {
    if gs == [] then 0
    else if gs[0][0].stream == st then 0
    else 1 + FindStream(gs[1..], st)
  }

  datatype Accepted = Accepted(pending: seq<Group>, released: seq<Group>)

  /** What one event does to the pending groups: a chunk joins the group of its key, starts
      a new one, or, when the joined text would reach CHUNK_MAX, displaces every pending
      group; any other event releases them all ahead of itself. */
  function Accept(pending: seq<Group>, s: Source): Accepted
    requires Filled(pending)
  {
    if s.stream.Plain? then Accepted([], pending + [[s]])
    else
      var i := FindStream(pending, s.stream);
      if i == |pending| then Accepted(pending + [[s]], [])
      else if |TextOf(pending[i])| + |s.text| >= CHUNK_MAX then Accepted([[s]], pending)
      else Accepted(pending[i := pending[i] + [s]], [])
  }
}
