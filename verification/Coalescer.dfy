/** `ObserverChunkCoalescer`: chunk events of one key merged into one pending entry. */
module Coalescer {
  import opened Text
  import opened Events
  import opened Chunks
  import opened Groups

  /** `PendingObserverChunk` */
  datatype PendingChunk = PendingChunk(
    key: ChunkKey,
    event: Event,
    text: Text,
    bytes: nat,
    sourceEvents: nat)

  datatype Ready = Ready(sourceEvents: nat, event: Event)

  function PendingOf(g: Group): PendingChunk
    requires g != [] && g[0].stream.Chunked?
  {
    PendingChunk(g[0].stream.key, Skeleton(g), TextOf(g), Recorded(g), |g|)
  }

  function ReadyOf(g: Group): Ready
    requires g != []
  {
    Ready(|g|, Merged(g))
  }

  /** `ready` is, entry by entry, what the groups release. */
  ghost predicate Releases(ready: seq<Ready>, gs: seq<Group>)
    requires Filled(gs)
  {
    |ready| == |gs| && forall i | 0 <= i < |gs| :: ready[i] == ReadyOf(gs[i])
  }

  function BytesOf(ps: seq<PendingChunk>): nat {
    if ps == [] then 0 else ps[0].bytes + BytesOf(ps[1..])
  }

  lemma {:induction false} BytesOfUpdate(ps: seq<PendingChunk>, i: nat, p: PendingChunk)
    requires i < |ps|
    ensures BytesOf(ps[i := p]) == BytesOf(ps) - ps[i].bytes + p.bytes
  {
    if i == 0 {
      assert ps[0 := p][1..] == ps[1..];
    } else {
      assert ps[i := p][1..] == ps[1..][i - 1 := p];
      BytesOfUpdate(ps[1..], i - 1, p);
    }
  }

  lemma {:induction false} BytesOfSnoc(ps: seq<PendingChunk>, p: PendingChunk)
    ensures BytesOf(ps + [p]) == BytesOf(ps) + p.bytes
  {
    if ps == [] {
      assert [p][1..] == [];
      assert ps + [p] == [p];
    } else {
      assert (ps + [p])[1..] == ps[1..] + [p];
      BytesOfSnoc(ps[1..], p);
    }
  }

  lemma {:induction false} FoundAt(ps: seq<PendingChunk>, gs: seq<Group>, key: ChunkKey, i: nat)
    requires Filled(gs) && |ps| == |gs|
    requires forall k | 0 <= k < |gs| :: Chunked(ps[k].key) == gs[k][0].stream
    requires i <= |ps| && (i < |ps| ==> ps[i].key == key)
    requires forall k | 0 <= k < i :: ps[k].key != key
    ensures i == FindStream(gs, Chunked(key))
  {
    var j := FindStream(gs, Chunked(key));
    assert forall k | 0 <= k < i :: gs[k][0].stream != Chunked(key);
  }

  class ChunkCoalescer {
    var pending: seq<PendingChunk>
    var pendingBytes: nat
    /** The group each pending entry was made from. */
    ghost var groups: seq<Group>

    /** Every pending entry is the one its group determines, and the byte counter is the
        sum of the entries' recorded sizes. */
    ghost predicate Valid()
      reads this
    {
      && Filled(groups)
      && |pending| == |groups|
      && (forall i | 0 <= i < |groups| ::
            groups[i][0].stream.Chunked? && pending[i] == PendingOf(groups[i]))
      && pendingBytes == BytesOf(pending)
    }

    constructor ()
      ensures Valid() && groups == []
    {
      pending, pendingBytes, groups := [], 0, [];
    }

    method Ingest(event: Event, ghost s: Source) returns (ready: seq<Ready>, ghost released: seq<Group>)
      requires Valid() && s == Observed(s.at, event)
      modifies this
      ensures Valid() && Filled(released)
      ensures Accepted(groups, released) == Accept(old(groups), s)
      ensures Releases(ready, released)
    {
      hide SerializedLen, BytesOf;
      ready, released := [], [];
      var chunk := ChunkOf(event);
      if chunk.None? {
        ready, released := Flush();
        ready, released := ready + [Ready(1, event)], released + [[s]];
        return;
      }
      var i := Find(chunk.value.key);
      if i < |pending| {
        if |pending[i].text| + |chunk.value.text| >= CHUNK_MAX {
          ready, released := Flush();
          PushPending(chunk.value, event, s);
          return;
        }
        Append(i, chunk.value, event, s);
        return;
      }
      PushPending(chunk.value, event, s);
    }

    method Find(key: ChunkKey) returns (i: nat)
      requires Valid()
      ensures i == FindStream(groups, Chunked(key))
    {
      i := 0;
      while i < |pending| && pending[i].key != key
        invariant i <= |pending|
        invariant forall k | 0 <= k < i :: pending[k].key != key
      {
        i := i + 1;
      }
      FoundAt(pending, groups, key, i);
    }

    /** Appends a chunk to the pending entry of its key. */
    method Append(i: nat, chunk: Chunk, event: Event, ghost s: Source)
      requires Valid() && i < |pending|
      requires s.event == event && s.stream == Chunked(chunk.key) && s.text == chunk.text
      modifies this
      ensures Valid()
      ensures groups == old(groups)[i := old(groups)[i] + [s]]
    {
      var entry := pending[i];
      var grown := PendingChunk(
        entry.key,
        entry.event.(seq_ := event.seq_, timestamp := event.timestamp),
        entry.text + chunk.text,
        entry.bytes + |chunk.text|,
        entry.sourceEvents + 1);
      assert grown == PendingOf(groups[i] + [s]) by {
        TextOfSnoc(groups[i], s);
      }
      BytesOfUpdate(pending, i, grown);
      pendingBytes := pendingBytes + |chunk.text|;
      pending := pending[i := grown];
      groups := groups[i := groups[i] + [s]];
    }

    method PushPending(chunk: Chunk, event: Event, ghost s: Source)
      requires Valid()
      requires s.event == event && s.stream == Chunked(chunk.key) && s.text == chunk.text
      requires s.size == SerializedLen(event)
      modifies this
      ensures Valid() && groups == old(groups) + [[s]]
    {
      hide SerializedLen, ChunkOf, Observed;
      var bytes := SerializedLen(event) + |chunk.text|;
      var entry := PendingChunk(chunk.key, event, chunk.text, bytes, 1);
      assert entry == PendingOf([s]) by {
        TextOfSnoc([], s);
        assert [] + [s] == [s];
      }
      BytesOfSnoc(pending, entry);
      pendingBytes := pendingBytes + bytes;
      pending := pending + [entry];
      groups := groups + [[s]];
    }

    /** Evicts the oldest pending entry; the count is the number of events it merged. */
    method DropOldest() returns (dropped: Option<nat>)
      requires Valid()
      modifies this
      ensures Valid()
      ensures old(groups) == [] ==> dropped == None && groups == []
      ensures old(groups) != [] ==> dropped == Some(|old(groups)[0]|) && groups == old(groups)[1..]
      ensures old(groups) != [] ==> pendingBytes == old(pendingBytes) - Recorded(old(groups)[0])
    {
      if |pending| == 0 {
        return None;
      }
      var removed := pending[0];
      pending := pending[1..];
      pendingBytes := pendingBytes - removed.bytes;
      groups := groups[1..];
      return Some(removed.sourceEvents);
    }

    method Flush() returns (ready: seq<Ready>, ghost released: seq<Group>)
      requires Valid()
      modifies this
      ensures Valid() && groups == [] && pendingBytes == 0
      ensures released == old(groups) && Filled(released) && Releases(ready, released)
    {
      pendingBytes := 0;
      ready, released := [], groups;
      for i := 0 to |pending|
        invariant Filled(released) && released == old(groups)
        invariant pending == old(pending) && groups == old(groups)
        invariant |ready| == i && forall k | 0 <= k < i :: ready[k] == ReadyOf(released[k])
      {
        var entry := pending[i];
        ready := ready + [Ready(entry.sourceEvents, Rebuilt(entry.event, entry.text))];
      }
      pending := [];
      groups := [];
    }
  }
}
