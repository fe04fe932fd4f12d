/** What holds of every run of ingests and publish slots. */
module PipelineProofs {
  import opened Text
  import opened Events
  import opened Chunks
  import opened Groups
  import opened Pipeline
  import opened GatherProofs

  function DepartedGroups(log: seq<Departure>): seq<Group> {
    if log == [] then [] else DepartedGroups(Front(log)) + Last(log).groups
  }

  /** Every entry there ever was: those that left, in the order they left, then those retained. */
  function Everything(w: World): seq<Group> { DepartedGroups(w.log) + Retained(w.queue) }

  function StreamChannel(st: Stream): Option<Text> {
    match st case Chunked(key) => key.channelId case Plain(c) => c
  }

  /** The pending groups are chunks of distinct keys, and nothing but chunks has arrived
      since the first of each. */
  ghost predicate PendingChunks(w: World)
    requires Filled(w.queue.pending)
  {
    var p := w.queue.pending;
    && (forall i | 0 <= i < |p| :: p[i][0].stream.Chunked?)
    && (forall i, j | 0 <= i < j < |p| :: p[i][0].stream != p[j][0].stream)
    && (forall i, at | 0 <= i < |p| && p[i][0].at <= at < |w.hist| :: w.hist[at].stream.Chunked?)
  }

  /** What holds of one entry, wherever it is: it starts inside the history, holds more than
      one event only as chunk text under the cap, and no other kind of event arrived between
      its first and its last chunk. */
  ghost predicate Decent(hist: seq<Source>, g: Group) {
    && g != []
    && g[0].at < |hist| && Last(g).at < |hist|
    && StreamChannel(g[0].stream) == ChannelOf(g)
    && (|g| > 1 ==> |TextOf(g)| < CHUNK_MAX)
    && (forall at | g[0].at < at < Last(g).at :: hist[at].stream.Chunked?)
  }

  ghost predicate AllDecent(hist: seq<Source>, gs: seq<Group>) {
    forall i | 0 <= i < |gs| :: Decent(hist, gs[i])
  }

  /** Entries in order of their first event. */
  ghost predicate OldestFirst(gs: seq<Group>)
    requires Filled(gs)
  {
    forall i, j | 0 <= i < j < |gs| :: gs[i][0].at < gs[j][0].at
  }

  // ------------------------------------------------- one ingest, one slot

  lemma {:induction false} EnterAllGroups(gs: seq<Group>)
    requires Filled(gs)
    ensures GroupsOf(EnterAll(gs)) == gs
  {
  }

  lemma {:induction false} GroupsOfConcat(a: seq<Entry>, b: seq<Entry>)
    ensures GroupsOf(a + b) == GroupsOf(a) + GroupsOf(b)
  {
  }

  /** The two things the coalescer can do: append the event to the one pending group of its
      stream, or leave every group as it is and add the event behind them all. */
  lemma {:induction false} AcceptCases(p: seq<Group>, s: Source) returns (i: nat)
    requires Filled(p)
    ensures i <= |p|
    ensures i == |p| ==> Accept(p, s).released + Accept(p, s).pending == p + [[s]]
    ensures i < |p| ==>
              Accept(p, s) == Accepted(p[i := p[i] + [s]], []) && s.stream.Chunked?
              && p[i][0].stream == s.stream && |TextOf(p[i])| + |s.text| < CHUNK_MAX
  {
    i := FindStream(p, s.stream);
    if s.stream.Plain? || i == |p| || |TextOf(p[i])| + |s.text| >= CHUNK_MAX {
      i := |p|;
    }
  }

  /** Where the event goes: `k` is the position of the entry it joins, or the end when it
      starts a new one. */
  lemma {:induction false} ArriveEffect(q: Queue, s: Source) returns (k: nat)
    requires Sound(q)
    ensures k <= |Retained(q)|
    ensures k == |Retained(q)| ==> Retained(Arrive(q, s)) == Retained(q) + [[s]]
    ensures k < |Retained(q)| ==>
              |q.fifo| <= k && s.stream.Chunked?
              && Retained(q)[k] == q.pending[k - |q.fifo|]
              && Retained(q)[k][0].stream == s.stream
              && |TextOf(Retained(q)[k])| + |s.text| < CHUNK_MAX
              && Arrive(q, s) == Queue(q.fifo, q.pending[k - |q.fifo| := Retained(q)[k] + [s]])
              && Retained(Arrive(q, s)) == Retained(q)[k := Retained(q)[k] + [s]]
  {
    var a := Accept(q.pending, s);
    var i := AcceptCases(q.pending, s);
    k := |q.fifo| + i;
    if i == |q.pending| {
      EnterAllGroups(a.released);
      GroupsOfConcat(q.fifo, EnterAll(a.released));
      Associative(GroupsOf(q.fifo), a.released, a.pending);
      Associative(GroupsOf(q.fifo), q.pending, [[s]]);
    } else {
      assert q.fifo + EnterAll([]) == q.fifo;
    }
  }

  lemma {:induction false} DepartedSnoc(log: seq<Departure>, d: Departure)
    ensures DepartedGroups(log + [d]) == DepartedGroups(log) + d.groups
  {
    assert Front(log + [d]) == log;
  }

  /** Eviction moves the oldest retained entries, in order, from the queue to the record. */
  lemma {:induction false} EvictionEffect(hist: seq<Source>, q: Queue, log: seq<Departure>, n: nat)
    requires Sound(q) && n <= |q.fifo| + |q.pending|
    ensures Everything(World(hist, Drop(q, n), log + [Evicted(Retained(q)[..n])]))
         == DepartedGroups(log) + Retained(q)
  {
    var gone, rest := Retained(q)[..n], Retained(q)[n..];
    DepartedSnoc(log, Evicted(gone));
    Associative(DepartedGroups(log), gone, rest);
    assert gone + rest == Retained(q);
  }

  lemma {:induction false} AbsorbEffect(w: World, s: Source, q: Queue)
    requires Sound(w.queue) && q == Arrive(w.queue, s)
    ensures Everything(Absorbed(w, s)) == DepartedGroups(w.log) + Retained(q)
    ensures Absorbed(w, s).hist == w.hist + [s]
    ensures exists n | 0 <= n <= |q.fifo| + |q.pending| :: Absorbed(w, s).queue == Drop(q, n)
  {
    EvictionEffect(w.hist + [s], q, w.log, ShedCount(q));
  }

  /** Seen from any channel, a publish slot changes nothing in the order of everything. */
  lemma {:induction false} TickEffect(w: World, d: Option<Text>)
    requires Sound(w.queue) && Filled(Everything(w))
    ensures Filled(Everything(Ticked(w)))
    ensures Scope(d, Everything(Ticked(w))) == Scope(d, Everything(w))
  {
    hide Scope, Gather, EnterAll;
    var (all, gone) := (Flushed(w.queue), DepartedGroups(w.log));
    EnterAllGroups(w.queue.pending);
    GroupsOfConcat(w.queue.fifo, EnterAll(w.queue.pending));
    assert GroupsOf(all) == Retained(w.queue);
    FilledPrefix(gone, Retained(w.queue));
    if all != [] {
      var c := ChannelOf(all[0].group);
      var (picked, kept) := (GroupsOf(Gather(all, c).picked), GroupsOf(Gather(all, c).kept));
      GatherKeepsOrder(all, c, d);
      DepartedSnoc(w.log, Shipped(picked));
      assert Everything(Ticked(w)) == gone + picked + kept;
      ScopeThree(d, gone, picked, kept, GroupsOf(all));
    }
  }

  lemma {:induction false} ScopeThree(d: Option<Text>, a: seq<Group>, b: seq<Group>, c: seq<Group>, bc: seq<Group>)
    requires Filled(a) && Filled(b) && Filled(c) && Filled(bc)
    requires Scope(d, bc) == Scope(d, b) + Scope(d, c)
    ensures Filled(a + b + c) && Scope(d, a + b + c) == Scope(d, a + bc)
  {
    ScopeConcat(d, a, bc);
    ScopeConcat(d, a, b);
    ScopeConcat(d, a + b, c);
    Associative(Scope(d, a), Scope(d, b), Scope(d, c));
  }

  lemma {:induction false} FilledPrefix(a: seq<Group>, b: seq<Group>)
    requires Filled(a + b)
    ensures Filled(a)
  {
    assert forall i | 0 <= i < |a| :: a[i] == (a + b)[i];
  }

  lemma {:induction false} InScope(d: Option<Text>, gs: seq<Group>, g: Group)
    requires Filled(gs) && g != []
    ensures g in Scope(d, gs) <==> g in gs && (ChannelOf(g) == d || ChannelOf(g) == None)
  {
    if gs != [] {
      InScope(d, Front(gs), g);
      assert gs == Front(gs) + [Last(gs)];
    }
  }

  lemma {:induction false} TickKeepsGroups(w: World)
    requires Sound(w.queue) && Filled(Everything(w))
    ensures Filled(Everything(Ticked(w)))
    ensures forall g :: g in Everything(Ticked(w)) <==> g in Everything(w)
  {
    TickEffect(w, None);
    forall g | g in Everything(Ticked(w)) || g in Everything(w)
      ensures g in Everything(Ticked(w)) <==> g in Everything(w)
    {
      assert g != [];
      TickEffect(w, ChannelOf(g));
      InScope(ChannelOf(g), Everything(Ticked(w)), g);
      InScope(ChannelOf(g), Everything(w), g);
    }
  }

  lemma {:induction false} ObservedChannel(at: nat, e: Event)
    ensures StreamChannel(Observed(at, e).stream) == e.channelId
    ensures Observed(at, e).at == at && Observed(at, e).event == e
  {
  }

  lemma {:induction false} HistoryGrows(w: World, op: Op)
    requires Sound(w.queue)
    ensures Step(w, op).hist == w.hist + if op.Ingest? then [Observed(|w.hist|, op.event)] else []
  {
    hide Observed;
  }

  // ------------------------------------------------------ the invariant

  ghost predicate Inv(w: World) {
    && Sound(w.queue)
    && Filled(Everything(w))
    && PendingChunks(w)
    && AllDecent(w.hist, Everything(w))
    && OldestFirst(Retained(w.queue))
  }

  lemma {:induction false} DecentLater(hist: seq<Source>, s: Source, gs: seq<Group>)
    requires AllDecent(hist, gs)
    ensures AllDecent(hist + [s], gs)
  {
    forall i | 0 <= i < |gs|
      ensures Decent(hist + [s], gs[i])
    {
      assert Decent(hist, gs[i]);
    }
  }

  lemma {:induction false} ArriveKeepsDecent(w: World, s: Source, gone: seq<Group>, q: Queue)
    requires Inv(w) && s.at == |w.hist| && StreamChannel(s.stream) == s.event.channelId
    requires gone == DepartedGroups(w.log) && q == Arrive(w.queue, s)
    ensures AllDecent(w.hist + [s], gone + Retained(q))
  {
    hide Accept, TextOf, Arrive, EnterAll, Enter, Recorded;
    var k := ArriveEffect(w.queue, s);
    var (r, all) := (Retained(w.queue), Everything(w));
    DecentLater(w.hist, s, all);
    if k == |r| {
      assert Decent(w.hist + [s], [s]);
      assert gone + Retained(q) == all + [[s]];
    } else {
      var g := all[|gone| + k];
      assert g == r[k];
      TextOfSnoc(g, s);
      assert Decent(w.hist + [s], g + [s]);
      assert gone + Retained(q) == all[|gone| + k := g + [s]];
    }
  }

  lemma {:induction false} ArriveKeepsOldestFirst(w: World, s: Source, q: Queue)
    requires Inv(w) && s.at == |w.hist| && q == Arrive(w.queue, s)
    ensures OldestFirst(Retained(q))
  {
    var k := ArriveEffect(w.queue, s);
    var r: seq<Group>, gone := Retained(w.queue), |DepartedGroups(w.log)|;
    forall i | 0 <= i < |r|
      ensures r[i][0].at < s.at
    {
      assert r[i] == Everything(w)[gone + i];
      assert Decent(w.hist, r[i]);
    }
  }

  lemma {:induction false} ArriveKeepsPending(w: World, s: Source, q: Queue)
    requires Inv(w) && s.at == |w.hist| && q == Arrive(w.queue, s)
    ensures PendingChunks(World(w.hist + [s], q, w.log))
  {
    hide TextOf, Enter, EnterAll, Recorded;
  }

  lemma {:induction false} DropKeepsInv(hist: seq<Source>, q: Queue, log: seq<Departure>, n: nat, r: World)
    requires Sound(q) && n <= |q.fifo| + |q.pending|
    requires PendingChunks(World(hist, q, log)) && OldestFirst(Retained(q))
    requires r.hist == hist && r.queue == Drop(q, n)
    ensures PendingChunks(r) && OldestFirst(Retained(r.queue))
  {
    assert Retained(r.queue) == Retained(q)[n..];
  }

  /** Every ingest keeps the invariant. */
  lemma {:induction false} AbsorbKeepsInv(w: World, s: Source)
    requires Inv(w) && s.at == |w.hist| && StreamChannel(s.stream) == s.event.channelId
    ensures Inv(Absorbed(w, s))
  {
    var (q, gone) := (Arrive(w.queue, s), DepartedGroups(w.log));
    ArriveKeepsDecent(w, s, gone, q);
    ArriveKeepsOldestFirst(w, s, q);
    ArriveKeepsPending(w, s, q);
    AbsorbEffect(w, s, q);
    var n :| 0 <= n <= |q.fifo| + |q.pending| && Absorbed(w, s).queue == Drop(q, n);
    DropKeepsInv(w.hist + [s], q, w.log, n, Absorbed(w, s));
  }

  lemma {:induction false} GatherKeepsOldestFirst(es: seq<Entry>, c: Option<Text>)
    requires Grouped(es) && OldestFirst(GroupsOf(es))
    ensures var kept := GroupsOf(Gather(es, c).kept);
            OldestFirst(kept)
            && (forall i | 0 <= i < |kept| :: kept[i][0].at <= Last(es).group[0].at)
  {
    hide GatherStep, FrameLen, EntryBytes;
    if es != [] {
      var front := Front(es);
      assert GroupsOf(front) == Front(GroupsOf(es));
      GatherKeepsOldestFirst(front, c);
      var (e, a) := (Last(es), Gather(front, c));
      if front != [] {
        assert GroupsOf(es)[|es| - 2] == Last(front).group;
      }
      KeepsOldestFirst(a, e, c, Gather(es, c));
    }
  }

  lemma {:induction false} KeepsOldestFirst(a: Gathered, e: Entry, c: Option<Text>, b: Gathered)
    requires Grouped(a.picked) && Grouped(a.kept) && e.group != [] && b == GatherStep(a, e, c)
    requires OldestFirst(GroupsOf(a.kept))
    requires forall i | 0 <= i < |a.kept| :: a.kept[i].group[0].at < e.group[0].at
    ensures Grouped(b.kept) && OldestFirst(GroupsOf(b.kept))
    ensures forall i | 0 <= i < |b.kept| :: b.kept[i].group[0].at <= e.group[0].at
  {
    assert b.kept == a.kept || b.kept == a.kept + [e];
  }

  /** Every publish slot keeps the invariant. */
  lemma {:induction false} TickKeepsInv(w: World)
    requires Inv(w)
    ensures Inv(Ticked(w))
  {
    TickKeepsGroups(w);
    forall i | 0 <= i < |Everything(Ticked(w))|
      ensures Decent(w.hist, Everything(Ticked(w))[i])
    {
      var g := Everything(Ticked(w))[i];
      assert g in Everything(w);
    }
    var all := Flushed(w.queue);
    EnterAllGroups(w.queue.pending);
    GroupsOfConcat(w.queue.fifo, EnterAll(w.queue.pending));
    assert GroupsOf(all) == Retained(w.queue);
    if all != [] {
      GatherKeepsOldestFirst(all, ChannelOf(all[0].group));
    }
  }

  lemma {:induction false} RunKeepsInv(ops: seq<Op>)
    ensures Inv(Run(ops))
  {
    if ops != [] {
      RunKeepsInv(Front(ops));
      var w := Run(Front(ops));
      match Last(ops)
      case Ingest(e) =>
        ObservedChannel(|w.hist|, e);
        AbsorbKeepsInv(w, Observed(|w.hist|, e));
      case Tick => TickKeepsInv(w);
    }
  }

  // ------------------------------------------- exactly once, in order

  /** The events of stream `st` carried by the entries, entry after entry. */
  function SourcesOf(st: Stream, gs: seq<Group>): seq<Source>
    requires Filled(gs)
  {
    if gs == [] then []
    else SourcesOf(st, Front(gs)) + if Last(gs)[0].stream == st then Last(gs) else []
  }

  /** The events of stream `st` in order of arrival. */
  function Select(st: Stream, hist: seq<Source>): seq<Source> {
    if hist == [] then [] else Select(st, Front(hist)) + if Last(hist).stream == st then [Last(hist)] else []
  }

  lemma {:induction false} SourcesOfConcat(st: Stream, a: seq<Group>, b: seq<Group>)
    requires Filled(a) && Filled(b)
    ensures Filled(a + b) && SourcesOf(st, a + b) == SourcesOf(st, a) + SourcesOf(st, b)
  {
    if b == [] {
      assert a + b == a;
    } else {
      assert Front(a + b) == a + Front(b) && Last(a + b) == Last(b);
      SourcesOfConcat(st, a, Front(b));
      Associative(SourcesOf(st, a), SourcesOf(st, Front(b)), if Last(b)[0].stream == st then Last(b) else []);
    }
  }

  lemma {:induction false} NoSources(st: Stream, gs: seq<Group>)
    requires Filled(gs) && forall i | 0 <= i < |gs| :: gs[i][0].stream != st
    ensures SourcesOf(st, gs) == []
  {
    if gs != [] {
      NoSources(st, Front(gs));
    }
  }

  /** An event that joins the last entry of its stream is appended to that stream alone. */
  lemma {:induction false} JoinStream(st: Stream, gs: seq<Group>, k: nat, s: Source)
    requires Filled(gs) && k < |gs| && gs[k][0].stream == s.stream
    requires forall i | k < i < |gs| :: gs[i][0].stream != s.stream
    ensures Filled(gs[k := gs[k] + [s]])
    ensures SourcesOf(st, gs[k := gs[k] + [s]]) == SourcesOf(st, gs) + if s.stream == st then [s] else []
  {
    var (before, g, after) := (gs[..k], gs[k], gs[k + 1..]);
    assert gs == before + [g] + after;
    assert gs[k := g + [s]] == before + [g + [s]] + after;
    SourcesOfConcat(st, before + [g], after);
    SourcesOfConcat(st, before + [g + [s]], after);
    SourcesOfOne(st, before, g);
    SourcesOfOne(st, before, g + [s]);
    if st == s.stream {
      NoSources(st, after);
    }
  }

  lemma {:induction false} SourcesOfOne(st: Stream, gs: seq<Group>, g: Group)
    requires Filled(gs) && g != []
    ensures SourcesOf(st, gs + [g]) == SourcesOf(st, gs) + if g[0].stream == st then g else []
  {
    assert Front(gs + [g]) == gs;
  }

  lemma {:induction false} SelectSnoc(st: Stream, hist: seq<Source>, s: Source)
    ensures Select(st, hist + [s]) == Select(st, hist) + if s.stream == st then [s] else []
  {
    assert Front(hist + [s]) == hist;
  }

  /** Where the new event goes, seen on everything there ever was. */
  lemma {:induction false} AbsorbPlaces(w: World, s: Source) returns (k: nat)
    requires Inv(w)
    ensures k <= |Everything(w)|
    ensures k == |Everything(w)| ==> Everything(Absorbed(w, s)) == Everything(w) + [[s]]
    ensures k < |Everything(w)| ==>
              Everything(w)[k][0].stream == s.stream && s.stream.Chunked?
              && (forall i | k < i < |Everything(w)| :: Everything(w)[i][0].stream != s.stream)
              && Everything(Absorbed(w, s)) == Everything(w)[k := Everything(w)[k] + [s]]
  {
    var i := ArriveEffect(w.queue, s);
    var (gone, r) := (DepartedGroups(w.log), Retained(w.queue));
    AbsorbEffect(w, s, Arrive(w.queue, s));
    k := |gone| + i;
    if i == |r| {
      Associative(gone, r, [[s]]);
    } else {
      UpdateBehind(gone, r, i, r[i] + [s]);
      LastOfStream(w, gone, i);
    }
  }

  lemma {:induction false} UpdateBehind(a: seq<Group>, b: seq<Group>, i: nat, g: Group)
    requires i < |b|
    ensures a + b[i := g] == (a + b)[|a| + i := g]
    ensures (a + b)[|a| + i] == b[i]
  {
  }

  lemma {:induction false} LastOfStream(w: World, gone: seq<Group>, i: nat)
    requires Inv(w) && gone == DepartedGroups(w.log) && |w.queue.fifo| <= i < |Retained(w.queue)|
    ensures forall j | |gone| + i < j < |Everything(w)| ::
              Everything(w)[j][0].stream != Retained(w.queue)[i][0].stream
  {
    var r: seq<Group>, n := Retained(w.queue), |w.queue.fifo|;
    forall j | |gone| + i < j < |Everything(w)|
      ensures Everything(w)[j][0].stream != r[i][0].stream
    {
      assert Everything(w)[j] == r[j - |gone|] == w.queue.pending[j - |gone| - n];
      assert r[i] == w.queue.pending[i - n];
    }
  }

  lemma {:induction false} AbsorbKeepsStreams(w: World, s: Source, st: Stream)
    requires Inv(w) && SourcesOf(st, Everything(w)) == Select(st, w.hist)
    ensures Filled(Everything(Absorbed(w, s)))
    ensures SourcesOf(st, Everything(Absorbed(w, s))) == Select(st, w.hist + [s])
  {
    var k := AbsorbPlaces(w, s);
    SelectSnoc(st, w.hist, s);
    PlacedInStream(st, Everything(w), k, s, Everything(Absorbed(w, s)));
  }

  lemma {:induction false} PlacedInStream(st: Stream, gs: seq<Group>, k: nat, s: Source, after: seq<Group>)
    requires Filled(gs) && k <= |gs|
    requires k == |gs| ==> after == gs + [[s]]
    requires k < |gs| ==> gs[k][0].stream == s.stream && after == gs[k := gs[k] + [s]]
    requires forall i | k < i < |gs| :: gs[i][0].stream != s.stream
    ensures Filled(after)
    ensures SourcesOf(st, after) == SourcesOf(st, gs) + if s.stream == st then [s] else []
  {
    if k == |gs| {
      SourcesOfOne(st, gs, [s]);
    } else {
      JoinStream(st, gs, k, s);
    }
  }

  lemma {:induction false} SourcesByScope(st: Stream, gs: seq<Group>)
    requires Filled(gs)
    requires forall i | 0 <= i < |gs| :: StreamChannel(gs[i][0].stream) == ChannelOf(gs[i])
    ensures SourcesOf(st, gs) == SourcesOf(st, Scope(StreamChannel(st), gs))
  {
    if gs != [] {
      var (front, g, d) := (Front(gs), Last(gs), StreamChannel(st));
      SourcesByScope(st, front);
      if ChannelOf(g) == d || ChannelOf(g) == None {
        SourcesOfOne(st, Scope(d, front), g);
      } else {
        assert Scope(d, gs) == Scope(d, front);
      }
    }
  }

  /** Nothing is lost, repeated or reordered within a stream: in every run, the chunks of one
      key, and likewise the other events of one channel, appear in the entries that left
      (shipped or evicted) followed by those retained exactly as they arrived. */
  lemma {:induction false} StreamsExactlyOnce(ops: seq<Op>, st: Stream)
    ensures Filled(Everything(Run(ops)))
    ensures SourcesOf(st, Everything(Run(ops))) == Select(st, Run(ops).hist)
  {
    RunKeepsInv(ops);
    if ops != [] {
      var w := Run(Front(ops));
      StreamsExactlyOnce(Front(ops), st);
      RunKeepsInv(Front(ops));
      match Last(ops)
      case Ingest(e) => AbsorbKeepsStreams(w, Observed(|w.hist|, e), st);
      case Tick => TickKeepsStream(w, st);
    }
  }

  lemma {:induction false} TickKeepsStream(w: World, st: Stream)
    requires Inv(w)
    ensures Filled(Everything(Ticked(w)))
    ensures SourcesOf(st, Everything(Ticked(w))) == SourcesOf(st, Everything(w))
  {
    TickKeepsInv(w);
    TickEffect(w, StreamChannel(st));
    SourcesByScope(st, Everything(w));
    SourcesByScope(st, Everything(Ticked(w)));
  }

  lemma {:induction false} TextOfConcat(a: Group, b: Group)
    ensures TextOf(a + b) == TextOf(a) + TextOf(b)
  {
    if b == [] {
      assert a + b == a;
    } else {
      assert b == Front(b) + [Last(b)];
      Associative(a, Front(b), [Last(b)]);
      TextOfSnoc(a + Front(b), Last(b));
      TextOfSnoc(Front(b), Last(b));
      TextOfConcat(a, Front(b));
    }
  }

  /** The texts of the entries of stream `st`, one entry after the other. */
  function TextsOf(st: Stream, gs: seq<Group>): Text
    requires Filled(gs)
  {
    if gs == [] then []
    else TextsOf(st, Front(gs)) + if Last(gs)[0].stream == st then TextOf(Last(gs)) else []
  }

  lemma {:induction false} TextsAreSources(st: Stream, gs: seq<Group>)
    requires Filled(gs)
    ensures TextsOf(st, gs) == TextOf(SourcesOf(st, gs))
  {
    if gs != [] {
      TextsAreSources(st, Front(gs));
      if Last(gs)[0].stream == st {
        TextOfConcat(SourcesOf(st, Front(gs)), Last(gs));
      } else {
        assert SourcesOf(st, gs) == SourcesOf(st, Front(gs));
      }
    }
  }

  /** Coalescing is plain concatenation: for every key, the texts of the entries that left
      followed by those retained are the texts of all its chunks, in order of arrival. */
  lemma {:induction false} TextIsConcatenation(ops: seq<Op>, key: ChunkKey)
    ensures Filled(Everything(Run(ops)))
    ensures TextsOf(Chunked(key), Everything(Run(ops))) == TextOf(Select(Chunked(key), Run(ops).hist))
  {
    StreamsExactlyOnce(ops, Chunked(key));
    TextsAreSources(Chunked(key), Everything(Run(ops)));
  }

  // -------------------------------------------------------------- ledger

  function EvictedSources(log: seq<Departure>): nat {
    if log == [] then 0
    else EvictedSources(Front(log)) + if Last(log).Evicted? then SourceCount(Last(log).groups) else 0
  }

  function ShippedSources(log: seq<Departure>): nat {
    if log == [] then 0
    else ShippedSources(Front(log)) + if Last(log).Shipped? then SourceCount(Last(log).groups) else 0
  }

  /** The group is made of events as they were observed. */
  ghost predicate Genuine(g: Group) {
    forall i | 0 <= i < |g| :: g[i] == Observed(g[i].at, g[i].event)
  }

  ghost predicate AllGenuine(gs: seq<Group>) {
    forall i | 0 <= i < |gs| :: Genuine(gs[i])
  }

  lemma {:induction false} PlacedGenuine(gs: seq<Group>, k: nat, s: Source, after: seq<Group>)
    requires AllGenuine(gs) && k <= |gs| && s == Observed(s.at, s.event)
    requires k == |gs| ==> after == gs + [[s]]
    requires k < |gs| ==> after == gs[k := gs[k] + [s]]
    ensures AllGenuine(after)
  {
    if k < |gs| {
      assert Genuine(gs[k] + [s]);
    } else {
      assert Genuine([s]);
    }
  }

  /** Every entry of every run is made of observed events. */
  lemma {:induction false} RunIsGenuine(ops: seq<Op>)
    ensures AllGenuine(Everything(Run(ops)))
  {
    if ops != [] {
      var w := Run(Front(ops));
      RunIsGenuine(Front(ops));
      RunKeepsInv(Front(ops));
      match Last(ops)
      case Ingest(e) =>
        var s := Observed(|w.hist|, e);
        var k := AbsorbPlaces(w, s);
        PlacedGenuine(Everything(w), k, s, Everything(Absorbed(w, s)));
      case Tick =>
        TickKeepsGroups(w);
        GenuineSubset(Everything(w), Everything(Ticked(w)));
    }
  }

  lemma {:induction false} GenuineSubset(gs: seq<Group>, hs: seq<Group>)
    requires AllGenuine(gs) && forall h :: h in hs ==> h in gs
    ensures AllGenuine(hs)
  {
    forall i | 0 <= i < |hs| ensures Genuine(hs[i]) {
      assert hs[i] in gs;
      var j :| 0 <= j < |gs| && gs[j] == hs[i];
    }
  }

  /** What a reader finds of key `key` in the events made of the entries: their chunk texts,
      one after the other. */
  function ReadTexts(key: ChunkKey, gs: seq<Group>): Text
    requires Filled(gs)
  {
    if gs == [] then []
    else
      var c := ChunkOf(Merged(Last(gs)));
      ReadTexts(key, Front(gs)) + if c.Some? && c.value.key == key then c.value.text else []
  }

  lemma {:induction false} ReadsAsRecorded(g: Group)
    requires g != [] && Genuine(g)
    ensures ChunkOf(Merged(g)) == if g[0].stream.Chunked? then Some(Chunk(g[0].stream.key, TextOf(g))) else None
  {
    assert g[0] == Observed(g[0].at, g[0].event);
    if g[0].stream.Chunked? {
      MergedReadsBack(g);
    }
  }

  lemma {:induction false} ReadTextsAreTexts(key: ChunkKey, gs: seq<Group>)
    requires Filled(gs) && AllGenuine(gs)
    ensures ReadTexts(key, gs) == TextsOf(Chunked(key), gs)
  {
    if gs != [] {
      ReadTextsAreTexts(key, Front(gs));
      ReadsAsRecorded(Last(gs));
    }
  }

  /** Coalescing seen by a reader: in every run, the chunk texts read off the events made of
      the entries, those that left and then those retained, are together all the chunk texts
      of the key in order of arrival. */
  lemma {:induction false} ReadersSeeConcatenation(ops: seq<Op>, key: ChunkKey)
    ensures Filled(Everything(Run(ops)))
    ensures ReadTexts(key, Everything(Run(ops))) == TextOf(Select(Chunked(key), Run(ops).hist))
  {
    TextIsConcatenation(ops, key);
    RunIsGenuine(ops);
    ReadTextsAreTexts(key, Everything(Run(ops)));
  }

  lemma {:induction false} LogLedger(log: seq<Departure>)
    ensures SourceCount(DepartedGroups(log)) == EvictedSources(log) + ShippedSources(log)
  {
    if log != [] {
      LogLedger(Front(log));
      SourceCountConcat(DepartedGroups(Front(log)), Last(log).groups);
    }
  }

  lemma {:induction false} CountSnocGroup(gs: seq<Group>, g: Group)
    ensures SourceCount(gs + [g]) == SourceCount(gs) + |g|
  {
    assert Front(gs + [g]) == gs;
  }

  lemma {:induction false} CountJoin(gs: seq<Group>, k: nat, s: Source)
    requires k < |gs|
    ensures SourceCount(gs[k := gs[k] + [s]]) == SourceCount(gs) + 1
  {
    var (before, g, after) := (gs[..k], gs[k], gs[k + 1..]);
    assert gs == before + [g] + after;
    assert gs[k := g + [s]] == before + [g + [s]] + after;
    SourceCountConcat(before + [g], after);
    SourceCountConcat(before + [g + [s]], after);
    CountSnocGroup(before, g);
    CountSnocGroup(before, g + [s]);
  }

  lemma {:induction false} AbsorbCounts(w: World, s: Source)
    requires Inv(w)
    ensures SourceCount(Everything(Absorbed(w, s))) == SourceCount(Everything(w)) + 1
  {
    var k := AbsorbPlaces(w, s);
    if k == |Everything(w)| {
      CountSnocGroup(Everything(w), [s]);
    } else {
      CountJoin(Everything(w), k, s);
    }
  }

  lemma {:induction false} TickCounts(w: World)
    requires Inv(w)
    ensures SourceCount(Everything(Ticked(w))) == SourceCount(Everything(w))
  {
    hide SourceCount, Gather, EnterAll, Decent, TextOf;
    var (all, gone) := (Flushed(w.queue), DepartedGroups(w.log));
    EnterAllGroups(w.queue.pending);
    GroupsOfConcat(w.queue.fifo, EnterAll(w.queue.pending));
    assert GroupsOf(all) == Retained(w.queue);
    if all != [] {
      var c := ChannelOf(all[0].group);
      var (picked, kept) := (GroupsOf(Gather(all, c).picked), GroupsOf(Gather(all, c).kept));
      GatherKeepsSources(all, c);
      DepartedSnoc(w.log, Shipped(picked));
      assert Everything(Ticked(w)) == gone + picked + kept;
      SourceCountConcat(gone, GroupsOf(all));
      SourceCountConcat(gone, picked);
      SourceCountConcat(gone + picked, kept);
    }
  }

  /** The ledger, in source events: in every run, what was ingested is what was evicted, plus
      what shipped, plus what is retained in either store, merged entries counting for every
      event they absorbed. */
  lemma {:induction false} SourceLedger(ops: seq<Op>)
    ensures var w := Run(ops);
            |w.hist| == EvictedSources(w.log) + ShippedSources(w.log) + SourceCount(Retained(w.queue))
  {
    CountsEverything(ops);
    var w := Run(ops);
    LogLedger(w.log);
    SourceCountConcat(DepartedGroups(w.log), Retained(w.queue));
  }

  lemma {:induction false} CountsEverything(ops: seq<Op>)
    ensures SourceCount(Everything(Run(ops))) == |Run(ops).hist|
  {
    if ops != [] {
      var w := Run(Front(ops));
      CountsEverything(Front(ops));
      RunKeepsInv(Front(ops));
      match Last(ops)
      case Ingest(e) => AbsorbCounts(w, Observed(|w.hist|, e));
      case Tick => TickCounts(w);
    }
  }

  // --------------------------------------------------- order and eviction

  ghost predicate BirthsBelow(gs: seq<Group>, n: nat)
    requires Filled(gs)
  {
    forall i | 0 <= i < |gs| :: gs[i][0].at < n
  }

  lemma {:induction false} ScopeUpdate(d: Option<Text>, gs: seq<Group>, k: nat, g: Group)
    requires Filled(gs) && k < |gs| && g != [] && g[0] == gs[k][0]
    ensures Filled(gs[k := g])
    ensures |Scope(d, gs[k := g])| == |Scope(d, gs)|
    ensures forall i | 0 <= i < |Scope(d, gs)| :: Scope(d, gs[k := g])[i][0] == Scope(d, gs)[i][0]
  {
    if k == |gs| - 1 {
      assert Front(gs[k := g]) == Front(gs);
    } else {
      assert Front(gs[k := g]) == Front(gs)[k := g] && Last(gs[k := g]) == Last(gs);
      ScopeUpdate(d, Front(gs), k, g);
    }
  }

  lemma {:induction false} ScopeBelow(d: Option<Text>, gs: seq<Group>, n: nat)
    requires Filled(gs) && BirthsBelow(gs, n)
    ensures BirthsBelow(Scope(d, gs), n)
  {
    forall i | 0 <= i < |Scope(d, gs)|
      ensures Scope(d, gs)[i][0].at < n
    {
      InScope(d, gs, Scope(d, gs)[i]);
    }
  }

  lemma {:induction false} AppendKeepsScopeOrder(d: Option<Text>, gs: seq<Group>, s: Source)
    requires Filled(gs) && OldestFirst(Scope(d, gs)) && BirthsBelow(gs, s.at)
    ensures Filled(gs + [[s]]) && OldestFirst(Scope(d, gs + [[s]]))
  {
    ScopeBelow(d, gs, s.at);
    ScopeConcat(d, gs, [[s]]);
    var more := Scope(d, [[s]]);
    assert more == [] || more == [[s]];
    if more == [] {
      assert Scope(d, gs) + more == Scope(d, gs);
    } else {
      OldestFirstSnoc(Scope(d, gs), s);
    }
  }

  lemma {:induction false} OldestFirstSnoc(gs: seq<Group>, s: Source)
    requires Filled(gs) && OldestFirst(gs) && BirthsBelow(gs, s.at)
    ensures Filled(gs + [[s]]) && OldestFirst(gs + [[s]])
  {
  }

  lemma {:induction false} DecentBirths(w: World)
    requires Inv(w)
    ensures BirthsBelow(Everything(w), |w.hist|)
  {
    forall i | 0 <= i < |Everything(w)|
      ensures Everything(w)[i][0].at < |w.hist|
    {
      assert Decent(w.hist, Everything(w)[i]);
    }
  }

  lemma {:induction false} UpdateKeepsScopeOrder(d: Option<Text>, gs: seq<Group>, k: nat, g: Group)
    requires Filled(gs) && OldestFirst(Scope(d, gs)) && k < |gs| && g != [] && g[0] == gs[k][0]
    ensures Filled(gs[k := g]) && OldestFirst(Scope(d, gs[k := g]))
  {
    var a: seq<Group>, b: seq<Group> := Scope(d, gs), Scope(d, gs[k := g]);
    ScopeUpdate(d, gs, k, g);
    assert forall i | 0 <= i < |a| :: b[i][0].at == a[i][0].at;
  }

  lemma {:induction false} PlacingKeepsScopeOrder(d: Option<Text>, gs: seq<Group>, k: nat, s: Source, after: seq<Group>)
    requires Filled(gs) && OldestFirst(Scope(d, gs)) && BirthsBelow(gs, s.at) && k <= |gs|
    requires after == if k == |gs| then gs + [[s]] else gs[k := gs[k] + [s]]
    ensures Filled(after) && OldestFirst(Scope(d, after))
  {
    if k == |gs| {
      AppendKeepsScopeOrder(d, gs, s);
    } else {
      UpdateKeepsScopeOrder(d, gs, k, gs[k] + [s]);
    }
  }

  lemma {:induction false} AbsorbKeepsScopeOrder(w: World, s: Source, d: Option<Text>)
    requires Inv(w) && s.at == |w.hist| && OldestFirst(Scope(d, Everything(w)))
    ensures Filled(Everything(Absorbed(w, s))) && OldestFirst(Scope(d, Everything(Absorbed(w, s))))
  {
    var k := AbsorbPlaces(w, s);
    DecentBirths(w);
    PlacingKeepsScopeOrder(d, Everything(w), k, s, Everything(Absorbed(w, s)));
  }

  /** Order over every run: seen from any channel, entries leave, and wait, in the order of
      their first events, and the channel-less entries keep their place among them. So each
      channel is published first in, first out, and nothing is ever published across a
      channel-less entry in either direction. */
  lemma {:induction false} ScopeLeavesInOrder(ops: seq<Op>, d: Option<Text>)
    ensures Filled(Everything(Run(ops))) && OldestFirst(Scope(d, Everything(Run(ops))))
  {
    RunKeepsInv(ops);
    if ops != [] {
      var w := Run(Front(ops));
      ScopeLeavesInOrder(Front(ops), d);
      RunKeepsInv(Front(ops));
      match Last(ops)
      case Ingest(e) => AbsorbKeepsScopeOrder(w, Observed(|w.hist|, e), d);
      case Tick => TickEffect(w, d);
    }
  }

  /** Eviction stops at the first queue that is not over budget. */
  ghost predicate LeastEviction(q: Queue, n: nat)
    requires Sound(q)
  {
    n <= |q.fifo| + |q.pending| && !OverBudget(Drop(q, n))
    && forall m | 0 <= m < n :: OverBudget(Drop(q, m))
  }

  /** In every run the retained entries, the one just arriving included, are in order of
      age across both stores: every queued entry is older than every pending chunk. */
  lemma {:induction false} RetainedByAge(ops: seq<Op>, e: Event)
    ensures var w := Run(ops); OldestFirst(Retained(Arrive(w.queue, Observed(|w.hist|, e))))
  {
    var w := Run(ops);
    var s := Observed(|w.hist|, e);
    RunKeepsInv(ops);
    ObservedChannel(|w.hist|, e);
    ArriveKeepsOldestFirst(w, s, Arrive(w.queue, s));
  }

  /** An ingest evicts the fewest entries from the front of that order after which the
      budget holds or one entry is left. */
  lemma {:induction false} EvictionTakesOldest(w: World, s: Source, q: Queue, n: nat)
    requires Sound(w.queue) && q == Arrive(w.queue, s) && n == ShedCount(q)
    ensures LeastEviction(q, n) && n <= |Retained(q)|
    ensures Absorbed(w, s).log == w.log + [Evicted(Retained(q)[..n])]
    ensures Retained(Absorbed(w, s).queue) == Retained(q)[n..]
    ensures TotalBytes(Absorbed(w, s).queue) <= BUDGET || |Retained(Absorbed(w, s).queue)| == 1
  {
    RetainedAfter(w, s);
  }

  lemma {:induction false} EmptyWeighsNothing(q: Queue)
    requires Sound(q) && Retained(q) == []
    ensures TotalBytes(q) == 0
  {
    assert q.fifo == [] && q.pending == [] by {
      assert |Retained(q)| == |q.fifo| + |q.pending|;
    }
  }

  lemma {:induction false} RetainedAfter(w: World, s: Source)
    requires Sound(w.queue)
    ensures TotalBytes(Absorbed(w, s).queue) <= BUDGET || |Retained(Absorbed(w, s).queue)| == 1
  {
    var q := Arrive(w.queue, s);
    var i := AcceptCases(w.queue.pending, s);
    assert Absorbed(w, s).queue == Drop(q, ShedCount(q));
    var left := Drop(q, ShedCount(q));
    if Retained(left) == [] {
      EmptyWeighsNothing(left);
    }
  }
}
