/** When two chunks of one key end up in one entry, over every run. */
module Coalescing {
  import opened Text
  import opened Chunks
  import opened Events
  import opened Groups
  import opened Pipeline
  import opened GatherProofs
  import opened PipelineProofs

  /** The group carries the event that arrived as number `at`. */
  ghost predicate Carries(g: Group, at: nat) {
    exists x | 0 <= x < |g| :: g[x].at == at
  }

  ghost predicate Carried(gs: seq<Group>, at: nat) {
    exists i | 0 <= i < |gs| :: Carries(gs[i], at)
  }

  ghost predicate Together(gs: seq<Group>, a: nat, b: nat) {
    exists i | 0 <= i < |gs| :: Carries(gs[i], a) && Carries(gs[i], b)
  }

  // ------------------------------------------- every event in one entry

  /** The group is made of events of the history, all of one stream; an event that is no
      chunk is alone. */
  ghost predicate Sourced(hist: seq<Source>, g: Group) {
    && g != []
    && (forall x | 0 <= x < |g| :: g[x].at < |hist| && g[x] == hist[g[x].at] && g[x].stream == g[0].stream)
    && (g[0].stream.Plain? ==> |g| == 1)
  }

  ghost predicate AllSourced(hist: seq<Source>, gs: seq<Group>) {
    forall i | 0 <= i < |gs| :: Sourced(hist, gs[i])
  }

  ghost predicate Numbered(hist: seq<Source>) {
    forall at | 0 <= at < |hist| :: hist[at].at == at
  }

  lemma {:induction false} SourcedLater(hist: seq<Source>, s: Source, g: Group)
    requires Sourced(hist, g)
    ensures Sourced(hist + [s], g)
  {
  }

  lemma {:induction false} PlacedSourced(hist: seq<Source>, gs: seq<Group>, k: nat, s: Source, after: seq<Group>)
    requires AllSourced(hist, gs) && k <= |gs| && s.at == |hist|
    requires k == |gs| ==> after == gs + [[s]]
    requires k < |gs| ==> gs[k] != [] && gs[k][0].stream == s.stream && s.stream.Chunked? && after == gs[k := gs[k] + [s]]
    ensures AllSourced(hist + [s], after)
  {
    hide Sourced;
    forall i | 0 <= i < |after|
      ensures Sourced(hist + [s], after[i])
    {
      if i < |gs| {
        SourcedLater(hist, s, gs[i]);
      }
      if i == k {
        var g := if k < |gs| then gs[k] else [];
        GrownSourced(hist, g, s);
        assert after[k] == g + [s];
      }
    }
  }

  lemma {:induction false} GrownSourced(hist: seq<Source>, g: Group, s: Source)
    requires s.at == |hist|
    requires g != [] ==> Sourced(hist, g) && g[0].stream == s.stream && s.stream.Chunked?
    ensures Sourced(hist + [s], g + [s])
  {
    if g != [] {
      SourcedLater(hist, s, g);
    }
  }

  lemma {:induction false} RunIsSourced(ops: seq<Op>)
    ensures Numbered(Run(ops).hist) && AllSourced(Run(ops).hist, Everything(Run(ops)))
  {
    if ops != [] {
      hide Sourced, Everything, Ticked, Absorbed;
      var w := Run(Front(ops));
      RunIsSourced(Front(ops));
      RunKeepsInv(Front(ops));
      match Last(ops)
      case Ingest(e) => IngestSourced(w, Observed(|w.hist|, e));
      case Tick => TickSourced(w);
    }
  }

  lemma {:induction false} IngestSourced(w: World, s: Source)
    requires Inv(w) && s.at == |w.hist| && Numbered(w.hist) && AllSourced(w.hist, Everything(w))
    ensures Absorbed(w, s).hist == w.hist + [s] && Numbered(w.hist + [s])
    ensures AllSourced(w.hist + [s], Everything(Absorbed(w, s)))
  {
    hide Sourced;
    var k := AbsorbPlaces(w, s);
    PlacedSourced(w.hist, Everything(w), k, s, Everything(Absorbed(w, s)));
  }

  lemma {:induction false} TickSourced(w: World)
    requires Inv(w) && AllSourced(w.hist, Everything(w))
    ensures Ticked(w).hist == w.hist && AllSourced(w.hist, Everything(Ticked(w)))
  {
    hide Sourced;
    TickKeepsGroups(w);
    forall i | 0 <= i < |Everything(Ticked(w))|
      ensures Sourced(w.hist, Everything(Ticked(w))[i])
    {
      assert Everything(Ticked(w))[i] in Everything(w);
    }
  }

  lemma {:induction false} SourcesCount(st: Stream, gs: seq<Group>, p: nat, x: Source)
    requires Filled(gs) && p < |gs| && gs[p][0].stream == st && x in gs[p]
    ensures multiset(SourcesOf(st, gs))[x] >= 1
  {
    if p < |gs| - 1 {
      SourcesCount(st, Front(gs), p, x);
    }
  }

  lemma {:induction false} SourcesCountTwice(st: Stream, gs: seq<Group>, p: nat, q: nat, x: Source)
    requires Filled(gs) && p < q < |gs| && gs[p][0].stream == st && gs[q][0].stream == st && x in gs[p] && x in gs[q]
    ensures multiset(SourcesOf(st, gs))[x] >= 2
  {
    if q < |gs| - 1 {
      SourcesCountTwice(st, Front(gs), p, q, x);
    } else {
      SourcesCount(st, Front(gs), p, x);
    }
  }

  lemma {:induction false} SelectedOnce(st: Stream, hist: seq<Source>, x: Source)
    requires Numbered(hist)
    ensures multiset(Select(st, hist))[x] <= 1
    ensures x.at >= |hist| ==> multiset(Select(st, hist))[x] == 0
  {
    if hist != [] {
      SelectedOnce(st, Front(hist), x);
    }
  }

  /** In every run no event is carried by two entries, departed or retained. */
  lemma {:induction false} OneEntryOnly(ops: seq<Op>, at: nat, p: nat, q: nat)
    requires var all := Everything(Run(ops)); p <= q < |all| && Carries(all[p], at) && Carries(all[q], at)
    ensures p == q
  {
    hide Run, Everything;
    var w, all: seq<Group> := Run(ops), Everything(Run(ops));
    RunIsSourced(ops);
    if p < q {
      var x :| 0 <= x < |all[p]| && all[p][x].at == at;
      var y :| 0 <= y < |all[q]| && all[q][y].at == at;
      var s := w.hist[at];
      assert Sourced(w.hist, all[p]) && Sourced(w.hist, all[q]);
      assert all[p][x] == s && all[q][y] == s;
      StreamsExactlyOnce(ops, s.stream);
      SourcesCountTwice(s.stream, all, p, q, s);
      SelectedOnce(s.stream, w.hist, s);
      assert false;
    }
  }

  // ------------------------------------------------ what one event does

  /** The event makes the coalescer release its pending entries: it is no chunk, or the
      joined text of its key would reach CHUNK_MAX. */
  ghost predicate Displaces(p: seq<Group>, s: Source)
    requires Filled(p)
  {
    s.stream.Plain?
    || exists i | 0 <= i < |p| :: p[i][0].stream == s.stream && |TextOf(p[i])| + |s.text| >= CHUNK_MAX
  }

  ghost predicate DistinctStreams(p: seq<Group>)
    requires Filled(p)
  {
    forall i, j | 0 <= i < j < |p| :: p[i][0].stream != p[j][0].stream
  }

  /** An event that displaces releases every pending entry. Any other is a chunk that
      releases none: it is the last event of the entry of its key, if one is pending, and
      that is the only entry to change; if none is, it starts an entry behind the others. */
  lemma {:induction false} ReleasesExactlyWhen(p: seq<Group>, s: Source) returns (i: nat)
    requires Filled(p) && DistinctStreams(p)
    ensures i <= |p|
    ensures Displaces(p, s) ==>
              Accept(p, s) == if s.stream.Plain? then Accepted([], p + [[s]]) else Accepted([[s]], p)
    ensures !Displaces(p, s) ==>
              Accept(p, s) == Accepted(if i == |p| then p + [[s]] else p[i := p[i] + [s]], [])
    ensures i < |p| ==> p[i][0].stream == s.stream
    ensures i == |p| ==> forall k | 0 <= k < |p| :: p[k][0].stream != s.stream
  {
    i := FindStream(p, s.stream);
    if i < |p| && s.stream.Chunked? {
      assert Displaces(p, s) <==> |TextOf(p[i])| + |s.text| >= CHUNK_MAX;
    }
  }

  /** The step ends the coalescing of what is pending. */
  ghost predicate Flushes(w: World, op: Op)
    requires Sound(w.queue)
  {
    match op case Tick => true case Ingest(e) => Displaces(w.queue.pending, Observed(|w.hist|, e))
  }

  /** The step evicts the entry that carries event `at`. */
  ghost predicate Sheds(w: World, op: Op, at: nat)
    requires Sound(w.queue)
  {
    var log := Step(w, op).log;
    |log| == |w.log| + 1 && Last(log).Evicted? && Carried(Last(log).groups, at)
  }

  lemma {:induction false} ArriveOpen(p: seq<Group>, s: Source, at: nat)
    requires Filled(p) && DistinctStreams(p) && at != s.at
    ensures Carried(Accept(p, s).pending, at) <==> Carried(p, at) && !Displaces(p, s)
  {
    hide Displaces, Accept;
    var i := ReleasesExactlyWhen(p, s);
    var after := Accept(p, s).pending;
    if Displaces(p, s) {
    } else if i == |p| {
      if k :| 0 <= k < |p| && Carries(p[k], at) { assert after[k] == p[k]; }
    } else {
      GrownCarries(p[i], s, at);
      if k :| 0 <= k < |p| && Carries(p[k], at) { assert Carries(after[k], at); }
      if k :| 0 <= k < |after| && Carries(after[k], at) { assert Carries(p[k], at); }
    }
  }

  lemma {:induction false} GrownCarries(g: Group, s: Source, at: nat)
    ensures Carries(g + [s], at) <==> Carries(g, at) || s.at == at
  {
    var h := g + [s];
    if x :| 0 <= x < |g| && g[x].at == at { assert h[x] == g[x]; }
    if s.at == at { assert h[|g|] == s; }
  }

  lemma {:induction false} DropOpen(q: Queue, n: nat, at: nat)
    requires Sound(q) && n <= |q.fifo| + |q.pending|
    ensures Carried(Drop(q, n).pending, at) ==> Carried(q.pending, at)
    ensures Carried(q.pending, at) ==> Carried(Drop(q, n).pending, at) || Carried(Retained(q)[..n], at)
  {
    hide Carries;
    var f, left := |q.fifo|, Drop(q, n).pending;
    if i :| 0 <= i < |left| && Carries(left[i], at) {
      assert left[i] in q.pending;
    }
    if i :| 0 <= i < |q.pending| && Carries(q.pending[i], at) {
      if f + i < n {
        assert Retained(q)[..n][f + i] == q.pending[i];
      } else {
        assert left[if n > f then i - (n - f) else i] == q.pending[i];
      }
    }
  }

  ghost predicate Once(all: seq<Group>, at: nat) {
    forall p, q | 0 <= p <= q < |all| && Carries(all[p], at) && Carries(all[q], at) :: p == q
  }

  lemma {:induction false} OnceApart(before: seq<Group>, gone: seq<Group>, left: seq<Group>, at: nat)
    requires Once(before + gone + left, at) && Carried(left, at)
    ensures !Carried(gone, at)
  {
    hide Carries;
    var all := before + gone + left;
    var i :| 0 <= i < |left| && Carries(left[i], at);
    assert all[|before| + |gone| + i] == left[i];
    assert forall j | 0 <= j < |gone| :: all[|before| + j] == gone[j];
  }

  /** After eviction an event is pending exactly when it was before and is not evicted. */
  lemma {:induction false} ShedOpen(w: World, s: Source, op: Op, at: nat)
    requires Sound(w.queue) && Step(w, op) == Absorbed(w, s) && Once(Everything(Step(w, op)), at)
    ensures Carried(Step(w, op).queue.pending, at)
       <==> Carried(Arrive(w.queue, s).pending, at) && !Sheds(w, op, at)
  {
    hide Arrive, Step, Carries, Once;
    var q := Arrive(w.queue, s);
    var n := ShedCount(q);
    var gone, left, d := Retained(q)[..n], Drop(q, n), DepartedGroups(w.log);
    var next := Absorbed(w, s);
    assert Last(next.log) == Evicted(gone) && next.queue == left;
    DropOpen(q, n, at);
    if Carried(left.pending, at) {
      DepartedSnoc(w.log, Evicted(gone));
      Associative(d + gone, GroupsOf(left.fifo), left.pending);
      Associative(d, gone, GroupsOf(left.fifo));
      assert Everything(next) == d + gone + Retained(left);
      RetainedCarries(left, at);
      OnceApart(d, gone, Retained(left), at);
    }
  }

  lemma {:induction false} RetainedCarries(q: Queue, at: nat)
    requires Carried(q.pending, at)
    ensures Carried(Retained(q), at)
  {
    var i :| 0 <= i < |q.pending| && Carries(q.pending[i], at);
    assert Retained(q)[|q.fifo| + i] == q.pending[i];
  }

  // ------------------------------------------------------- over a run

  /** The run before its step `k`. */
  function Before(ops: seq<Op>, k: nat): (w: World)
    requires k <= |ops|
    ensures Sound(w.queue)
  {
    Run(ops[..k])
  }

  lemma {:induction false} NextWorld(ops: seq<Op>, k: nat)
    requires k < |ops|
    ensures Before(ops, k + 1) == Step(Before(ops, k), ops[k])
  {
    var next := ops[..k + 1];
    assert Front(next) == ops[..k] && Last(next) == ops[k];
  }

  lemma {:induction false} RunHasOnce(ops: seq<Op>, at: nat)
    ensures Once(Everything(Run(ops)), at)
  {
    hide Run, Everything;
    var all := Everything(Run(ops));
    forall p, q | 0 <= p <= q < |all| && Carries(all[p], at) && Carries(all[q], at)
      ensures p == q
    {
      OneEntryOnly(ops, at, p, q);
    }
  }

  lemma {:induction false} RunIsDistinct(ops: seq<Op>)
    ensures Inv(Run(ops)) && DistinctStreams(Run(ops).queue.pending)
  {
    RunKeepsInv(ops);
  }

  /** What one step of a run does to a chunk that is pending. */
  lemma {:induction false} OpenStep(ops: seq<Op>, k: nat, at: nat)
    requires k < |ops| && at < |Before(ops, k).hist|
    ensures Carried(Before(ops, k + 1).queue.pending, at)
       <==> Carried(Before(ops, k).queue.pending, at)
            && !Flushes(Before(ops, k), ops[k]) && !Sheds(Before(ops, k), ops[k], at)
    ensures |Before(ops, k + 1).hist| >= |Before(ops, k).hist|
  {
    hide Run, Everything, Displaces, Arrive, Once, Accept;
    NextWorld(ops, k);
    var w := Before(ops, k);
    RunIsDistinct(ops[..k]);
    match ops[k]
    case Ingest(e) =>
      var s := Observed(|w.hist|, e);
      ArriveOpen(w.queue.pending, s, at);
      RunHasOnce(ops[..k + 1], at);
      ArrivePending(w.queue, s);
      ShedOpen(w, s, ops[k], at);
    case Tick =>
      TickLeavesNothing(w);
  }

  lemma {:induction false} ArrivePending(q: Queue, s: Source)
    requires Sound(q)
    ensures Arrive(q, s).pending == Accept(q.pending, s).pending
  {
  }

  lemma {:induction false} TickLeavesNothing(w: World)
    requires Sound(w.queue)
    ensures Ticked(w).queue.pending == []
  {
  }

  /** The step that ingests a chunk leaves it pending unless it evicts it again. */
  lemma {:induction false} OpenAtFirst(ops: seq<Op>, k: nat, at: nat)
    requires k < |ops| && ops[k].Ingest? && StreamOf(ops[k].event).Chunked? && at == |Before(ops, k).hist|
    ensures Carried(Before(ops, k + 1).queue.pending, at) <==> !Sheds(Before(ops, k), ops[k], at)
    ensures |Before(ops, k + 1).hist| == at + 1
  {
    hide Run, Everything, Displaces, Arrive, Once, Accept;
    NextWorld(ops, k);
    var w, s := Before(ops, k), Observed(at, ops[k].event);
    RunIsDistinct(ops[..k]);
    RunHasOnce(ops[..k + 1], at);
    ArrivePending(w.queue, s);
    ArrivesPending(w.queue.pending, s);
    ShedOpen(w, s, ops[k], at);
  }

  lemma {:induction false} ArrivesPending(p: seq<Group>, s: Source)
    requires Filled(p) && DistinctStreams(p) && s.stream.Chunked?
    ensures Carried(Accept(p, s).pending, s.at)
  {
    hide Displaces, Accept;
    var i := ReleasesExactlyWhen(p, s);
    var after := Accept(p, s).pending;
    GrownCarries([], s, s.at);
    assert [] + [s] == [s];
    if Displaces(p, s) {
      assert after[0] == [s];
    } else if i == |p| {
      assert after[i] == [s];
    } else {
      GrownCarries(p[i], s, s.at);
      assert after[i] == p[i] + [s];
    }
  }

  /** From the step that ingests the chunk, number `n`, up to step `k`, nothing flushed it
      and nothing evicted it. */
  ghost predicate Undisturbed(ops: seq<Op>, n: nat, k: nat)
    requires n < k <= |ops|
  {
    && (forall j | n < j < k :: !Flushes(Before(ops, j), ops[j]))
    && (forall j | n <= j < k :: !Sheds(Before(ops, j), ops[j], |Before(ops, n).hist|))
  }

  lemma {:induction false} PendingExactlyWhen(ops: seq<Op>, n: nat, k: nat)
    requires n < k <= |ops| && ops[n].Ingest? && StreamOf(ops[n].event).Chunked?
    ensures Carried(Before(ops, k).queue.pending, |Before(ops, n).hist|) <==> Undisturbed(ops, n, k)
    ensures |Before(ops, n).hist| < |Before(ops, k).hist|
    decreases k
  {
    hide Flushes, Sheds, Carried, Before;
    var at := |Before(ops, n).hist|;
    if k == n + 1 {
      OpenAtFirst(ops, n, at);
    } else {
      PendingExactlyWhen(ops, n, k - 1);
      OpenStep(ops, k - 1, at);
    }
  }

  // ---------------------------------------------------- joining and staying

  lemma {:induction false} NotYetCarried(hist: seq<Source>, gs: seq<Group>, at: nat)
    requires AllSourced(hist, gs) && at >= |hist|
    ensures !Carried(gs, at)
  {
    forall i | 0 <= i < |gs|
      ensures !Carries(gs[i], at)
    {
      assert Sourced(hist, gs[i]);
    }
  }

  lemma {:induction false} AloneInLast(all: seq<Group>, s: Source, a: nat)
    requires !Carried(all, s.at) && a != s.at
    ensures !Together(all + [[s]], a, s.at)
  {
    hide Carries;
    var after := all + [[s]];
    GrownCarries([], s, a);
    assert [] + [s] == [s];
    assert forall j | 0 <= j < |all| :: after[j] == all[j];
    assert !Carries([], a) by { NothingCarried(a); }
  }

  lemma {:induction false} NothingCarried(at: nat)
    ensures !Carries([], at)
  {
  }

  lemma {:induction false} JoinedInto(all: seq<Group>, k: nat, s: Source, a: nat)
    requires !Carried(all, s.at) && a != s.at && k < |all|
    ensures Together(all[k := all[k] + [s]], a, s.at) <==> Carries(all[k], a)
  {
    hide Carries;
    var after := all[k := all[k] + [s]];
    GrownCarries(all[k], s, a);
    GrownCarries(all[k], s, s.at);
    assert after[k] == all[k] + [s];
    assert forall j | 0 <= j < |all| && j != k :: after[j] == all[j];
  }

  /** The pending entry that carries a chunk is the one of its key. */
  lemma {:induction false} PendingOfKey(w: World, a: nat, k: nat)
    requires Sound(w.queue) && AllSourced(w.hist, Everything(w)) && k < |w.queue.pending| && Carries(w.queue.pending[k], a)
    ensures a < |w.hist| && w.queue.pending[k][0].stream == w.hist[a].stream
  {
    var all: seq<Group>, g := Everything(w), w.queue.pending[k];
    var at := |DepartedGroups(w.log)| + |w.queue.fifo| + k;
    assert all[at] == g && Sourced(w.hist, all[at]);
    var x :| 0 <= x < |g| && g[x].at == a;
  }

  lemma {:induction false} ArrivedLast(w: World, s: Source)
    requires Sound(w.queue)
    requires var p, r := w.queue.pending, Accept(w.queue.pending, s);
             r == Accepted([[s]], p) || r == Accepted(p + [[s]], [])
    ensures Everything(Absorbed(w, s)) == Everything(w) + [[s]]
  {
    hide Accept, Enter, Absorbed;
    var p, r, d, f := w.queue.pending, Accept(w.queue.pending, s), DepartedGroups(w.log), GroupsOf(w.queue.fifo);
    ArrivedAll(w, s);
    assert d + (f + r.released + r.pending) == d + (f + p) + [[s]];
  }

  lemma {:induction false} ArrivedInto(w: World, s: Source, i: nat, k: nat)
    requires Sound(w.queue) && i < |w.queue.pending| && k == |DepartedGroups(w.log)| + |w.queue.fifo| + i
    requires var p := w.queue.pending; Accept(p, s) == Accepted(p[i := p[i] + [s]], [])
    ensures k < |Everything(w)| && Everything(w)[k] == w.queue.pending[i]
    ensures Everything(Absorbed(w, s)) == Everything(w)[k := w.queue.pending[i] + [s]]
  {
    hide Accept, Enter, Absorbed;
    var p, r, d, f := w.queue.pending, Accept(w.queue.pending, s), DepartedGroups(w.log), GroupsOf(w.queue.fifo);
    ArrivedAll(w, s);
    UpdateBehind(f, p, i, p[i] + [s]);
    UpdateBehind(d, f + p, |f| + i, p[i] + [s]);
    assert f + [] + r.pending == f + r.pending;
  }

  lemma {:induction false} ArrivedAll(w: World, s: Source)
    requires Sound(w.queue)
    ensures var r := Accept(w.queue.pending, s);
            Everything(Absorbed(w, s)) == DepartedGroups(w.log) + (GroupsOf(w.queue.fifo) + r.released + r.pending)
  {
    hide Enter, EnterAll;
    var r, q := Accept(w.queue.pending, s), Arrive(w.queue, s);
    AbsorbEffect(w, s, q);
    EnterAllGroups(r.released);
    GroupsOfConcat(w.queue.fifo, EnterAll(r.released));
  }

  /** The new chunk joins the entry of an older one of its key exactly when that entry is
      pending and nothing displaces it. */
  lemma {:induction false} JoinExactlyWhen(w: World, s: Source, a: nat)
    requires Inv(w) && AllSourced(w.hist, Everything(w)) && s.at == |w.hist|
    requires a < |w.hist| && w.hist[a].stream == s.stream && s.stream.Chunked?
    ensures Together(Everything(Absorbed(w, s)), a, s.at)
       <==> Carried(w.queue.pending, a) && !Displaces(w.queue.pending, s)
  {
    hide Displaces, Sourced, Accept, Everything, AllSourced, Carries, Absorbed;
    var p: seq<Group>, all: seq<Group> := w.queue.pending, Everything(w);
    var i := ReleasesExactlyWhen(p, s);
    var k := |DepartedGroups(w.log)| + |w.queue.fifo| + i;
    NotYetCarried(w.hist, all, s.at);
    if j :| 0 <= j < |p| && Carries(p[j], a) {
      PendingOfKey(w, a, j);
      assert p[j][0].stream == s.stream;
    }
    if !Displaces(p, s) && i < |p| {
      ArrivedInto(w, s, i, k);
      JoinedInto(all, k, s, a);
    } else {
      ArrivedLast(w, s);
      AloneInLast(all, s, a);
    }
  }

  /** Being in one entry is settled once both have arrived. */
  lemma {:induction false} TogetherStays(w: World, op: Op, a: nat, b: nat)
    requires Inv(w) && a < |w.hist| && b < |w.hist|
    ensures Together(Everything(Step(w, op)), a, b) <==> Together(Everything(w), a, b)
  {
    hide Carries, Everything, Absorbed, Ticked;
    var all := Everything(w);
    match op
    case Tick =>
      TickKeepsGroups(w);
      SameTogether(all, Everything(Ticked(w)), a, b);
    case Ingest(e) =>
      var s := Observed(|w.hist|, e);
      var k := AbsorbPlaces(w, s);
      PlacedTogether(all, k, s, Everything(Absorbed(w, s)), a, b);
  }

  lemma {:induction false} SameTogether(all: seq<Group>, after: seq<Group>, a: nat, b: nat)
    requires forall g :: g in all <==> g in after
    ensures Together(all, a, b) <==> Together(after, a, b)
  {
    hide Carries;
    if i :| 0 <= i < |all| && Carries(all[i], a) && Carries(all[i], b) {
      assert all[i] in after;
    }
    if i :| 0 <= i < |after| && Carries(after[i], a) && Carries(after[i], b) {
      assert after[i] in all;
    }
  }

  lemma {:induction false} PlacedTogether(all: seq<Group>, k: nat, s: Source, after: seq<Group>, a: nat, b: nat)
    requires k <= |all| && a != s.at && b != s.at
    requires k == |all| ==> after == all + [[s]]
    requires k < |all| ==> after == all[k := all[k] + [s]]
    ensures Together(after, a, b) <==> Together(all, a, b)
  {
    hide Carries;
    var g := if k < |all| then all[k] else [];
    GrownCarries(g, s, a);
    GrownCarries(g, s, b);
    NothingCarried(a);
    assert after[k] == g + [s];
    assert forall j | 0 <= j < |all| && j != k :: after[j] == all[j];
  }

  lemma {:induction false} TogetherLater(ops: seq<Op>, k: nat, a: nat, b: nat)
    requires k <= |ops| && a < |Before(ops, k).hist| && b < |Before(ops, k).hist|
    ensures |Run(ops).hist| >= |Before(ops, k).hist|
    ensures Together(Everything(Run(ops)), a, b) <==> Together(Everything(Before(ops, k)), a, b)
  {
    hide Together, Everything, Step;
    if k == |ops| {
      assert ops[..k] == ops;
    } else {
      var front := Front(ops);
      assert front[..k] == ops[..k];
      TogetherLater(front, k, a, b);
      RunKeepsInv(front);
      HistoryGrows(Run(front), Last(ops));
      TogetherStays(Run(front), Last(ops), a, b);
    }
  }

  lemma {:induction false} IngestStep(w: World, op: Op, s: Source)
    requires Sound(w.queue) && op.Ingest? && s == Observed(|w.hist|, op.event)
    ensures Step(w, op) == Absorbed(w, s) && s.at == |w.hist| && s.stream == StreamOf(op.event)
    ensures Flushes(w, op) <==> Displaces(w.queue.pending, s)
  {
  }

  /** Coalescing over every run: two chunks of one key are in one entry, pending, queued or
      gone, exactly when between the two no publish slot fell, no other kind of event came
      and no text overflowed, the second chunk's included, and until the second came the
      entry of the first was not evicted. */
  lemma {:induction false} CoalescedExactlyWhen(ops: seq<Op>, n: nat, m: nat)
    requires n < m < |ops| && ops[n].Ingest? && ops[m].Ingest?
    requires StreamOf(ops[n].event).Chunked? && StreamOf(ops[m].event) == StreamOf(ops[n].event)
    ensures Together(Everything(Run(ops)), |Before(ops, n).hist|, |Before(ops, m).hist|)
       <==> Undisturbed(ops, n, m) && !Flushes(Before(ops, m), ops[m])
  {
    hide Together, Everything, Displaces, Carried, Undisturbed, Sourced, Flushes, Step, Observed, Inv, StreamOf, Run,
         Absorbed;
    var w, a, b := Before(ops, m), |Before(ops, n).hist|, |Before(ops, m).hist|;
    var s := Observed(b, ops[m].event);
    PendingExactlyWhen(ops, n, m);
    SourceAt(ops, n, m);
    NextWorld(ops, m);
    IngestStep(w, ops[m], s);
    ObservedStream(a, ops[n].event);
    RunKeepsInv(ops[..m]);
    RunIsSourced(ops[..m]);
    JoinExactlyWhen(w, s, a);
    HistoryGrows(w, ops[m]);
    TogetherLater(ops, m + 1, a, b);
  }

  lemma {:induction false} ObservedStream(at: nat, e: Event)
    ensures Observed(at, e).stream == StreamOf(e)
  {
  }

  /** The history keeps what it holds. */
  lemma {:induction false} SourceAt(ops: seq<Op>, n: nat, k: nat)
    requires n < k <= |ops| && ops[n].Ingest?
    ensures var at := |Before(ops, n).hist|;
            at < |Before(ops, k).hist| && Before(ops, k).hist[at] == Observed(at, ops[n].event)
    decreases k
  {
    hide Observed, Step, Run;
    NextWorld(ops, k - 1);
    HistoryGrows(Before(ops, k - 1), ops[k - 1]);
    if n < k - 1 {
      SourceAt(ops, n, k - 1);
    }
  }

  /** Two chunks of one message, back to back on an empty queue, become one entry. */
  lemma {:induction false} TwoChunksMerge(e: Event, f: Event)
    requires StreamOf(e).Chunked? && StreamOf(f) == StreamOf(e) && |ChunkText(e)| + |ChunkText(f)| < CHUNK_MAX
    ensures Run([Op.Ingest(e), Op.Ingest(f)]).queue == Queue([], [[Observed(0, e), Observed(1, f)]])
  {
    hide SerializedLen, StreamOf, ChunkText, Absorbed, Accept;
    var ops, one := [Op.Ingest(e), Op.Ingest(f)], [Op.Ingest(e)];
    var s, t := Observed(0, e), Observed(1, f);
    assert Front(ops) == one && Front(one) == [] && Last(one) == Op.Ingest(e) && Last(ops) == Op.Ingest(f);
    FirstTwo(s, t);
    assert Run(one) == Absorbed(START, s);
    SingleStays(START, s, [[s]]);
    HistoryGrows(START, Op.Ingest(e));
    assert Run(ops) == Absorbed(Run(one), t);
    SingleStays(Run(one), t, [[s, t]]);
  }

  lemma {:induction false} FirstTwo(s: Source, t: Source)
    requires s.stream.Chunked? && t.stream == s.stream && |s.text| + |t.text| < CHUNK_MAX
    ensures Accept([], s) == Accepted([[s]], []) && Accept([[s]], t) == Accepted([[s, t]], [])
  {
    TextOfSnoc([], s);
    assert [] + [s] == [s] && [] + [[s]] == [[s]] && [s] + [t] == [s, t];
  }

  /** A single entry is never evicted. */
  lemma {:induction false} SingleStays(w: World, s: Source, p: seq<Group>)
    requires Sound(w.queue) && w.queue.fifo == [] && Filled(p) && |p| == 1
    requires Accept(w.queue.pending, s) == Accepted(p, [])
    ensures Absorbed(w, s).queue == Queue([], p)
  {
    hide Accept, RecordedBytes;
    assert [] + EnterAll([]) == [];
    assert Arrive(w.queue, s) == Queue([], p);
    assert p[0..] == p;
  }

  /** In every run the event made of an entry stands at the position of the last event it
      absorbed, and has everything else but its payload from the first. */
  lemma {:induction false} MergedPosition(ops: seq<Op>, i: nat)
    requires i < |Everything(Run(ops))|
    ensures Everything(Run(ops))[i] != []
    ensures var g, m := Everything(Run(ops))[i], Merged(Everything(Run(ops))[i]);
            m.seq_ == Last(g).event.seq_ && m.timestamp == Last(g).event.timestamp
            && g[0].event == m.(seq_ := g[0].event.seq_, timestamp := g[0].event.timestamp, payload := g[0].event.payload)
  {
    hide Run, Everything, SetChunkText, TextOf;
    RunKeepsInv(ops);
    RunIsSourced(ops);
    assert Sourced(Run(ops).hist, Everything(Run(ops))[i]);
  }

  /** In every run a pending entry is charged the serialized length of its first event and,
      once more, all the text its merged event carries. */
  lemma {:induction false} PendingCharge(ops: seq<Op>, i: nat)
    requires i < |Run(ops).queue.pending|
    ensures var g := Run(ops).queue.pending[i];
            && g != [] && ChunkOf(Merged(g)).Some?
            && Recorded(g) == SerializedLen(g[0].event) + |ChunkOf(Merged(g)).value.text|
  {
    hide Run, SerializedLen, ChunkOf, Merged, TextOf;
    var w := Run(ops);
    var g := w.queue.pending[i];
    RunKeepsInv(ops);
    RunIsGenuine(ops);
    var at := |DepartedGroups(w.log)| + |w.queue.fifo| + i;
    assert Everything(w)[at] == g && Genuine(Everything(w)[at]);
    assert g[0] == Observed(g[0].at, g[0].event);
    ReadsAsRecorded(g);
  }
}
