/** No entry waits for ever: how soon it leaves while events keep arriving. */
module Fairness {
  import opened Text
  import opened Groups
  import opened Pipeline
  import opened GatherProofs
  import opened PipelineProofs

  /** How many of the groups began no later than `b`. */
  function Older(gs: seq<Group>, b: nat): (n: nat)
    requires Filled(gs)
    ensures n <= |gs|
  {
    if gs == [] then 0 else Older(Front(gs), b) + if Last(gs)[0].at <= b then 1 else 0
  }

  function Ticks(ops: seq<Op>): nat {
    if ops == [] then 0 else Ticks(Front(ops)) + if Last(ops).Tick? then 1 else 0
  }

  lemma {:induction false} OlderSnoc(gs: seq<Group>, g: Group, b: nat)
    requires Filled(gs) && g != []
    ensures Older(gs + [g], b) == Older(gs, b) + if g[0].at <= b then 1 else 0
  {
    assert Front(gs + [g]) == gs;
  }

  lemma {:induction false} OlderConcat(a: seq<Group>, c: seq<Group>, b: nat)
    requires Filled(a) && Filled(c)
    ensures Filled(a + c) && Older(a + c, b) == Older(a, b) + Older(c, b)
  {
    if c == [] {
      assert a + c == a;
    } else {
      OlderConcat(a, Front(c), b);
      Associative(a, Front(c), [Last(c)]);
      assert c == Front(c) + [Last(c)];
      OlderSnoc(a + Front(c), Last(c), b);
    }
  }

  lemma {:induction false} OlderSameBirths(gs: seq<Group>, hs: seq<Group>, b: nat)
    requires Filled(gs) && Filled(hs) && |gs| == |hs|
    requires forall i | 0 <= i < |gs| :: gs[i][0] == hs[i][0]
    ensures Older(gs, b) == Older(hs, b)
  {
    if gs != [] {
      OlderSameBirths(Front(gs), Front(hs), b);
    }
  }

  lemma {:induction false} NoneOlder(gs: seq<Group>, b: nat)
    requires Filled(gs) && Older(gs, b) == 0
    ensures forall i | 0 <= i < |gs| :: gs[i][0].at > b
  {
    if gs != [] {
      NoneOlder(Front(gs), b);
    }
  }

  lemma {:induction false} FrontIsOlder(gs: seq<Group>, b: nat)
    requires Filled(gs) && OldestFirst(gs) && Older(gs, b) > 0
    ensures gs[0][0].at <= b
  {
    if |gs| > 1 && Older(Front(gs), b) > 0 {
      FrontIsOlder(Front(gs), b);
    }
  }

  /** In order of age, the entry with `n` before it is one of `n + 1` that old. */
  lemma {:induction false} OlderAt(gs: seq<Group>, n: nat)
    requires Filled(gs) && OldestFirst(gs) && n < |gs|
    ensures Older(gs, gs[n][0].at) == n + 1
  {
    if n < |gs| - 1 {
      OlderAt(Front(gs), n);
    } else {
      AllOlder(Front(gs), gs[n][0].at);
    }
  }

  lemma {:induction false} AllOlder(gs: seq<Group>, b: nat)
    requires Filled(gs) && forall i | 0 <= i < |gs| :: gs[i][0].at <= b
    ensures Older(gs, b) == |gs|
  {
    if gs != [] {
      AllOlder(Front(gs), b);
    }
  }

  /** An ingest puts nothing before an entry: it joins a group, or follows them all. */
  lemma {:induction false} IngestKeepsOlder(w: World, s: Source, b: nat)
    requires Inv(w) && b < s.at
    ensures Filled(Retained(Absorbed(w, s).queue))
    ensures Older(Retained(Absorbed(w, s).queue), b) <= Older(Retained(w.queue), b)
  {
    var q, r := Arrive(w.queue, s), Retained(w.queue);
    var k := ArriveEffect(w.queue, s);
    ArrivedOlder(r, k, s, Retained(q), b);
    var n := ShedCount(q);
    SuffixOlder(Retained(q), n, b);
  }

  lemma {:induction false} ArrivedOlder(r: seq<Group>, k: nat, s: Source, after: seq<Group>, b: nat)
    requires Filled(r) && k <= |r| && b < s.at
    requires after == if k == |r| then r + [[s]] else r[k := r[k] + [s]]
    ensures Filled(after) && Older(after, b) == Older(r, b)
  {
    if k == |r| {
      OlderSnoc(r, [s], b);
    } else {
      OlderSameBirths(after, r, b);
    }
  }

  lemma {:induction false} SuffixOlder(gs: seq<Group>, n: nat, b: nat)
    requires Filled(gs) && n <= |gs|
    ensures Filled(gs[n..]) && Older(gs[n..], b) <= Older(gs, b)
  {
    assert gs == gs[..n] + gs[n..];
    OlderConcat(gs[..n], gs[n..], b);
  }

  lemma {:induction false} StepOlder(a: Gathered, e: Entry, c: Option<Text>, g: Gathered, b: nat)
    requires Grouped(a.picked) && Grouped(a.kept) && e.group != [] && g == GatherStep(a, e, c)
    ensures Grouped(g.picked) && Grouped(g.kept)
    ensures Older(GroupsOf(g.picked), b) + Older(GroupsOf(g.kept), b)
         == Older(GroupsOf(a.picked), b) + Older(GroupsOf(a.kept), b) + if e.group[0].at <= b then 1 else 0
  {
    hide FrameLen, Older, Gather;
    GroupsOfSnoc(a.picked, e);
    GroupsOfSnoc(a.kept, e);
    OlderSnoc(GroupsOf(a.picked), e.group, b);
    OlderSnoc(GroupsOf(a.kept), e.group, b);
  }

  lemma {:induction false} GatherSplitsOlder(es: seq<Entry>, c: Option<Text>, b: nat)
    requires Grouped(es)
    ensures var g := Gather(es, c);
            Older(GroupsOf(es), b) == Older(GroupsOf(g.picked), b) + Older(GroupsOf(g.kept), b)
  {
    hide GatherStep, EntryBytes;
    if es != [] {
      GatherSplitsOlder(Front(es), c, b);
      assert es == Front(es) + [Last(es)];
      GroupsOfSnoc(Front(es), Last(es));
      OlderSnoc(GroupsOf(Front(es)), Last(es).group, b);
      StepOlder(Gather(Front(es), c), Last(es), c, Gather(es, c), b);
    }
  }

  /** A publish slot takes the front entry, so one at least of the oldest leaves. */
  lemma {:induction false} TickTakesOlder(w: World, b: nat)
    requires Inv(w)
    ensures Filled(Retained(Ticked(w).queue))
    ensures var n := Older(Retained(w.queue), b);
            Older(Retained(Ticked(w).queue), b) <= if n == 0 then 0 else n - 1
  {
    hide Gather, EnterAll, EntryBytes;
    var all, r := Flushed(w.queue), Retained(w.queue);
    EnterAllGroups(w.queue.pending);
    GroupsOfConcat(w.queue.fifo, EnterAll(w.queue.pending));
    assert GroupsOf(all) == r;
    if all != [] {
      var c := ChannelOf(all[0].group);
      GatherTakesFront(all, c);
      GatherSplitsOlder(all, c, b);
      var picked, kept := GroupsOf(Gather(all, c).picked), GroupsOf(Gather(all, c).kept);
      assert kept + [] == kept && Retained(Ticked(w).queue) == kept;
      if Older(r, b) > 0 {
        FrontIsOlder(r, b);
        FirstCounts(picked, b);
      }
    }
  }

  lemma {:induction false} FirstCounts(gs: seq<Group>, b: nat)
    requires Filled(gs) && gs != [] && gs[0][0].at <= b
    ensures Older(gs, b) >= 1
  {
    if |gs| > 1 {
      FirstCounts(Front(gs), b);
    }
  }

  /** From `w` to `after` no entry up to the age is added, and a tick takes one. */
  ghost predicate OlderAfter(w: World, after: World, op: Op, b: nat) {
    && Filled(Retained(w.queue)) && Filled(Retained(after.queue)) && b < |after.hist|
    && Older(Retained(after.queue), b)
       <= if op.Tick? && Older(Retained(w.queue), b) > 0
          then Older(Retained(w.queue), b) - 1 else Older(Retained(w.queue), b)
  }

  lemma {:induction false} StepOlderSide(w: World, op: Op, b: nat)
    requires Inv(w) && b < |w.hist|
    ensures OlderAfter(w, Step(w, op), op, b)
  {
    hide Gather, EnterAll;
    match op
    case Ingest(e) => IngestKeepsOlder(w, Observed(|w.hist|, e), b);
    case Tick => TickTakesOlder(w, b);
  }

  /** Whatever is ingested, each tick takes one at least of the entries up to an age. */
  lemma {:induction false} OlderShrinks(ops: seq<Op>, more: seq<Op>, b: nat)
    ensures var before, after := Retained(Run(ops).queue), Retained(Run(ops + more).queue);
            && Filled(before) && Filled(after)
            && (b < |Run(ops).hist| ==>
                  && b < |Run(ops + more).hist|
                  && Older(after, b) <= if Ticks(more) >= Older(before, b) then 0 else Older(before, b) - Ticks(more))
  {
    hide Step, Retained, Inv;
    RunKeepsInv(ops);
    AgeOrdered(Run(ops));
    if more == [] {
      assert ops + more == ops;
    } else {
      OlderShrinks(ops, Front(more), b);
      assert Front(ops + more) == ops + Front(more) && Last(ops + more) == Last(more);
      RunKeepsInv(ops + Front(more));
      RunKeepsInv(ops + more);
      AgeOrdered(Run(ops + more));
      if b < |Run(ops).hist| {
        StepOlderSide(Run(ops + Front(more)), Last(more), b);
      }
    }
  }

  /** Fairness: an entry with `n` older ones retained has left after `n + 1` ticks, shipped or
      evicted, and so have the older ones, whatever is ingested meanwhile. */
  lemma {:induction false} EntryLeavesInTime(ops: seq<Op>, more: seq<Op>, n: nat)
    ensures var before, after := Retained(Run(ops).queue), Retained(Run(ops + more).queue);
            && Filled(before) && Filled(after)
            && (n < |before| && Ticks(more) > n ==>
                  forall i | 0 <= i < |after| :: after[i][0].at > before[n][0].at)
  {
    hide Run, Ticks, Retained, Inv;
    RunKeepsInv(ops);
    RunKeepsInv(ops + more);
    AgeOrdered(Run(ops));
    AgeOrdered(Run(ops + more));
    var before, after := Retained(Run(ops).queue), Retained(Run(ops + more).queue);
    if n < |before| && Ticks(more) > n {
      BornBefore(Run(ops), n);
      OlderAt(before, n);
      OlderShrinks(ops, more, before[n][0].at);
      NoneOlder(after, before[n][0].at);
    }
  }

  lemma {:induction false} AgeOrdered(w: World)
    requires Inv(w)
    ensures Filled(Retained(w.queue)) && OldestFirst(Retained(w.queue))
  {
  }

  lemma {:induction false} BornBefore(w: World, n: nat)
    requires Inv(w) && n < |Retained(w.queue)|
    ensures Retained(w.queue)[n][0].at < |w.hist|
  {
    var gone := |DepartedGroups(w.log)|;
    assert Everything(w)[gone + n] == Retained(w.queue)[n];
    assert Decent(w.hist, Everything(w)[gone + n]);
  }
}
