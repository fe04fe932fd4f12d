/** What one publish slot picks, what it leaves, and how many slots a backlog needs. */
module GatherProofs {
  import opened Text
  import opened Events
  import opened Groups
  import opened Pipeline

  // ------------------------------------------------------------- order

  /** The groups of channel `d` together with the channel-less ones, in order. */
  function Scope(d: Option<Text>, gs: seq<Group>): (r: seq<Group>)
    requires Filled(gs)
    ensures Filled(r)
  {
    if gs == [] then []
    else
      var g := Last(gs);
      Scope(d, Front(gs)) + if ChannelOf(g) == d || ChannelOf(g) == None then [g] else []
  }

  lemma {:induction false} ScopeConcat(d: Option<Text>, a: seq<Group>, b: seq<Group>)
    requires Filled(a) && Filled(b)
    ensures Filled(a + b) && Scope(d, a + b) == Scope(d, a) + Scope(d, b)
  {
    if b == [] {
      assert a + b == a;
    } else {
      assert Front(a + b) == a + Front(b) && Last(a + b) == Last(b);
      ScopeConcat(d, a, Front(b));
      Associative(Scope(d, a), Scope(d, Front(b)),
                  if ChannelOf(Last(b)) == d || ChannelOf(Last(b)) == None then [Last(b)] else []);
    }
  }

  lemma {:induction false} GroupsOfSnoc(es: seq<Entry>, e: Entry)
    ensures GroupsOf(es + [e]) == GroupsOf(es) + [e.group]
  {
  }

  function ScopeOne(d: Option<Text>, e: Entry): (r: seq<Group>)
    requires e.group != []
  {
    if ChannelOf(e.group) == d || ChannelOf(e.group) == None then [e.group] else []
  }

  lemma {:induction false} ScopeSnoc(d: Option<Text>, es: seq<Entry>, e: Entry)
    requires Grouped(es) && e.group != []
    ensures Scope(d, GroupsOf(es + [e]))
         == Scope(d, GroupsOf(es)) + ScopeOne(d, e)
  {
    GroupsOfSnoc(es, e);
    assert Front(GroupsOf(es) + [e.group]) == GroupsOf(es);
  }

  /** While the slot is still gathering, nothing it left behind belongs to its scope. */
  ghost predicate Apart(a: Gathered, channel: Option<Text>)
    requires Grouped(a.picked) && Grouped(a.kept)
  {
    && (forall i | 0 <= i < |a.picked| :: ChannelOf(a.picked[i].group) == channel)
    && (a.gathering && channel.None? ==> a.kept == [])
    && (a.gathering ==> forall i | 0 <= i < |a.kept| ::
          ChannelOf(a.kept[i].group) != channel && ChannelOf(a.kept[i].group) != None)
  }

  lemma {:induction false} StepKeepsApart(a: Gathered, e: Entry, channel: Option<Text>, b: Gathered)
    requires Grouped(a.picked) && Grouped(a.kept) && e.group != [] && Apart(a, channel)
    requires b == GatherStep(a, e, channel)
    ensures Grouped(b.picked) && Grouped(b.kept) && Apart(b, channel)
  {
  }

  lemma {:induction false} GatherKeepsApart(es: seq<Entry>, channel: Option<Text>)
    requires Grouped(es)
    ensures Apart(Gather(es, channel), channel)
  {
    if es != [] {
      GatherKeepsApart(Front(es), channel);
      StepKeepsApart(Gather(Front(es), channel), Last(es), channel, Gather(es, channel));
    }
  }

  lemma {:induction false} ScopeLast(d: Option<Text>, es: seq<Entry>)
    requires Grouped(es) && es != []
    ensures Scope(d, GroupsOf(es)) == Scope(d, GroupsOf(Front(es))) + ScopeOne(d, Last(es))
  {
    assert Front(GroupsOf(es)) == GroupsOf(Front(es));
  }

  lemma {:induction false} ScopeOfStrangers(d: Option<Text>, gs: seq<Group>)
    requires Filled(gs) && forall i | 0 <= i < |gs| :: ChannelOf(gs[i]) != d && ChannelOf(gs[i]) != None
    ensures Scope(d, gs) == []
  {
    if gs != [] {
      ScopeOfStrangers(d, Front(gs));
    }
  }

  /** An entry taken into the frame overtakes nothing of its scope. */
  lemma {:induction false} PickKeepsOrder(picked: seq<Entry>, kept: seq<Entry>, e: Entry, channel: Option<Text>, d: Option<Text>)
    requires Grouped(picked) && Grouped(kept) && e.group != [] && ChannelOf(e.group) == channel
    requires channel.None? ==> kept == []
    requires forall i | 0 <= i < |kept| ::
               ChannelOf(kept[i].group) != channel && ChannelOf(kept[i].group) != None
    ensures Grouped(picked + [e])
    ensures Scope(d, GroupsOf(picked + [e])) + Scope(d, GroupsOf(kept))
         == Scope(d, GroupsOf(picked)) + Scope(d, GroupsOf(kept)) + ScopeOne(d, e)
  {
    hide Scope;
    ScopeSnoc(d, picked, e);
    var taken := Scope(d, GroupsOf(picked));
    if channel == None {
      assert GroupsOf(kept) == [];
      ScopeOfStrangers(d, GroupsOf(kept));
      assert taken + ScopeOne(d, e) + [] == taken + [] + ScopeOne(d, e);
    } else if d == channel {
      ScopeOfStrangers(d, GroupsOf(kept));
      assert taken + ScopeOne(d, e) + [] == taken + [] + ScopeOne(d, e);
    } else {
      assert ScopeOne(d, e) == [];
      assert taken + [] == taken;
    }
  }

  lemma {:induction false} LeaveKeepsOrder(picked: seq<Entry>, kept: seq<Entry>, e: Entry, d: Option<Text>)
    requires Grouped(picked) && Grouped(kept) && e.group != []
    ensures Grouped(kept + [e])
    ensures Scope(d, GroupsOf(picked)) + Scope(d, GroupsOf(kept + [e]))
         == Scope(d, GroupsOf(picked)) + Scope(d, GroupsOf(kept)) + ScopeOne(d, e)
  {
    ScopeSnoc(d, kept, e);
  }

  lemma {:induction false} StepKeepsOrder(a: Gathered, e: Entry, channel: Option<Text>, b: Gathered, d: Option<Text>)
    requires Grouped(a.picked) && Grouped(a.kept) && e.group != [] && Apart(a, channel)
    requires b == GatherStep(a, e, channel)
    ensures Grouped(b.picked) && Grouped(b.kept)
    ensures Scope(d, GroupsOf(b.picked)) + Scope(d, GroupsOf(b.kept))
         == Scope(d, GroupsOf(a.picked)) + Scope(d, GroupsOf(a.kept)) + ScopeOne(d, e)
  {
    if b.picked == a.picked {
      LeaveKeepsOrder(a.picked, a.kept, e, d);
    } else {
      PickKeepsOrder(a.picked, a.kept, e, channel, d);
    }
  }

  /** A slot takes a prefix of every scope: seen from any channel, what it picked followed by
      what it left is exactly the old order, so nothing overtakes anything of its own
      channel, and nothing overtakes a channel-less entry or is overtaken by one. */
  lemma {:induction false} GatherKeepsOrder(es: seq<Entry>, channel: Option<Text>, d: Option<Text>)
    requires Grouped(es)
    ensures Scope(d, GroupsOf(es))
         == Scope(d, GroupsOf(Gather(es, channel).picked)) + Scope(d, GroupsOf(Gather(es, channel).kept))
  {
    if es != [] {
      GatherKeepsOrder(Front(es), channel, d);
      GatherKeepsApart(Front(es), channel);
      StepKeepsOrder(Gather(Front(es), channel), Last(es), channel, Gather(es, channel), d);
      ScopeLast(d, es);
    }
  }

  /** A slot on a non-empty queue takes its front entry, only entries of that entry's
      channel, and an envelope of two or more never exceeds the cap. */
  lemma {:induction false} GatherTakesFront(es: seq<Entry>, channel: Option<Text>)
    requires Grouped(es) && es != [] && channel == ChannelOf(es[0].group)
    ensures var g := Gather(es, channel);
            g.picked != [] && g.picked[0] == es[0]
            && (|g.picked| > 1 ==> FrameLen(g.picked) <= CAP)
            && (forall i | 0 <= i < |g.picked| :: ChannelOf(g.picked[i].group) == channel)
  {
    GatherKeepsApart(es, channel);
    if |es| == 1 {
      assert Gather(Front(es), channel) == Gathered([], [], true);
    } else {
      GatherTakesFront(Front(es), channel);
    }
  }

  // ----------------------------------------------- how much a slot takes

  /** The entries of channel `c`, in order; with `own` false, all the others. */
  function Ours(es: seq<Entry>, c: Option<Text>, own: bool := true): (r: seq<Entry>)
    requires Grouped(es)
    ensures Grouped(r)
  {
    if es == [] then []
    else Ours(Front(es), c, own) + if (ChannelOf(Last(es).group) == c) == own then [Last(es)] else []
  }

  /** An entry that nothing of channel `c` may pass: a channel-less one, or, for the
      channel-less themselves, one with a channel. */
  predicate Barrier(e: Entry, c: Option<Text>)
    requires e.group != []
  {
    ChannelOf(e.group) != c && (c.None? || ChannelOf(e.group).None?)
  }

  /** The entry would push a frame that already holds something over the cap. */
  predicate Overflows(picked: seq<Entry>, e: Entry) { picked != [] && FrameLen(picked + [e]) > CAP }

  /** The slot for channel `c` stops in front of entry `n`: no barrier stands before it, each
      entry of the channel before it fitted behind the earlier ones, and it is the end, a
      barrier, or an entry of the channel that does not fit. */
  ghost predicate StopsAt(es: seq<Entry>, c: Option<Text>, n: nat)
    requires Grouped(es)
  {
    && n <= |es|
    && (forall i | 0 <= i < n :: !Barrier(es[i], c))
    && (forall i | 0 <= i < n && ChannelOf(es[i].group) == c :: !Overflows(Ours(es[..i], c), es[i]))
    && (n < |es| ==> Barrier(es[n], c) || (ChannelOf(es[n].group) == c && Overflows(Ours(es[..n], c), es[n])))
  }

  /** What the slot takes and leaves when it stops in front of entry `n`. */
  ghost predicate TakesUpTo(es: seq<Entry>, c: Option<Text>, g: Gathered, n: nat)
    requires Grouped(es)
  {
    n <= |es| && g.picked == Ours(es[..n], c) && g.kept == Ours(es[..n], c, false) + es[n..]
  }

  lemma {:induction false} OursSnoc(es: seq<Entry>, e: Entry, c: Option<Text>)
    requires Grouped(es) && e.group != []
    ensures Grouped(es + [e])
    ensures Ours(es + [e], c) == Ours(es, c) + if ChannelOf(e.group) == c then [e] else []
    ensures Ours(es + [e], c, false) == Ours(es, c, false) + if ChannelOf(e.group) == c then [] else [e]
  {
    assert Front(es + [e]) == es;
  }

  lemma {:induction false} StopIsKept(es: seq<Entry>, c: Option<Text>, a: Gathered, e: Entry, m: nat)
    requires Grouped(es) && e.group != [] && m < |es| && StopsAt(es, c, m) && TakesUpTo(es, c, a, m)
    ensures Grouped(es + [e])
    ensures StopsAt(es + [e], c, m) && TakesUpTo(es + [e], c, Gathered(a.picked, a.kept + [e], false), m)
  {
    hide Overflows, Barrier, Ours;
    var all := es + [e];
    assert forall i | 0 <= i < |es| :: all[..i] == es[..i] && all[i] == es[i];
    assert all[m..] == es[m..] + [e];
    Associative(Ours(es[..m], c, false), es[m..], [e]);
  }

  lemma {:induction false} NextStop(es: seq<Entry>, c: Option<Text>, a: Gathered, e: Entry, g: Gathered) returns (n: nat)
    requires Grouped(es) && e.group != [] && a.gathering && g == GatherStep(a, e, c)
    requires StopsAt(es, c, |es|) && TakesUpTo(es, c, a, |es|)
    ensures Grouped(es + [e])
    ensures StopsAt(es + [e], c, n) && TakesUpTo(es + [e], c, g, n) && (g.gathering <==> n == |es + [e]|)
  {
    hide FrameLen, Ours;
    var all := es + [e];
    OursSnoc(es, e, c);
    assert forall i | 0 <= i <= |es| :: all[..i] == es[..i];
    assert es[..|es|] == es && es[|es|..] == [] && Ours(es, c, false) + [] == Ours(es, c, false);
    if !Barrier(e, c) && !(ChannelOf(e.group) == c && Overflows(a.picked, e)) {
      n := |all|;
      assert all[..n] == all && all[n..] == [];
      assert Ours(all, c, false) + [] == Ours(all, c, false);
    } else {
      n := |es|;
      assert all[n..] == [e];
    }
  }

  lemma {:induction false} GatherStops(es: seq<Entry>, c: Option<Text>) returns (n: nat)
    requires Grouped(es)
    ensures StopsAt(es, c, n) && TakesUpTo(es, c, Gather(es, c), n) && (Gather(es, c).gathering <==> n == |es|)
  {
    hide TakesUpTo, Overflows, Barrier, Ours;
    n := 0;
    if es == [] {
      NothingToTake(es, c);
    } else {
      var front, e := Front(es), Last(es);
      var a := Gather(front, c);
      assert es == front + [e];
      n := GatherStops(front, c);
      if a.gathering {
        n := NextStop(front, c, a, e, Gather(es, c));
      } else {
        StopIsKept(front, c, a, e, n);
      }
    }
  }

  lemma {:induction false} NothingToTake(es: seq<Entry>, c: Option<Text>)
    requires es == []
    ensures StopsAt(es, c, 0) && TakesUpTo(es, c, Gather(es, c), 0)
  {
  }

  /** Only one place satisfies what StopsAt says. */
  lemma {:induction false} OneStop(es: seq<Entry>, c: Option<Text>, m: nat, n: nat)
    requires Grouped(es) && StopsAt(es, c, m) && StopsAt(es, c, n)
    ensures m == n
  {
    hide Barrier, Overflows;
  }

  lemma {:induction false} NoneButOurs(es: seq<Entry>, c: Option<Text>)
    requires Grouped(es) && forall i | 0 <= i < |es| :: ChannelOf(es[i].group) == c
    ensures Ours(es, c) == es && Ours(es, c, false) == []
  {
    if es != [] {
      NoneButOurs(Front(es), c);
    }
  }

  /** How much a slot takes, on every queue: it stops in one place only, at the first entry
      of its channel that would push the frame over the cap, at the first barrier, or at the
      end; it takes every entry of its channel before that place and leaves all the rest. A
      channel-less slot thus takes the longest run at the front that fits. */
  lemma {:induction false} SlotTakesAllThatFits(es: seq<Entry>, c: Option<Text>, n: nat)
    requires Grouped(es)
    ensures StopsAt(es, c, n) ==> TakesUpTo(es, c, Gather(es, c), n)
    ensures StopsAt(es, c, n) && c.None? ==> Gather(es, c).picked == es[..n] && Gather(es, c).kept == es[n..]
    ensures exists k :: StopsAt(es, c, k)
  {
    var k := GatherStops(es, c);
    if StopsAt(es, c, n) {
      OneStop(es, c, k, n);
      if c.None? {
        NoneButOurs(es[..n], c);
        assert [] + es[n..] == es[n..];
      }
    }
  }

  function SourceCount(gs: seq<Group>): nat {
    if gs == [] then 0 else SourceCount(Front(gs)) + |Last(gs)|
  }

  lemma {:induction false} SourceCountConcat(a: seq<Group>, b: seq<Group>)
    ensures SourceCount(a + b) == SourceCount(a) + SourceCount(b)
  {
    if b == [] {
      assert a + b == a;
    } else {
      assert Front(a + b) == a + Front(b) && Last(a + b) == Last(b);
      SourceCountConcat(a, Front(b));
    }
  }

  lemma {:induction false} GatherKeepsSources(es: seq<Entry>, channel: Option<Text>)
    requires Grouped(es)
    ensures var g := Gather(es, channel);
            SourceCount(GroupsOf(es)) == SourceCount(GroupsOf(g.picked)) + SourceCount(GroupsOf(g.kept))
  {
    if es != [] {
      hide SourceCount, GatherStep;
      GatherKeepsSources(Front(es), channel);
      assert es == Front(es) + [Last(es)];
      CountSnoc(Front(es), Last(es));
      StepKeepsSources(Gather(Front(es), channel), Last(es), channel);
    } else {
      assert GroupsOf(es) == [];
    }
  }

  lemma {:induction false} StepKeepsSources(a: Gathered, e: Entry, channel: Option<Text>)
    requires e.group != []
    ensures var b := GatherStep(a, e, channel);
            SourceCount(GroupsOf(b.picked)) + SourceCount(GroupsOf(b.kept))
            == SourceCount(GroupsOf(a.picked)) + SourceCount(GroupsOf(a.kept)) + |e.group|
  {
    hide SourceCount, FrameLen;
    CountSnoc(a.kept, e);
    CountSnoc(a.picked, e);
  }

  lemma {:induction false} CountSnoc(es: seq<Entry>, e: Entry)
    ensures SourceCount(GroupsOf(es + [e])) == SourceCount(GroupsOf(es)) + |e.group|
  {
    GroupsOfSnoc(es, e);
    assert Front(GroupsOf(es) + [e.group]) == GroupsOf(es);
  }

  // ------------------------------------------------------------- drain

  function Channels(es: seq<Entry>): set<Option<Text>>
    requires Grouped(es)
  {
    if es == [] then {} else Channels(Front(es)) + {ChannelOf(Last(es).group)}
  }

  /** Serialized bytes of the entries with one separator each. */
  function Weight(es: seq<Entry>): nat {
    if es == [] then 0 else Weight(Front(es)) + Last(es).bytes + 1
  }

  /** The first entry of a channel. */
  function Leader(es: seq<Entry>, c: Option<Text>): (r: Option<Entry>)
    requires Grouped(es)
    ensures r.Some? <==> c in Channels(es)
  {
    if es == [] then None
    else if Leader(Front(es), c).Some? then Leader(Front(es), c)
    else if ChannelOf(Last(es).group) == c then Some(Last(es))
    else None
  }

  function LeaderWeight(es: seq<Entry>, c: Option<Text>): nat
    requires Grouped(es)
  {
    match Leader(es, c) case Some(e) => e.bytes + 1 case None => 0
  }

  /** Twice the weight of every entry, but only once that of each channel's first entry. */
  function Credit(es: seq<Entry>): nat
    requires Grouped(es)
  {
    if es == [] then 0
    else Credit(Front(es))
         + (if ChannelOf(Last(es).group) in Channels(Front(es)) then 2 else 1) * (Last(es).bytes + 1)
  }

  lemma {:induction false} CreditAtMost(es: seq<Entry>)
    requires Grouped(es)
    ensures Credit(es) <= 2 * Weight(es)
  {
    if es != [] {
      CreditAtMost(Front(es));
    }
  }

  /** Entries of a single channel: the first counts once, every other twice. */
  lemma {:induction false} CreditOfOneChannel(es: seq<Entry>, c: Option<Text>)
    requires Grouped(es) && forall i | 0 <= i < |es| :: ChannelOf(es[i].group) == c
    ensures Channels(es) == if es == [] then {} else {c}
    ensures Credit(es) >= Weight(es) == EntryBytes(es) + |es|
  {
    if es != [] {
      CreditOfOneChannel(Front(es), c);
    }
  }

  ghost predicate NoBarriers(es: seq<Entry>)
    requires Grouped(es)
  {
    forall i | 0 <= i < |es| :: ChannelOf(es[i].group) != None
  }

  ghost predicate OverheadAtMost(es: seq<Entry>, h: nat) {
    forall i | 0 <= i < |es| :: es[i].overhead <= h
  }

  /** How the loop's two outputs share the credit of the entries `es` they came from. The
      slot's channel is left behind only by an overflow, and then its first entry left would
      have pushed the picked ones over the cap. */
  ghost predicate Shares(es: seq<Entry>, a: Gathered, c: Option<Text>)
    requires Grouped(es) && Grouped(a.picked) && Grouped(a.kept)
  {
    && Channels(a.picked) == (if a.picked == [] then {} else {c})
    && Channels(es) == Channels(a.picked) + Channels(a.kept)
    && Credit(es) == Credit(a.picked) + Credit(a.kept) + LeaderWeight(a.kept, c)
    && a.gathering == (c !in Channels(a.kept))
    && (c in Channels(a.kept) ==>
          a.picked != [] && FrameLen(a.picked + [Leader(a.kept, c).value]) > CAP)
  }

  lemma {:induction false} ChannelsSnoc(es: seq<Entry>, e: Entry)
    requires Grouped(es) && e.group != []
    ensures Grouped(es + [e]) && Channels(es + [e]) == Channels(es) + {ChannelOf(e.group)}
    ensures Credit(es + [e]) == Credit(es) + (if ChannelOf(e.group) in Channels(es) then 2 else 1) * (e.bytes + 1)
    ensures forall c :: Leader(es + [e], c) == if c in Channels(es) then Leader(es, c)
                                               else if ChannelOf(e.group) == c then Some(e) else None
  {
    assert Front(es + [e]) == es;
  }

  lemma {:induction false} PickShares(es: seq<Entry>, a: Gathered, e: Entry, c: Option<Text>)
    requires Grouped(es) && Grouped(a.picked) && Grouped(a.kept) && e.group != []
    requires Shares(es, a, c) && a.gathering && ChannelOf(e.group) == c
    ensures Grouped(es + [e]) && Grouped(a.picked + [e])
    ensures Shares(es + [e], Gathered(a.picked + [e], a.kept, true), c)
  {
    ChannelsSnoc(es, e);
    ChannelsSnoc(a.picked, e);
  }

  lemma {:induction false} LeaveShares(es: seq<Entry>, a: Gathered, e: Entry, c: Option<Text>)
    requires Grouped(es) && Grouped(a.picked) && Grouped(a.kept) && e.group != []
    requires Shares(es, a, c)
    requires a.gathering && ChannelOf(e.group) == c ==> a.picked != [] && FrameLen(a.picked + [e]) > CAP
    ensures Grouped(es + [e]) && Grouped(a.kept + [e])
    ensures Shares(es + [e], Gathered(a.picked, a.kept + [e], a.gathering && ChannelOf(e.group) != c), c)
  {
    hide FrameLen, Credit, Leader, Channels, Weight;
    ChannelsSnoc(es, e);
    ChannelsSnoc(a.kept, e);
    assert Leader(a.kept + [e], c) == if c in Channels(a.kept) then Leader(a.kept, c)
                                      else if ChannelOf(e.group) == c then Some(e) else None;
  }

  lemma {:induction false} StepShares(es: seq<Entry>, a: Gathered, e: Entry, c: Option<Text>)
    requires Grouped(es) && Grouped(a.picked) && Grouped(a.kept) && e.group != []
    requires Shares(es, a, c) && ChannelOf(e.group) != None && c != None
    ensures var g := GatherStep(a, e, c);
            Grouped(es + [e]) && Grouped(g.picked) && Grouped(g.kept) && Shares(es + [e], g, c)
  {
    if a.gathering && ChannelOf(e.group) == c && !(a.picked != [] && FrameLen(a.picked + [e]) > CAP) {
      PickShares(es, a, e, c);
    } else {
      LeaveShares(es, a, e, c);
    }
  }

  lemma {:induction false} GatherShares(es: seq<Entry>, c: Option<Text>)
    requires Grouped(es) && NoBarriers(es) && c != None
    ensures Shares(es, Gather(es, c), c)
  {
    if es != [] {
      hide Shares, GatherStep;
      GatherShares(Front(es), c);
      assert es == Front(es) + [Last(es)];
      StepShares(Front(es), Gather(Front(es), c), Last(es), c);
    }
  }

  lemma {:induction false} GatherKeepsProperty(es: seq<Entry>, c: Option<Text>, h: nat)
    requires Grouped(es) && NoBarriers(es) && OverheadAtMost(es, h)
    ensures var g := Gather(es, c);
            NoBarriers(g.kept) && OverheadAtMost(g.kept, h)
  {
    hide FrameLen, EntryBytes;
    if es != [] {
      GatherKeepsProperty(Front(es), c, h);
    }
  }

  lemma {:induction false} LeaderIsEntry(es: seq<Entry>, c: Option<Text>)
    requires Grouped(es) && c in Channels(es)
    ensures Leader(es, c).value in es
  {
    if Leader(Front(es), c).Some? {
      LeaderIsEntry(Front(es), c);
    }
  }

  /** Publish slots it takes to empty the queue when nothing more arrives. */
  function DrainSlots(es: seq<Entry>): nat
    requires Grouped(es)
    decreases |es|
  {
    if es == [] then 0
    else
      var c := ChannelOf(es[0].group);
      GatherTakesFront(es, c);
      1 + DrainSlots(Gather(es, c).kept)
  }

  /** One slot either finishes its channel or spends more credit than a frame holds. */
  lemma {:induction false} SlotSpendsCredit(es: seq<Entry>, h: nat)
    requires Grouped(es) && es != [] && NoBarriers(es) && OverheadAtMost(es, h)
    ensures var (c, kept) := (ChannelOf(es[0].group), Gather(es, ChannelOf(es[0].group)).kept);
            Channels(es) == Channels(kept) + {c}
            && Credit(kept) <= Credit(es)
            && (c in Channels(kept) ==> Credit(kept) + CAP - h <= Credit(es))
  {
    var c := ChannelOf(es[0].group);
    var g := Gather(es, c);
    GatherTakesFront(es, c);
    GatherShares(es, c);
    CreditOfOneChannel(g.picked, c);
    if c in Channels(g.kept) {
      var x := Leader(g.kept, c).value;
      GatherKeepsProperty(es, c, h);
      LeaderIsEntry(g.kept, c);
      assert Front(g.picked + [x]) == g.picked;
    }
  }

  lemma {:induction false} DrainWithinCredit(es: seq<Entry>, h: nat, k: int, n: int)
    requires Grouped(es) && NoBarriers(es) && OverheadAtMost(es, h)
    requires k == CAP - h && n == DrainSlots(es) - |Channels(es)|
    ensures n * k <= Credit(es)
    decreases |es|
  {
    if es != [] {
      var c := ChannelOf(es[0].group);
      var kept := Gather(es, c).kept;
      GatherTakesFront(es, c);
      GatherKeepsProperty(es, c, h);
      var m := DrainSlots(kept) - |Channels(kept)|;
      DrainWithinCredit(kept, h, k, m);
      assert n == m + 1 + |Channels(kept)| - |Channels(es)|;
      SlotWithinCredit(es, kept, h, k, m, n);
    }
  }

  lemma {:induction false} SlotWithinCredit(es: seq<Entry>, kept: seq<Entry>, h: nat, k: int, m: int, n: int)
    requires Grouped(es) && es != [] && NoBarriers(es) && OverheadAtMost(es, h)
    requires Grouped(kept) && kept == Gather(es, ChannelOf(es[0].group)).kept
    requires k == CAP - h && n == m + 1 + |Channels(kept)| - |Channels(es)|
    requires m * k <= Credit(kept)
    ensures n * k <= Credit(es)
  {
    SlotSpendsCredit(es, h);
    CountChannels(es, kept, ChannelOf(es[0].group));
    Spend(m, n, k, Credit(kept), Credit(es));
  }

  lemma {:induction false} CountChannels(es: seq<Entry>, kept: seq<Entry>, c: Option<Text>)
    requires Grouped(es) && Grouped(kept) && Channels(es) == Channels(kept) + {c}
    ensures |Channels(es)| == if c in Channels(kept) then |Channels(kept)| else |Channels(kept)| + 1
  {
    if c in Channels(kept) {
      assert Channels(es) == Channels(kept);
    }
  }

  lemma {:induction false} Spend(n: int, m: int, k: int, left: int, credit: int)
    requires n * k <= left
    requires (m == n && left <= credit) || (m == n + 1 && left + k <= credit)
    ensures m * k <= credit
  {
    assert (n + 1) * k == n * k + k;
  }

  lemma {:induction false} QuotientBound(n: int, k: int, w: nat)
    requires k > 0 && n * k <= w
    ensures n <= w / k
  {
    var q := w / k;
    assert w == q * k + w % k;
    assert (q + 1) * k == q * k + k;
    if n > q {
      Monotone(q + 1, n, k);
    }
  }

  lemma {:induction false} Monotone(a: int, b: int, k: int)
    requires a <= b && k > 0
    ensures a * k <= b * k
  {
    assert (b - a) * k >= 0;
    assert (b - a) * k == b * k - a * k;
  }

  /** The drain bound: with no channel-less entry waiting and nothing more arriving, C channels
      holding S bytes (one separator an entry) empty in at most C + 2S / (CAP - H) slots,
      where H is the largest envelope overhead, because two successive frames of one
      channel together overflow the cap. */
  lemma {:induction false} DrainBound(es: seq<Entry>, h: nat)
    requires Grouped(es) && NoBarriers(es) && OverheadAtMost(es, h) && h < CAP
    ensures DrainSlots(es) <= |Channels(es)| + 2 * Weight(es) / (CAP - h)
  {
    var (k, n) := (CAP - h, DrainSlots(es) - |Channels(es)|);
    DrainWithinCredit(es, h, k, n);
    CreditAtMost(es);
    QuotientBound(n, k, 2 * Weight(es));
  }

  function TickTimes(w: World, n: nat): (r: World)
    requires Sound(w.queue)
    ensures Sound(r.queue)
    decreases n
  {
    if n == 0 then w else TickTimes(Ticked(w), n - 1)
  }

  /** Exactly that many publish slots empty both stores, one frame a slot. */
  lemma {:induction false} DrainEmpties(w: World)
    requires Sound(w.queue)
    ensures var (n, r) := (DrainSlots(Flushed(w.queue)), TickTimes(w, DrainSlots(Flushed(w.queue))));
            r.queue == Queue([], []) && |r.log| == |w.log| + n && w.log <= r.log
    decreases |Flushed(w.queue)|
  {
    hide FrameLen, EnterAll, GatherStep, Gather;
    var all := Flushed(w.queue);
    if all == [] {
      assert w.queue.fifo == [] && w.queue.pending == [];
    } else {
      var c := ChannelOf(all[0].group);
      GatherTakesFront(all, c);
      var next := Ticked(w);
      assert Flushed(next.queue) == Gather(all, c).kept;
      DrainEmpties(next);
    }
  }
}
