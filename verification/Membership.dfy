/** Membership notifications: which of the notices replayed by a relay are acted on,
    and which channels the agent then counts as joined or left (lib.rs main loop). */
module Membership {
  import opened Text

  const GENERATION := 1000

  /** A notice, with the two answers the loop gets while handling it: whether the
      configuration wants the channel and whether subscribing succeeds. */
  datatype Notice = Notice(id: string, channel: nat, ts: nat, added: bool, wanted: bool, subscribes: bool)

  datatype Verdict = Duplicate | Stale | Applied

  datatype State = State(current: set<string>, previous: set<string>, newest: map<nat, nat>,
                         subscribed: set<nat>, removed: set<nat>)

  function VerdictOf(s: State, n: Notice): Verdict {
    if n.id in s.current || n.id in s.previous then Duplicate
    else if n.channel in s.newest && n.ts < s.newest[n.channel] then Stale
    else Applied
  }

  function Remember(s: State, id: string): State {
    var current := s.current + {id};
    if |current| >= GENERATION then s.(current := {}, previous := current) else s.(current := current)
  }

  function Apply(s: State, n: Notice): State {
    var subscribed :=
      if !n.added then s.subscribed - {n.channel}
      else if n.wanted && n.subscribes then s.subscribed + {n.channel}
      else s.subscribed;
    var removed := if n.added then s.removed - {n.channel} else s.removed + {n.channel};
    s.(newest := s.newest[n.channel := n.ts], subscribed := subscribed, removed := removed)
  }

  function Next(s: State, n: Notice): State {
    match VerdictOf(s, n)
    case Duplicate => s
    case Stale => Remember(s, n.id)
    case Applied => Apply(Remember(s, n.id), n)
  }

  class MembershipTracker {
    var current: set<string>
    var previous: set<string>
    var newestTs: map<nat, nat>
    var subscribed: set<nat>
    var removed: set<nat>

    ghost function Abstract(): State
      reads this
    {
      State(current, previous, newestTs, subscribed, removed)
    }

    constructor (subscribedAtStart: set<nat>)
      ensures Abstract() == Start(subscribedAtStart)
    {
      current, previous, newestTs, subscribed, removed := {}, {}, map[], subscribedAtStart, {};
    }

    method Handle(n: Notice) returns (v: Verdict)
      modifies this
      ensures v == VerdictOf(old(Abstract()), n)
      ensures Abstract() == Next(old(Abstract()), n)
    {
      if n.id in current || n.id in previous {
        return Duplicate;
      }
      current := current + {n.id};
      if |current| >= GENERATION {
        previous := current;
        current := {};
      }
      if n.channel in newestTs && n.ts < newestTs[n.channel] {
        return Stale;
      }
      newestTs := newestTs[n.channel := n.ts];
      if n.added {
        removed := removed - {n.channel};
        if n.channel !in subscribed && n.wanted && n.subscribes {
          subscribed := subscribed + {n.channel};
        }
      } else {
        subscribed := subscribed - {n.channel};
        removed := removed + {n.channel};
      }
      assert subscribed == Apply(old(Abstract()), n).subscribed;
      v := Applied;
    }
  }

  // ---------------------------------------------------------------------- runs

  function Start(subscribed: set<nat>): State {
    State({}, {}, map[], subscribed, {})
  }

  /** A state with its history: `recorded` are the notices taken as new, in order,
      and `applied` those of them acted on. */
  datatype Track = Track(state: State, recorded: seq<Notice>, applied: seq<Notice>)

  function Observe(t: Track, n: Notice): Track {
    var v := VerdictOf(t.state, n);
    Track(Next(t.state, n),
          if v == Duplicate then t.recorded else t.recorded + [n],
          if v == Applied then t.applied + [n] else t.applied)
  }

  function Run(subscribed: set<nat>, notices: seq<Notice>): Track {
    if notices == [] then Track(Start(subscribed), [], [])
    else Observe(Run(subscribed, notices[..|notices| - 1]), notices[|notices| - 1])
  }

  lemma {:induction false} RunSnoc(subscribed: set<nat>, notices: seq<Notice>, n: Notice)
    ensures Run(subscribed, notices + [n]) == Observe(Run(subscribed, notices), n)
  {
    assert (notices + [n])[..|notices|] == notices;
  }

  function Ids(notices: seq<Notice>): set<string> {
    if notices == [] then {} else Ids(notices[..|notices| - 1]) + {notices[|notices| - 1].id}
  }

  /** `current` holds the ids recorded from `mid` on, since the last rotation;
      `previous` the thousand recorded before them, or none before the first rotation. */
  ghost predicate Generations(s: State, recorded: seq<Notice>, lo: nat, mid: nat) {
    && lo <= mid <= |recorded| < mid + GENERATION && (mid == lo + GENERATION || lo == mid == 0)
    && |s.current| == |recorded| - mid && s.current == Ids(recorded[mid..])
    && |s.previous| == mid - lo && s.previous == Ids(recorded[lo..mid])
  }

  lemma {:induction false} IdsPush(notices: seq<Notice>, n: Notice)
    ensures Ids(notices + [n]) == Ids(notices) + {n.id}
  {
    assert (notices + [n])[..|notices|] == notices;
  }

  lemma {:induction false} IdsJoin(a: seq<Notice>, b: seq<Notice>)
    ensures Ids(a + b) == Ids(a) + Ids(b)
  {
    if b == [] {
      assert a + b == a;
    } else {
      var front, n := b[..|b| - 1], b[|b| - 1];
      IdsJoin(a, front);
      IdsPush(a + front, n);
      assert a + b == a + front + [n];
    }
  }

  lemma {:induction false} IdsHas(notices: seq<Notice>, id: string)
    ensures id in Ids(notices) <==> exists i :: 0 <= i < |notices| && notices[i].id == id
  {
    if notices != [] {
      var front := notices[..|notices| - 1];
      IdsHas(front, id);
      if i :| 0 <= i < |front| && front[i].id == id {
        assert notices[i].id == id;
      }
    }
  }

  /** One more notice, seen by slices that start at `lo` and change over at `mid`. */
  lemma {:induction false} SlicesPush(recorded: seq<Notice>, n: Notice, lo: nat, mid: nat)
    requires lo <= mid <= |recorded|
    ensures var now := recorded + [n];
            Ids(now[mid..]) == Ids(recorded[mid..]) + {n.id} && Ids(now[lo..mid]) == Ids(recorded[lo..mid])
  {
    var now := recorded + [n];
    IdsPush(recorded[mid..], n);
    assert now[mid..] == recorded[mid..] + [n];
    assert now[lo..mid] == recorded[lo..mid];
  }

  lemma {:induction false} RememberKeepsGenerations(s: State, recorded: seq<Notice>, n: Notice, lo: nat, mid: nat)
    returns (lo': nat, mid': nat)
    requires Generations(s, recorded, lo, mid) && n.id !in s.current
    ensures Generations(Remember(s, n.id), recorded + [n], lo', mid')
  {
    var now, r := recorded + [n], |recorded|;
    SlicesPush(recorded, n, lo, mid);
    var grown := s.current + {n.id};
    assert |grown| == r + 1 - mid;
    if |grown| == GENERATION {
      lo', mid' := mid, r + 1;
      assert now[r + 1..] == [];
      assert now[mid..r + 1] == now[mid..];
    } else {
      lo', mid' := lo, mid;
    }
  }

  lemma {:induction false} RunKeepsGenerations(subscribed: set<nat>, notices: seq<Notice>) returns (lo: nat, mid: nat)
    ensures var t := Run(subscribed, notices); Generations(t.state, t.recorded, lo, mid)
  {
    if notices == [] {
      lo, mid := 0, 0;
    } else {
      var before, n := notices[..|notices| - 1], notices[|notices| - 1];
      lo, mid := RunKeepsGenerations(subscribed, before);
      var t := Run(subscribed, before);
      if VerdictOf(t.state, n) != Duplicate {
        lo, mid := RememberKeepsGenerations(t.state, t.recorded, n, lo, mid);
      }
    }
  }

  lemma {:induction false} LatestHold(s: State, recorded: seq<Notice>, id: string, lo: nat, mid: nat)
    requires Generations(s, recorded, lo, mid)
    ensures (id in s.current || id in s.previous) <==> exists i :: lo <= i < |recorded| && recorded[i].id == id
  {
    var kept := recorded[lo..];
    assert kept == recorded[lo..mid] + recorded[mid..];
    IdsJoin(recorded[lo..mid], recorded[mid..]);
    IdsHas(kept, id);
    if i :| lo <= i < |recorded| && recorded[i].id == id {
      assert kept[i - lo] == recorded[i];
    }
  }

  /** In every run a notice is rejected as a duplicate exactly when its id is among
      the latest recorded ones, as many as the two sets hold: at least a thousand
      of them, or all there are, and never two thousand. */
  lemma {:induction false} RememberedExactly(subscribed: set<nat>, notices: seq<Notice>, n: Notice)
    ensures var t := Run(subscribed, notices);
            var r := |t.recorded|;
            var held := |t.state.current| + |t.state.previous|;
            && held <= r && (held == r || GENERATION <= held) && held < 2 * GENERATION
            && (VerdictOf(t.state, n) == Duplicate <==> exists i :: r - held <= i < r && t.recorded[i].id == n.id)
  {
    var lo, mid := RunKeepsGenerations(subscribed, notices);
    var t := Run(subscribed, notices);
    LatestHold(t.state, t.recorded, n.id, lo, mid);
  }

  /** No amnesia: an id is rejected while fewer than a thousand notices have been
      recorded after it. */
  lemma {:induction false} RejectedWhileRecent(subscribed: set<nat>, notices: seq<Notice>, i: nat, n: Notice)
    requires var t := Run(subscribed, notices);
             i < |t.recorded| && |t.recorded| - 1 - i < GENERATION && t.recorded[i].id == n.id
    ensures VerdictOf(Run(subscribed, notices).state, n) == Duplicate
  {
    RememberedExactly(subscribed, notices, n);
  }

  ghost predicate Recent(t: Track, n: Notice) {
    exists i | 0 <= i < |t.recorded| :: |t.recorded| - 1 - i < GENERATION && t.recorded[i].id == n.id
  }

  /** Replaying recorded notices, in any order and any number of times, changes nothing. */
  lemma {:induction false} ReplayIsHarmless(subscribed: set<nat>, notices: seq<Notice>, replay: seq<Notice>)
    requires forall n | n in replay :: Recent(Run(subscribed, notices), n)
    ensures Run(subscribed, notices + replay) == Run(subscribed, notices)
  {
    if replay == [] {
      assert notices + replay == notices;
    } else {
      var front, n := replay[..|replay| - 1], replay[|replay| - 1];
      ReplayIsHarmless(subscribed, notices, front);
      assert notices + replay == notices + front + [n] && n in replay;
      RunSnoc(subscribed, notices + front, n);
      var t := Run(subscribed, notices);
      var i :| 0 <= i < |t.recorded| && |t.recorded| - 1 - i < GENERATION && t.recorded[i].id == n.id;
      RejectedWhileRecent(subscribed, notices, i, n);
    }
  }

  /** The latest applied notice about a channel. */
  function Latest(applied: seq<Notice>, ch: nat): Option<Notice> {
    if applied == [] then None
    else if applied[|applied| - 1].channel == ch then Some(applied[|applied| - 1])
    else Latest(applied[..|applied| - 1], ch)
  }

  predicate Left(applied: seq<Notice>, ch: nat) {
    Latest(applied, ch).Some? && !Latest(applied, ch).value.added
  }

  predicate Joins(n: Notice, ch: nat) {
    n.channel == ch && n.added && n.wanted && n.subscribes
  }

  /** Subscribed at the start or by an applied notice, and not removed since. */
  ghost predicate Member(subscribed: set<nat>, applied: seq<Notice>, ch: nat) {
    || (ch in subscribed && forall n | n in applied && n.channel == ch :: n.added)
    || exists i: nat :: JoinedAt(applied, i, ch)
  }

  ghost predicate JoinedAt(applied: seq<Notice>, i: nat, ch: nat) {
    && i < |applied| && Joins(applied[i], ch)
    && forall j | i < j < |applied| && applied[j].channel == ch :: applied[j].added
  }

  lemma {:induction false} MemberPush(subscribed: set<nat>, applied: seq<Notice>, n: Notice, ch: nat)
    ensures Member(subscribed, applied + [n], ch) ==
            if n.channel != ch then Member(subscribed, applied, ch)
            else n.added && (Member(subscribed, applied, ch) || Joins(n, ch))
  {
    var now, k := applied + [n], |applied|;
    assert now[k] == n && n in now;
    assert forall m | m in applied :: m in now;
    forall i: nat | i < k
      ensures JoinedAt(now, i, ch) <==> JoinedAt(applied, i, ch) && (n.channel == ch ==> n.added)
    {
      if JoinedAt(now, i, ch) {
        assert forall j | i < j < k :: now[j] == applied[j];
      }
    }
    assert JoinedAt(now, k, ch) <==> Joins(n, ch);
    if i: nat :| JoinedAt(applied, i, ch) && (n.channel == ch ==> n.added) {
      assert JoinedAt(now, i, ch);
    }
    if i: nat :| JoinedAt(now, i, ch) && i < k {
      assert JoinedAt(applied, i, ch);
    }
  }

  ghost predicate TimesConsistent(t: Track) {
    && (forall ch :: ch in t.state.newest <==> Latest(t.applied, ch).Some?)
    && (forall ch | ch in t.state.newest :: Latest(t.applied, ch).value.ts == t.state.newest[ch])
    && (forall n | n in t.recorded :: n.channel in t.state.newest && n.ts <= t.state.newest[n.channel])
  }

  ghost predicate ChannelsConsistent(subscribed: set<nat>, t: Track) {
    && (forall ch :: ch in t.state.removed <==> Left(t.applied, ch))
    && (forall ch :: ch in t.state.subscribed <==> Member(subscribed, t.applied, ch))
  }

  lemma {:induction false} ObserveKeepsTimes(t: Track, n: Notice)
    requires TimesConsistent(t)
    ensures TimesConsistent(Observe(t, n))
  {
    var u := Observe(t, n);
    if VerdictOf(t.state, n) == Applied {
      assert u.applied[..|t.applied|] == t.applied;
    }
  }

  lemma {:induction false} ObserveKeepsChannels(subscribed: set<nat>, t: Track, n: Notice)
    requires ChannelsConsistent(subscribed, t)
    ensures ChannelsConsistent(subscribed, Observe(t, n))
  {
    var u := Observe(t, n);
    if VerdictOf(t.state, n) == Applied {
      assert u.applied[..|t.applied|] == t.applied;
      forall ch ensures ch in u.state.subscribed <==> Member(subscribed, u.applied, ch) {
        MemberPush(subscribed, t.applied, n, ch);
      }
    }
  }

  /** In every run: the timestamp kept for a channel is that of the notice last
      acted on, and no recorded notice is newer; the removed channels are those last
      left; the subscribed ones are those joined and not left since. */
  lemma {:induction false} RunIsConsistent(subscribed: set<nat>, notices: seq<Notice>)
    ensures TimesConsistent(Run(subscribed, notices))
    ensures ChannelsConsistent(subscribed, Run(subscribed, notices))
  {
    if notices != [] {
      var before, n := notices[..|notices| - 1], notices[|notices| - 1];
      RunIsConsistent(subscribed, before);
      ObserveKeepsTimes(Run(subscribed, before), n);
      ObserveKeepsChannels(subscribed, Run(subscribed, before), n);
    }
  }

  /** A new notice is acted on exactly when no notice recorded for its channel is newer: one
      of the same second is. */
  lemma {:induction false} AppliedExactlyWhen(subscribed: set<nat>, notices: seq<Notice>, n: Notice)
    ensures var t := Run(subscribed, notices);
            VerdictOf(t.state, n) == Applied <==>
            VerdictOf(t.state, n) != Duplicate && forall m | m in t.recorded && m.channel == n.channel :: m.ts <= n.ts
  {
    var t := Run(subscribed, notices);
    RunIsConsistent(subscribed, notices);
    if n.channel in t.state.newest {
      var m := Latest(t.applied, n.channel).value;
      LatestIsApplied(t.applied, n.channel);
      var i :| 0 <= i < |t.applied| && t.applied[i] == m;
      AppliedIsRecorded(subscribed, notices, i);
    }
  }

  lemma {:induction false} LatestIsApplied(applied: seq<Notice>, ch: nat)
    requires Latest(applied, ch).Some?
    ensures Latest(applied, ch).value in applied && Latest(applied, ch).value.channel == ch
  {
    if applied[|applied| - 1].channel != ch {
      LatestIsApplied(applied[..|applied| - 1], ch);
    }
  }

  lemma {:induction false} LeftIsNoMember(subscribed: set<nat>, applied: seq<Notice>, ch: nat)
    requires Left(applied, ch)
    ensures !Member(subscribed, applied, ch)
  {
    var n := |applied| - 1;
    assert applied == applied[..n] + [applied[n]];
    MemberPush(subscribed, applied[..n], applied[n], ch);
    if applied[n].channel != ch {
      LeftIsNoMember(subscribed, applied[..n], ch);
    }
  }

  /** No channel is ever both subscribed and removed. */
  lemma {:induction false} SubscribedAndRemovedDisjoint(subscribed: set<nat>, notices: seq<Notice>)
    ensures var s := Run(subscribed, notices).state;
            s.subscribed !! s.removed
  {
    RunIsConsistent(subscribed, notices);
    var t := Run(subscribed, notices);
    forall ch | ch in t.state.removed ensures ch !in t.state.subscribed {
      LeftIsNoMember(subscribed, t.applied, ch);
    }
  }

  /** Notices acted on for one channel never go back in time. */
  lemma {:induction false} AppliedInTimeOrder(subscribed: set<nat>, notices: seq<Notice>, i: nat, j: nat)
    requires i <= j < |Run(subscribed, notices).applied|
    requires var a := Run(subscribed, notices).applied; a[i].channel == a[j].channel
    ensures var a := Run(subscribed, notices).applied; a[i].ts <= a[j].ts
  {
    var before, n := notices[..|notices| - 1], notices[|notices| - 1];
    var t := Run(subscribed, before);
    if j < |t.applied| {
      AppliedInTimeOrder(subscribed, before, i, j);
    } else if i < j {
      AppliedIsRecorded(subscribed, before, i);
      RunIsConsistent(subscribed, before);
    }
  }

  lemma {:induction false} AppliedIsRecorded(subscribed: set<nat>, notices: seq<Notice>, i: nat)
    requires i < |Run(subscribed, notices).applied|
    ensures Run(subscribed, notices).applied[i] in Run(subscribed, notices).recorded
  {
    var before := notices[..|notices| - 1];
    if i < |Run(subscribed, before).applied| {
      AppliedIsRecorded(subscribed, before, i);
    }
  }
}
