/** Trimming an oversized event until its serialized frame fits: `fit_observer_event_to_budget`. */
module Trim {
  import opened Text
  import opened Elision
  import opened Json
  import opened Events

  /** One pass of the loop: the longest shrinkable leaf elided, or None when no leaf shrinks. */
  function TrimStep(p: Json): Option<Json> {
    match MaxShrinkable(p)
    case None => None
    case Some(n) => ElideFirst(p, n)
  }

  /** The stub that replaces a payload no elision can make fit. */
  function Stub(kind: Text, originalBytes: nat): Json {
    Obj([Ascii("elided"), Ascii("originalBytes")],
        [Str(kind + Ascii(" payload too large")), Number(Decimal(originalBytes))])
  }

  function StubFrame(e: Event): Event { e.(payload := Stub(e.kind, Len(e.payload))) }

  /** The frame when the loop stops: under the cap, or with no leaf left to elide. */
  function Trimmed(e: Event): Event
    decreases Len(e.payload)
  {
    match TrimStep(e.payload)
    case None => e
    case Some(p) =>
      ElisionShortensJson(e.payload, MaxShrinkable(e.payload).value);
      var next := e.(payload := p);
      if SerializedLen(next) <= CAP then next else Trimmed(next)
  }

  /** How many times the loop elides a leaf. */
  function Passes(e: Event): nat
    decreases Len(e.payload)
  {
    match TrimStep(e.payload)
    case None => 0
    case Some(p) =>
      ElisionShortensJson(e.payload, MaxShrinkable(e.payload).value);
      var next := e.(payload := p);
      if SerializedLen(next) <= CAP then 1 else 1 + Passes(next)
  }

  function Fit(e: Event): Event {
    if SerializedLen(e) <= CAP then e
    else if SerializedLen(Trimmed(e)) <= CAP then Trimmed(e)
    else StubFrame(e)
  }

  /** How many leaves trimming elides: none when the frame fits as it is. */
  function Elisions(e: Event): nat { if SerializedLen(e) <= CAP then 0 else Passes(e) }

  /** `elided` counts the leaves elided on the way. */
  method FitToBudget(event: Event) returns (r: Event, ghost elided: nat)
    ensures r == Fit(event)
    ensures elided == Elisions(event)
  {
    r, elided := event, 0;
    if SerializedLen(r) <= CAP {
      return;
    }
    var originalPayloadBytes := Len(event.payload);
    var next := TrimStep(r.payload);
    while next.Some?
      invariant SerializedLen(r) > CAP && next == TrimStep(r.payload)
      invariant r == event.(payload := r.payload) && Trimmed(r) == Trimmed(event)
      invariant elided + Passes(r) == Passes(event)
      decreases Len(r.payload)
    {
      ElisionShortensJson(r.payload, MaxShrinkable(r.payload).value);
      r, elided := r.(payload := next.value), elided + 1;
      if SerializedLen(r) <= CAP {
        return;
      }
      next := TrimStep(r.payload);
    }
    r := r.(payload := Stub(r.kind, originalPayloadBytes));
  }

  // ------------------------------------------------------ what one pass does

  ghost predicate NoneShrinks(ls: seq<Text>) {
    forall i | 0 <= i < |ls| :: !Shrinks(ls[i])
  }

  /** Leaf `i` is the first of the longest leaves among those that shrink. */
  ghost predicate FirstLongest(ls: seq<Text>, i: nat) {
    && i < |ls| && Shrinks(ls[i])
    && (forall k | 0 <= k < |ls| && Shrinks(ls[k]) :: |ls[k]| <= |ls[i]|)
    && (forall k | 0 <= k < i && Shrinks(ls[k]) :: |ls[k]| < |ls[i]|)
  }

  /** A pass elides the first of the longest leaves that shrink; the loop ends exactly when
      no leaf shrinks. */
  lemma {:induction false} OnePass(p: Json) returns (i: nat)
    ensures TrimStep(p).None? <==> NoneShrinks(Leaves(p))
    ensures TrimStep(p).Some? ==>
              FirstLongest(Leaves(p), i)
              && Leaves(TrimStep(p).value) == Leaves(p)[i := Elide(Leaves(p)[i])]
              && Shape(TrimStep(p).value) == Shape(p)
  {
    hide Shrinks, Elide, Shape, HeadEnd, TailStart;
    i := 0;
    FirstPassFindsLongest(p);
    SearchPassesAgree(p);
    if MaxShrinkable(p).Some? {
      SecondPassElidesOneLeaf(p, MaxShrinkable(p).value);
      i := FirstMatch(Leaves(p), MaxShrinkable(p).value);
    }
  }

  // -------------------------------------------- stopping at the first fit

  /** `q` is `p` with the first of its longest shrinkable leaves elided. */
  ghost predicate ElidesLongest(p: Json, q: Json) {
    exists i: nat ::
      && FirstLongest(Leaves(p), i)
      && Leaves(q) == Leaves(p)[i := Elide(Leaves(p)[i])] && Shape(q) == Shape(p)
  }

  /** The payloads a trimming goes through: from the event's own, one elision at a time, as
      long as the frame is over the cap. */
  ghost predicate TrimmingOf(e: Event, ps: seq<Json>) {
    && ps != [] && ps[0] == e.payload
    && (forall i | 0 <= i < |ps| - 1 :: SerializedLen(e.(payload := ps[i])) > CAP && ElidesLongest(ps[i], ps[i + 1]))
  }

  lemma {:induction false} PassElidesLongest(p: Json)
    requires TrimStep(p).Some?
    ensures ElidesLongest(p, TrimStep(p).value)
  {
    var i := OnePass(p);
  }

  lemma {:induction false} TrimmingCons(e: Event, next: Event, ps: seq<Json>)
    requires next == e.(payload := next.payload) && SerializedLen(e) > CAP && ElidesLongest(e.payload, next.payload)
    requires TrimmingOf(next, ps)
    ensures TrimmingOf(e, [e.payload] + ps)
  {
    hide SerializedLen, ElidesLongest;
    var qs := [e.payload] + ps;
    forall i | 0 <= i < |qs| - 1
      ensures SerializedLen(e.(payload := qs[i])) > CAP && ElidesLongest(qs[i], qs[i + 1])
    {
      if i == 0 {
        assert e.(payload := qs[0]) == e && qs[1] == ps[0];
      } else {
        assert qs[i] == ps[i - 1] && qs[i + 1] == ps[i] && e.(payload := ps[i - 1]) == next.(payload := ps[i - 1]);
      }
    }
  }

  lemma {:induction false} OverflowTrimming(e: Event) returns (ps: seq<Json>)
    requires SerializedLen(e) > CAP
    ensures TrimmingOf(e, ps) && |ps| == 1 + Passes(e) && Trimmed(e) == e.(payload := ps[|ps| - 1])
    ensures SerializedLen(Trimmed(e)) <= CAP || NoneShrinks(Leaves(ps[|ps| - 1]))
    decreases Len(e.payload)
  {
    hide SerializedLen, ElidesLongest, MaxShrinkable, ElideFirst, NoneShrinks;
    var i := OnePass(e.payload);
    if TrimStep(e.payload).None? {
      ps := [e.payload];
    } else {
      var next := e.(payload := TrimStep(e.payload).value);
      ElisionShortensJson(e.payload, MaxShrinkable(e.payload).value);
      PassElidesLongest(e.payload);
      if SerializedLen(next) <= CAP {
        ps := [next.payload];
      } else {
        ps := OverflowTrimming(next);
      }
      TrimmingCons(e, next, ps);
      ps := [e.payload] + ps;
    }
  }

  /** Trimming stops at the first frame that fits. The payloads it goes through each have one
      more leaf elided, the first of the longest that shrink, and each frame before the last
      is over the cap. The last one ships if its frame fits; if it does not, none of its
      leaves shrinks, and the stub ships. */
  lemma {:induction false} StopsAtFirstFit(e: Event) returns (ps: seq<Json>)
    ensures TrimmingOf(e, ps) && |ps| == 1 + Elisions(e)
    ensures var last := e.(payload := ps[|ps| - 1]);
            if SerializedLen(last) <= CAP then Fit(e) == last
            else NoneShrinks(Leaves(last.payload)) && Fit(e) == StubFrame(e)
  {
    if SerializedLen(e) <= CAP {
      ps := [e.payload];
    } else {
      ps := OverflowTrimming(e);
    }
  }

  /** That describes the outcome completely: an elision is determined by the value, so there
      is one such list of payloads. */
  lemma {:induction false} TrimmingIsUnique(e: Event, ps: seq<Json>, qs: seq<Json>)
    requires TrimmingOf(e, ps) && TrimmingOf(e, qs) && |ps| <= |qs|
    ensures ps == qs[..|ps|]
  {
    hide SerializedLen, ElidesLongest;
    if |ps| == 1 {
      assert qs[..1] == [e.payload];
    } else {
      var n := |ps| - 1;
      TrimmingIsUnique(e, ps[..n], qs);
      assert ps[n - 1] == qs[n - 1] && ElidesLongest(ps[n - 1], ps[n]) && ElidesLongest(qs[n - 1], qs[n]);
      OneElision(ps[n - 1], ps[n], qs[n]);
      assert qs[..n + 1] == qs[..n] + [qs[n]] && ps == ps[..n] + [ps[n]];
    }
  }

  lemma {:induction false} OneElision(p: Json, q: Json, r: Json)
    requires ElidesLongest(p, q) && ElidesLongest(p, r)
    ensures q == r
  {
    SameLeavesSameValue(q, r);
  }

  // ------------------------------------------------------------ the bound

  function RoundsSum(ls: seq<Text>): nat {
    if ls == [] then 0 else Rounds(ls[0]) + RoundsSum(ls[1..])
  }

  lemma {:induction false} RoundsSumUpdate(ls: seq<Text>, i: nat, s: Text)
    requires i < |ls|
    ensures RoundsSum(ls[i := s]) == RoundsSum(ls) - Rounds(ls[i]) + Rounds(s)
  {
    if i == 0 {
      assert ls[0 := s][1..] == ls[1..];
    } else {
      assert ls[i := s][1..] == ls[1..][i - 1 := s];
      RoundsSumUpdate(ls[1..], i - 1, s);
    }
  }

  ghost predicate RustStrings(ls: seq<Text>) {
    forall i | 0 <= i < |ls| :: RustString(ls[i])
  }

  lemma {:induction false} RoundsSumBound(ls: seq<Text>)
    requires RustStrings(ls)
    ensures RoundsSum(ls) <= 2 * |ls|
  {
    if ls != [] {
      AtMostTwoRounds(ls[0]);
      RoundsSumBound(ls[1..]);
    }
  }

  lemma {:induction false} PassesSpendRounds(e: Event)
    ensures Passes(e) <= RoundsSum(Leaves(e.payload))
    decreases Len(e.payload)
  {
    var i := OnePass(e.payload);
    if TrimStep(e.payload).Some? {
      var (p, ls) := (TrimStep(e.payload).value, Leaves(e.payload));
      ElisionShortensJson(e.payload, MaxShrinkable(e.payload).value);
      RoundsSumUpdate(ls, i, Elide(ls[i]));
      PassesSpendRounds(e.(payload := p));
    }
  }

  /** Trimming ends after at most two elisions for each string leaf. */
  lemma {:induction false} TrimmingIsBounded(e: Event)
    requires RustStrings(Leaves(e.payload))
    ensures Elisions(e) <= 2 * |Leaves(e.payload)|
  {
    PassesSpendRounds(e);
    RoundsSumBound(Leaves(e.payload));
  }

  /** While even the fully elided frame overflows, the loop spends every elision there is. */
  lemma {:induction false} OverflowSpendsAllRounds(e: Event)
    requires HeaderLen(e) + FlooredLen(e.payload) > CAP
    ensures Elisions(e) == Passes(e) == RoundsSum(Leaves(e.payload))
    decreases Len(e.payload)
  {
    var i := OnePass(e.payload);
    var ls := Leaves(e.payload);
    SerializedSplits(e);
    FlooredAtMost(e.payload);
    if TrimStep(e.payload).None? {
      StoppedPayload(e.payload);
    } else {
      var next := e.(payload := TrimStep(e.payload).value);
      ElisionShortensJson(e.payload, MaxShrinkable(e.payload).value);
      ElisionShortens(ls[i]);
      RoundsSumUpdate(ls, i, Elide(ls[i]));
      FloorSumUpdate(ls, i, Elide(ls[i]));
      HeaderIgnoresPayload(e, next.payload);
      SerializedSplits(next);
      FlooredAtMost(next.payload);
      OverflowSpendsAllRounds(next);
    }
  }

  lemma {:induction false} StoppedPayload(p: Json)
    requires TrimStep(p).None?
    ensures RoundsSum(Leaves(p)) == 0
  {
    var i := OnePass(p);
    NothingLeft(Leaves(p));
  }

  lemma {:induction false} NothingLeft(ls: seq<Text>)
    requires NoneShrinks(ls)
    ensures RoundsSum(ls) == 0
  {
    if ls != [] {
      NothingLeft(ls[1..]);
    }
  }

  function Copies<T>(x: T, n: nat): (xs: seq<T>)
    ensures |xs| == n
  {
    if n == 0 then [] else [x] + Copies(x, n - 1)
  }

  lemma {:induction false} LeavesOfCopies(s: Text, n: nat)
    ensures LeavesOf(Copies(Str(s), n)) == Copies(s, n)
    ensures RoundsSum(Copies(s, n)) == n * Rounds(s)
    ensures FloorSum(Copies(s, n)) == n * Escaped(Floor(s))
  {
    if n > 0 {
      LeavesOfCopies(s, n - 1);
      assert Copies(Str(s), n)[1..] == Copies(Str(s), n - 1);
      assert Copies(s, n)[1..] == Copies(s, n - 1);
      assert n * Rounds(s) == Rounds(s) + (n - 1) * Rounds(s);
      assert n * Escaped(Floor(s)) == Escaped(Floor(s)) + (n - 1) * Escaped(Floor(s));
    }
  }

  /** The loop is not bounded by the number of leaves: eleven strings of 100,000 ASCII bytes
      take twenty-two elisions, in every event. */
  lemma {:induction false} TwentyTwoPasses(e: Event, s: Text)
    requires |s| == 100_000 && forall i | 0 <= i < |s| :: s[i] == 0x78
    requires e.payload == Arr(Copies(Str(s), 11))
    ensures |Leaves(e.payload)| == 11 && Elisions(e) == 22
  {
    hide Shrinks, Elide, Marker, Escaped, Utf8, Passes, Elisions, Floor, Rounds, RoundsSum, FloorSum, HeaderLen, HeadEnd, TailStart;
    var t, u := s[..3000] + Marker(94_000) + s[97_000..], s[..3000] + Marker(26) + s[97_000..];
    SecondRoundHappens(s, t, u);
    FloorAfterTwo(s, t, u);
    MarkerFacts(26);
    DecimalNarrow(26);
    EscapedAtLeast(u);
    LeavesOfCopies(s, 11);
    assert 11 * Escaped(Floor(s)) >= 11 * 6_023;
    OverflowSpendsAllRounds(e);
  }

  lemma {:induction false} FloorAfterTwo(s: Text, t: Text, u: Text)
    requires Shrinks(s) && t == Elide(s) && u == Elide(t) && Rounds(s) == 2
    ensures Floor(s) == u
  {
    assert Rounds(s) == 1 + Rounds(t);
    assert Shrinks(t);
    assert Rounds(t) == 1 + Rounds(u);
    assert !Shrinks(u);
    assert Floor(s) == Floor(t) == Floor(u);
  }

  // ---------------------------------------------------------- the outcome

  /** `t` is `s` after none, one or two elisions. */
  ghost predicate Stage(s: Text, t: Text) {
    t == s || (Shrinks(s) && (t == Elide(s) || (Shrinks(Elide(s)) && t == Elide(Elide(s)))))
  }

  ghost predicate Stages(ls: seq<Text>, ms: seq<Text>) {
    |ls| == |ms| && forall i | 0 <= i < |ls| :: Stage(ls[i], ms[i])
  }

  lemma {:induction false} NextStage(s: Text, t: Text)
    requires RustString(s) && Stage(s, t) && Shrinks(t)
    ensures Stage(s, Elide(t))
  {
    if t != s && t != Elide(s) {
      SecondElisionIsNarrow(s, Elide(s));
      NarrowElisionIsLast(Elide(s), t);
    }
  }

  lemma {:induction false} TrimmedStages(e: Event, ls: seq<Text>)
    requires RustStrings(ls) && Stages(ls, Leaves(e.payload))
    ensures Stages(ls, Leaves(Trimmed(e).payload))
    ensures Shape(Trimmed(e).payload) == Shape(e.payload)
    ensures Trimmed(e) == e.(payload := Trimmed(e).payload)
    decreases Len(e.payload)
  {
    hide Shrinks, SerializedLen, Len, RustString, MaxShrinkable, ElideFirst;
    var i := OnePass(e.payload);
    if TrimStep(e.payload).Some? {
      ElisionShortensJson(e.payload, MaxShrinkable(e.payload).value);
      NextStage(ls[i], Leaves(e.payload)[i]);
      var next := e.(payload := TrimStep(e.payload).value);
      TrimmedStages(next, ls);
    }
  }

  /** What trimming returns. The envelope never changes. A frame under the cap is untouched;
      any other keeps its shape, keys and non-string values, with every string intact or
      showing both ends its first elision retains, unless the whole payload became the stub. */
  lemma {:induction false} FitOutcome(e: Event)
    requires RustStrings(Leaves(e.payload))
    ensures Fit(e) == e.(payload := Fit(e).payload)
    ensures SerializedLen(e) <= CAP ==> Fit(e) == e
    ensures Fit(e) == StubFrame(e)
         || (Shape(Fit(e).payload) == Shape(e.payload)
             && |Leaves(Fit(e).payload)| == |Leaves(e.payload)|
             && forall i | 0 <= i < |Leaves(e.payload)| ::
                  Leaves(Fit(e).payload)[i] == Leaves(e.payload)[i]
                  || KeepsEnds(Leaves(e.payload)[i], Leaves(Fit(e).payload)[i]))
  {
    var ls := Leaves(e.payload);
    TrimmedStages(e, ls);
    var ms := Leaves(Trimmed(e).payload);
    forall i | 0 <= i < |ls|
      ensures ms[i] == ls[i] || KeepsEnds(ls[i], ms[i])
    {
      if ms[i] != ls[i] {
        EndsSurviveTwoRounds(ls[i], Elide(ls[i]), Elide(Elide(ls[i])));
      }
    }
  }

  // ------------------------------------------------ exactly when it fits

  function FloorSum(ls: seq<Text>): nat {
    if ls == [] then 0 else Escaped(Floor(ls[0])) + FloorSum(ls[1..])
  }

  /** Serialized length of the payload with every leaf elided as far as it goes. */
  function FlooredLen(p: Json): nat { Len(Shape(p)) + FloorSum(Leaves(p)) }

  lemma {:induction false} FloorSumUpdate(ls: seq<Text>, i: nat, s: Text)
    requires i < |ls| && Floor(s) == Floor(ls[i])
    ensures FloorSum(ls[i := s]) == FloorSum(ls)
  {
    if i == 0 {
      assert ls[0 := s][1..] == ls[1..];
    } else {
      assert ls[i := s][1..] == ls[1..][i - 1 := s];
      FloorSumUpdate(ls[1..], i - 1, s);
    }
  }

  lemma {:induction false} FloorIsShort(s: Text)
    ensures Escaped(Floor(s)) <= Escaped(s)
    decreases |s|
  {
    if Shrinks(s) {
      ElisionShortens(s);
      FloorIsShort(Elide(s));
    }
  }

  lemma {:induction false} FloorSumAtMost(ls: seq<Text>)
    ensures FloorSum(ls) <= EscapedSum(ls)
    ensures NoneShrinks(ls) ==> FloorSum(ls) == EscapedSum(ls)
  {
    if ls != [] {
      FloorIsShort(ls[0]);
      FloorSumAtMost(ls[1..]);
    }
  }

  lemma {:induction false} FlooredAtMost(p: Json)
    ensures FlooredLen(p) <= Len(p)
    ensures TrimStep(p).None? ==> FlooredLen(p) == Len(p)
  {
    LenByLeaves(p);
    FloorSumAtMost(Leaves(p));
    var i := OnePass(p);
  }

  lemma {:induction false} TrimmedFloor(e: Event)
    ensures FlooredLen(Trimmed(e).payload) == FlooredLen(e.payload)
    ensures Trimmed(e) == e.(payload := Trimmed(e).payload)
    ensures TrimStep(Trimmed(e).payload).None? || SerializedLen(Trimmed(e)) <= CAP
    decreases Len(e.payload)
  {
    hide Shrinks, SerializedLen, Len, MaxShrinkable, ElideFirst, FloorSum;
    var i := OnePass(e.payload);
    if TrimStep(e.payload).Some? {
      var ls := Leaves(e.payload);
      ElisionShortensJson(e.payload, MaxShrinkable(e.payload).value);
      ElisionShortens(ls[i]);
      FloorSumUpdate(ls, i, Elide(ls[i]));
      TrimmedFloor(e.(payload := TrimStep(e.payload).value));
    }
  }

  /** The stub replaces the payload exactly when even the fully elided payload overflows, so
      the trimmed frame fits exactly when the fully elided frame or the stub frame does. */
  lemma {:induction false} FitsExactlyWhen(e: Event)
    ensures HeaderLen(e) + FlooredLen(e.payload) <= CAP ==> Fit(e) == e || Fit(e) == Trimmed(e)
    ensures HeaderLen(e) + FlooredLen(e.payload) > CAP ==> Fit(e) == StubFrame(e)
    ensures SerializedLen(Fit(e)) <= CAP
       <==> HeaderLen(e) + FlooredLen(e.payload) <= CAP || SerializedLen(StubFrame(e)) <= CAP
  {
    var t := Trimmed(e);
    TrimmedFloor(e);
    SerializedSplits(e);
    SerializedSplits(t);
    HeaderIgnoresPayload(e, t.payload);
    FlooredAtMost(e.payload);
    FlooredAtMost(t.payload);
  }

  // ------------------------------------------------------------ the stub

  lemma {:induction false} PlainAscii(s: string)
    requires forall i | 0 <= i < |s| :: 0x20 <= s[i] as int < 0x80 && s[i] != '\"' && s[i] != '\\'
    ensures Escaped(Ascii(s)) == |s|
  {
    PlainText(Ascii(s));
  }

  lemma {:induction false} TwoMembers(a: Text, b: Text, v: Json, w: Json)
    requires a != b
    ensures Len(Obj([a, b], [v, w])) == 5 + Quoted(a) + Quoted(b) + Len(v) + Len(w)
    ensures Get(Obj([a, b], [v, w]), a) == Some(v) && Get(Obj([a, b], [v, w]), b) == Some(w)
  {
    assert [a, b][1..] == [b] && [b][1..] == [] && [v, w][1..] == [w] && [w][1..] == [];
    assert KeysLen([b]) == Quoted(b) + 1 && KeysLen([a, b]) == Quoted(a) + 1 + KeysLen([b]);
    assert LenAll([w]) == Len(w) && LenAll([v, w]) == Len(v) + LenAll([w]);
    assert IndexOf([b], b) == 0 && IndexOf([a, b], b) == 1 && IndexOf([a, b], a) == 0;
  }

  lemma {:induction false} StubLen(kind: Text, n: nat)
    ensures Len(Stub(kind, n)) == 48 + Escaped(kind) + |Decimal(n)|
  {
    hide Ascii, Escaped, Decimal, Get;
    PlainAscii("elided");
    PlainAscii("originalBytes");
    PlainAscii(" payload too large");
    var tail := Ascii(" payload too large");
    EscapedConcat(kind, tail);
    TwoMembers(Ascii("elided"), Ascii("originalBytes"), Str(kind + tail), Json.Number(Decimal(n)));
  }

  /** What the stub says: the kind of the event and the serialized length of the payload it
      replaces. */
  lemma {:induction false} StubSays(e: Event)
    ensures Get(StubFrame(e).payload, Ascii("elided")) == Some(Str(e.kind + Ascii(" payload too large")))
    ensures Get(StubFrame(e).payload, Ascii("originalBytes")) == Some(Json.Number(Decimal(Len(e.payload))))
  {
    hide Ascii, Get, Len, Decimal;
    TwoMembers(Ascii("elided"), Ascii("originalBytes"),
               Str(e.kind + Ascii(" payload too large")), Json.Number(Decimal(Len(e.payload))));
  }

  /** How long the frame around the stub is. With a payload of machine size every event is
      made to fit by trimming whose header and kind leave 68 bytes. */
  lemma {:induction false} StubFits(e: Event)
    ensures SerializedLen(StubFrame(e)) == HeaderLen(e) + 48 + Escaped(e.kind) + |Decimal(Len(e.payload))|
    ensures Len(e.payload) < Pow10(20) && HeaderLen(e) + Escaped(e.kind) + 68 <= CAP ==> SerializedLen(Fit(e)) <= CAP
  {
    hide Stub, Len, Fit, HeaderLen, SerializedLen, Decimal, Pow10, Escaped;
    StubLen(e.kind, Len(e.payload));
    SerializedSplits(StubFrame(e));
    HeaderIgnoresPayload(e, StubFrame(e).payload);
    FitsExactlyWhen(e);
    if Len(e.payload) < Pow10(20) {
      DecimalWidth(Len(e.payload), 20);
    }
  }

  lemma {:induction false} LenAllCovers(js: seq<Json>, i: nat)
    requires i < |js|
    ensures Len(js[i]) <= LenAll(js)
  {
    if i > 0 {
      LenAllCovers(js[1..], i - 1);
    }
  }

  /** The stub does not always fit: under a header longer than the cap no payload does,
      trimmed or replaced. */
  lemma {:induction false} OversizedEnvelopeNeverFits(e: Event)
    requires HeaderLen(e) > CAP
    ensures SerializedLen(Fit(e)) > CAP
  {
    SerializedSplits(StubFrame(e));
    HeaderIgnoresPayload(e, Stub(e.kind, Len(e.payload)));
    FitsExactlyWhen(e);
  }

  /** The session id is the agent's own choice: one longer than the cap is such a header. */
  lemma {:induction false} OversizedSessionNeverFits(e: Event)
    requires e.sessionId.Some? && |e.sessionId.value| > CAP
    ensures SerializedLen(Fit(e)) > CAP
  {
    EscapedAtLeast(e.sessionId.value);
    assert HeaderVals(e)[5] == Str(e.sessionId.value);
    LenAllCovers(HeaderVals(e), 5);
    OversizedEnvelopeNeverFits(e);
  }
}
