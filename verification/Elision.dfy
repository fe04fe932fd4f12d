/** Eliding one oversized string leaf: `elision_boundaries`, `leaf_shrinks`,
    `elide_leaf` and the number of times one leaf can be elided. */
module Elision {
  import opened Text

  /** OBSERVER_LEAF_RETAIN_BYTES */
  const RETAIN: nat := 3000

  /** Largest length a Rust string can have: `usize` is 64 bits wide. */
  const USIZE_LIMIT: nat := 0x1_0000_0000_0000_0000

  const ELLIPSIS: Text := [0xE2, 0x80, 0xA6]

  function MarkerOpen(): (t: Text) { ELLIPSIS + Ascii("[elided ") }

  function MarkerClose(): (t: Text) { Ascii(" bytes]") + ELLIPSIS }

  /** `elision_marker` */
  function Marker(removed: nat): Text {
    MarkerOpen() + Decimal(removed) + MarkerClose()
  }

  function HeadEnd(s: Text): nat {
    FloorBoundary(s, if RETAIN < |s| then RETAIN else |s|)
  }

  function TailStart(s: Text): nat {
    var t := CeilBoundary(s, if RETAIN < |s| then |s| - RETAIN else 0);
    if t < HeadEnd(s) then HeadEnd(s) else t
  }

  predicate Shrinks(s: Text) {
    var (head, tail) := (HeadEnd(s), TailStart(s));
    tail > head && head + |Marker(tail - head)| + (|s| - tail) < |s|
  }

  function Elide(s: Text): Text {
    var (head, tail) := (HeadEnd(s), TailStart(s));
    s[..head] + Marker(tail - head) + s[tail..]
  }

  // ------------------------------------------------ JSON escaping of a leaf

  /** Bytes one code unit takes inside a JSON string (section 7 of RFC 8259):
      the short escapes take two, other control characters six. */
  function EscapedByte(b: byte): (n: nat)
    ensures n >= 1
  {
    if b == 0x22 || b == 0x5C then 2
    else if b == 0x08 || b == 0x09 || b == 0x0A || b == 0x0C || b == 0x0D then 2
    else if b < 0x20 then 6
    else 1
  }

  function Escaped(s: Text): nat {
    if s == [] then 0 else EscapedByte(s[0]) + Escaped(s[1..])
  }

  lemma {:induction false} EscapedConcat(a: Text, b: Text)
    ensures Escaped(a + b) == Escaped(a) + Escaped(b)
  {
    if a == [] {
      assert a + b == b;
    } else {
      EscapedConcat(a[1..], b);
      assert (a + b)[1..] == a[1..] + b;
    }
  }

  lemma {:induction false} EscapedAtLeast(s: Text)
    ensures Escaped(s) >= |s|
  {
    if s != [] {
      EscapedAtLeast(s[1..]);
    }
  }

  /** Printable ASCII other than the quote and the backslash. */
  predicate Plain(b: byte) { 0x20 <= b < 0x80 && b != 0x22 && b != 0x5C }

  /** A plain text is well formed and never escaped. */
  lemma {:induction false} PlainText(s: Text)
    requires forall i | 0 <= i < |s| :: Plain(s[i])
    ensures Utf8(s) && Escaped(s) == |s|
  {
    if s != [] {
      PlainText(s[1..]);
    }
  }

  lemma {:induction false} EllipsisFacts()
    ensures Utf8(ELLIPSIS) && Escaped(ELLIPSIS) == 3
  {
    assert ELLIPSIS[3..] == [];
    EscapedConcat([0xE2], [0x80, 0xA6]);
    EscapedConcat([0x80], [0xA6]);
  }

  lemma {:induction false} FactsConcat(a: Text, b: Text)
    requires Utf8(a) && Utf8(b) && Escaped(a) == |a| && Escaped(b) == |b|
    ensures Utf8(a + b) && Escaped(a + b) == |a + b|
  {
    Utf8Concat(a, b);
    EscapedConcat(a, b);
  }

  lemma {:induction false} MarkerOpenFacts()
    ensures |MarkerOpen()| == 11 && MarkerOpen()[0] == 0xE2
    ensures Utf8(MarkerOpen()) && Escaped(MarkerOpen()) == 11
  {
    var word: Text := Ascii("[elided ");
    EllipsisFacts();
    PlainText(word);
    FactsConcat(ELLIPSIS, word);
  }

  lemma {:induction false} MarkerCloseFacts()
    ensures |MarkerClose()| == 10
    ensures Utf8(MarkerClose()) && Escaped(MarkerClose()) == 10
  {
    var word: Text := Ascii(" bytes]");
    EllipsisFacts();
    PlainText(word);
    FactsConcat(word, ELLIPSIS);
  }

  lemma {:induction false} WrapFacts(a: Text, d: Text, z: Text)
    requires Utf8(a) && Utf8(d) && Utf8(z)
    requires Escaped(a) == |a| && Escaped(d) == |d| && Escaped(z) == |z|
    ensures Utf8(a + d + z) && Escaped(a + d + z) == |a| + |d| + |z|
  {
    FactsConcat(a, d);
    FactsConcat(a + d, z);
  }

  lemma {:induction false} MarkerFacts(n: nat)
    ensures |Marker(n)| == 21 + |Decimal(n)|
    ensures Escaped(Marker(n)) == |Marker(n)|
    ensures !Continuation(Marker(n)[0])
    ensures Utf8(Marker(n))
  {
    hide Decimal, Utf8, MarkerOpen, MarkerClose;
    MarkerOpenFacts();
    MarkerCloseFacts();
    PlainText(Decimal(n));
    WrapFacts(MarkerOpen(), Decimal(n), MarkerClose());
  }

  // ------------------------------------------------------- one elision

  lemma {:induction false} ShrinksExactly(s: Text)
    ensures Shrinks(s) <==>
            TailStart(s) > HeadEnd(s)
            && 21 + |Decimal(TailStart(s) - HeadEnd(s))| < TailStart(s) - HeadEnd(s)
  {
    if TailStart(s) > HeadEnd(s) {
      MarkerFacts(TailStart(s) - HeadEnd(s));
    }
  }

  lemma {:induction false} SpliceShortens(s: Text, head: nat, tail: nat, marker: Text)
    requires head <= tail <= |s| && Escaped(marker) == |marker| < tail - head
    ensures Escaped(s[..head] + marker + s[tail..]) < Escaped(s)
    ensures Utf8(s) && Utf8(marker) && Boundary(s, head) && Boundary(s, tail)
            ==> Utf8(s[..head] + marker + s[tail..])
  {
    var middle := s[head..tail];
    assert s == s[..head] + middle + s[tail..];
    EscapedConcat(s[..head] + middle, s[tail..]);
    EscapedConcat(s[..head], middle);
    EscapedConcat(s[..head] + marker, s[tail..]);
    EscapedConcat(s[..head], marker);
    EscapedAtLeast(middle);
    if Utf8(s) && Utf8(marker) && Boundary(s, head) && Boundary(s, tail) {
      Utf8Cut(s, head);
      Utf8Cut(s, tail);
      Utf8Concat(s[..head], marker);
      Utf8Concat(s[..head] + marker, s[tail..]);
    }
  }

  /** One elision strictly shortens the leaf, both raw and as it is serialized,
      and never splits a character. */
  lemma {:induction false} ElisionShortens(s: Text)
    requires Shrinks(s)
    ensures |Elide(s)| < |s|
    ensures Escaped(Elide(s)) < Escaped(s)
    ensures Utf8(s) ==> Utf8(Elide(s))
  {
    var (head, tail) := (HeadEnd(s), TailStart(s));
    MarkerFacts(tail - head);
    SpliceShortens(s, head, tail, Marker(tail - head));
  }

  lemma {:induction false} LongTextEnds(s: Text)
    requires Utf8(s) && |s| > RETAIN
    ensures RETAIN - 3 <= FloorBoundary(s, RETAIN)
    ensures CeilBoundary(s, |s| - RETAIN) <= |s| - RETAIN + 3
  {
    BoundaryWithinFour(s, RETAIN - 3);
    var i :| RETAIN - 3 <= i <= RETAIN && Boundary(s, i);
    FloorIsGreatest(s, RETAIN, i);
    BoundaryWithinFour(s, |s| - RETAIN);
    var j :| |s| - RETAIN <= j <= |s| - RETAIN + 3 && Boundary(s, j);
    CeilIsLeast(s, |s| - RETAIN, j);
  }

  /** A well-formed leaf that is elided keeps at least 2,997 of its bytes at each end. */
  lemma {:induction false} RetainedWidth(s: Text)
    requires Utf8(s) && Shrinks(s)
    ensures |s| > RETAIN && 2997 <= HeadEnd(s) <= 3000
    ensures 2997 <= |s| - TailStart(s) <= 3000
  {
    ShrinksExactly(s);
    if |s| > RETAIN {
      LongTextEnds(s);
    }
  }

  /** Where a text made of two short ends around a middle would be cut. */
  lemma {:induction false} EndsAround(head: Text, middle: Text, tail: Text)
    requires |head| <= RETAIN && |tail| <= RETAIN < |head| + |middle|
    requires middle != [] && !Continuation(middle[0])
    requires tail != [] && !Continuation(tail[0])
    ensures var t := head + middle + tail;
            |head| <= HeadEnd(t) <= RETAIN
            && |t| - RETAIN <= TailStart(t) <= |head| + |middle|
  {
    var (t, resume) := (head + middle + tail, |head| + |middle|);
    assert t[|head|] == middle[0] && t[resume] == tail[0];
    FloorIsGreatest(t, RETAIN, |head|);
    CeilIsLeast(t, |t| - RETAIN, resume);
  }

  /** `t` still shows both retained ends of `s`. */
  ghost predicate KeepsEnds(s: Text, t: Text) {
    s[..HeadEnd(s)] <= t
    && |t| >= |s| - TailStart(s)
    && t[|t| - (|s| - TailStart(s))..] == s[TailStart(s)..]
  }

  /** The ends of an elided leaf lie inside the ends its next elision would keep,
      so that elision can only cut into the marker. */
  lemma {:induction false} ElidedEndsNest(s: Text, t: Text)
    requires Utf8(s) && Shrinks(s) && t == Elide(s)
    ensures HeadEnd(s) <= HeadEnd(t)
    ensures |t| - TailStart(t) >= |s| - TailStart(s)
    ensures TailStart(t) <= HeadEnd(s) + 21 + |Decimal(TailStart(s) - HeadEnd(s))|
  {
    RetainedWidth(s);
    var (head, tail) := (HeadEnd(s), TailStart(s));
    MarkerFacts(tail - head);
    EndsAround(s[..head], Marker(tail - head), s[tail..]);
  }

  lemma {:induction false} ElidedKeepsEnds(s: Text)
    ensures KeepsEnds(s, Elide(s))
  {
    var (head, tail, t) := (HeadEnd(s), TailStart(s), Elide(s));
    assert t[|t| - (|s| - tail)..] == s[tail..];
  }

  // ------------------------------------------------------- repeated elision

  /** The leaf after every elision it admits. */
  function Floor(s: Text): Text
    decreases |s|
  {
    if Shrinks(s) then ElisionShortens(s); Floor(Elide(s)) else s
  }

  /** How many elisions the leaf admits, one after the other. */
  function Rounds(s: Text): nat
    decreases |s|
  {
    if Shrinks(s) then ElisionShortens(s); 1 + Rounds(Elide(s)) else 0
  }

  lemma {:induction false} DecimalNarrow(n: nat)
    ensures n < 10 ==> |Decimal(n)| == 1
    ensures 10 <= n < 100 ==> |Decimal(n)| == 2
    ensures n < USIZE_LIMIT ==> |Decimal(n)| <= 20
  {
    if n < USIZE_LIMIT {
      assert Pow10(6) == 1_000_000;
      assert Pow10(13) == 10_000_000_000_000;
      assert Pow10(20) == 100_000_000_000_000_000_000;
      DecimalWidth(n, 20);
    }
  }

  /** What every `String` of the source is: well-formed UTF-8 of machine size. */
  predicate RustString(s: Text) { Utf8(s) && |s| < USIZE_LIMIT }

  lemma {:induction false} SecondElisionIsNarrow(s: Text, t: Text)
    requires RustString(s) && Shrinks(s) && t == Elide(s)
    ensures RustString(t) && TailStart(t) <= HeadEnd(t) + 41
  {
    hide Shrinks, Elide, Utf8;
    ElisionShortens(s);
    ElidedEndsNest(s, t);
    DecimalNarrow(TailStart(s) - HeadEnd(s));
  }

  lemma {:induction false} NarrowElisionIsLast(t: Text, u: Text)
    requires Utf8(t) && Shrinks(t) && TailStart(t) <= HeadEnd(t) + 41 && u == Elide(t)
    ensures !Shrinks(u)
  {
    ElidedEndsNest(t, u);
    ShrinksExactly(t);
    DecimalNarrow(TailStart(t) - HeadEnd(t));
    ShrinksExactly(u);
    if TailStart(u) > HeadEnd(u) {
      DecimalNarrow(TailStart(u) - HeadEnd(u));
    }
  }

  /** Any string is at its floor after at most two elisions. */
  lemma {:induction false} AtMostTwoRounds(s: Text)
    requires RustString(s)
    ensures Rounds(s) <= 2
    ensures !Shrinks(Floor(s))
    ensures Floor(s) == s || Floor(s) == Elide(s) || Floor(s) == Elide(Elide(s))
  {
    if Shrinks(s) {
      var t := Elide(s);
      SecondElisionIsNarrow(s, t);
      if Shrinks(t) {
        var u := Elide(t);
        NarrowElisionIsLast(t, u);
        assert Rounds(u) == 0 && Floor(u) == u;
        assert Rounds(t) == 1 && Floor(t) == u;
      } else {
        assert Rounds(t) == 0 && Floor(t) == t;
      }
    }
  }

  lemma {:induction false} KeepsEndsTransitive(s: Text, t: Text, u: Text)
    requires KeepsEnds(s, t) && KeepsEnds(t, u)
    requires HeadEnd(s) <= HeadEnd(t)
    requires |t| - TailStart(t) >= |s| - TailStart(s)
    ensures KeepsEnds(s, u)
  {
    NestedEnds(s, t, u, HeadEnd(s), HeadEnd(t), |s| - TailStart(s), |t| - TailStart(t));
  }

  /** Ends of `u` that show wide ends of `t`, which show narrow ends of `s`. */
  lemma {:induction false} NestedEnds(s: Text, t: Text, u: Text, head: nat, wide: nat, tail: nat, long: nat)
    requires head <= |s| && tail <= |s| && head <= wide <= |t| && tail <= long <= |t| && long <= |u|
    requires s[..head] <= t && t[..wide] <= u
    requires t[|t| - tail..] == s[|s| - tail..] && u[|u| - long..] == t[|t| - long..]
    ensures s[..head] <= u && u[|u| - tail..] == s[|s| - tail..]
  {
    assert s[..head] == t[..head] == u[..head];
    assert u[|u| - long..][long - tail..] == u[|u| - tail..];
    assert t[|t| - long..][long - tail..] == t[|t| - tail..];
  }

  /** Even a second elision leaves a string beginning and ending with what its
      first elision retained. */
  lemma {:induction false} EndsSurviveTwoRounds(s: Text, t: Text, u: Text)
    requires Utf8(s) && Shrinks(s) && t == Elide(s) && u == Elide(t)
    ensures KeepsEnds(s, t) && KeepsEnds(s, u)
  {
    ElidedKeepsEnds(s);
    ElidedKeepsEnds(t);
    ElidedEndsNest(s, t);
    KeepsEndsTransitive(s, t, u);
  }

  lemma {:induction false} ElideAround(head: Text, middle: Text, tail: Text, s: Text)
    requires |head| == RETAIN == |tail| && middle != [] && s == head + middle + tail
    requires !Continuation(middle[0]) && !Continuation(tail[0])
    ensures Shrinks(s) <==> 21 + |Decimal(|middle|)| < |middle|
    ensures Elide(s) == head + Marker(|middle|) + tail
  {
    EndsAround(head, middle, tail);
    ShrinksExactly(s);
    assert s[..RETAIN] == head && s[RETAIN + |middle|..] == tail;
  }

  lemma {:induction false} ElidedAgain(head: Text, tail: Text, t: Text, u: Text)
    requires |head| == RETAIN == |tail| && !Continuation(tail[0])
    requires t == head + Marker(94_000) + tail && u == head + Marker(26) + tail
    ensures Shrinks(t) && Elide(t) == u && !Shrinks(u)
  {
    assert |Decimal(94_000)| == 5 by { assert |Decimal(940)| == 3; }
    DecimalNarrow(26);
    DecimalNarrow(23);
    MarkerFacts(94_000);
    MarkerFacts(26);
    ElideAround(head, Marker(94_000), tail, t);
    ElideAround(head, Marker(26), tail, u);
  }

  /** Two elisions are sometimes needed: a leaf of 100,000 ASCII bytes admits exactly two,
      so a leaf at its first floor can be elided again, and the surviving marker
      no longer counts the bytes removed from the original. */
  lemma {:induction false} SecondRoundHappens(s: Text, t: Text, u: Text)
    requires |s| == 100_000 && forall i | 0 <= i < |s| :: s[i] == 0x78
    requires t == s[..3000] + Marker(94_000) + s[97_000..]
    requires u == s[..3000] + Marker(26) + s[97_000..]
    ensures Shrinks(s) && Elide(s) == t && Elide(t) == u
    ensures Rounds(s) == 2
  {
    var (head, middle, tail) := (s[..3000], s[3000..97_000], s[97_000..]);
    ElidedAgain(head, tail, t, u);
    assert Rounds(u) == 0 && Rounds(t) == 1;
    DecimalNarrow(94_000);
    ElideAround(head, middle, tail, s);
  }

  // ------------------------------------------------- exactly when it is elided twice

  /** Bytes of the marker that the next elision keeps beside an end `kept` bytes long:
      the ellipsis is kept whole or not at all. */
  function Spare(kept: nat): nat { if kept == RETAIN - 3 then 3 else 0 }

  lemma {:induction false} MarkerEdges(n: nat)
    ensures var m := Marker(n);
            && |m| == 21 + |Decimal(n)|
            && m[..3] == ELLIPSIS && !Continuation(m[3]) && m[|m| - 3..] == ELLIPSIS
  {
    OpenEdge();
    CloseEdge();
    WrappedEdges(MarkerOpen(), Decimal(n), MarkerClose(), ELLIPSIS);
  }

  lemma {:induction false} OpenEdge()
    ensures |MarkerOpen()| == 11 && MarkerOpen()[..3] == ELLIPSIS && !Continuation(MarkerOpen()[3])
  {
    var bracket := Ascii("[elided ");
    assert MarkerOpen() == ELLIPSIS + bracket && bracket[0] == 0x5B;
  }

  lemma {:induction false} CloseEdge()
    ensures |MarkerClose()| == 10 && MarkerClose()[7..] == ELLIPSIS
  {
    assert MarkerClose() == Ascii(" bytes]") + ELLIPSIS;
  }

  lemma {:induction false} WrappedEdges(open: Text, d: Text, close: Text, edge: Text)
    requires |open| == 11 && |close| == 10 && |edge| == 3
    requires open[..3] == edge && !Continuation(open[3]) && close[7..] == edge
    ensures var m := open + d + close;
            |m| == 21 + |d| && m[..3] == edge && !Continuation(m[3]) && m[|m| - 3..] == edge
  {
    var m := open + d + close;
    assert m[..3] == open[..3] && m[3] == open[3] && m[|m| - 3..] == close[7..];
  }

  /** Where the second elision cuts. */
  lemma {:induction false} SecondCuts(head: Text, marker: Text, tail: Text, t: Text)
    requires RETAIN - 3 <= |head| <= RETAIN && RETAIN - 3 <= |tail| <= RETAIN && !Continuation(tail[0])
    requires |marker| >= 22 && marker[..3] == ELLIPSIS && !Continuation(marker[3])
    requires marker[|marker| - 3..] == ELLIPSIS && t == head + marker + tail
    ensures HeadEnd(t) == |head| + Spare(|head|)
    ensures TailStart(t) == |head| + |marker| - Spare(|tail|)
  {
    hide FloorBoundary, CeilBoundary;
    var resume := |head| + |marker|;
    assert marker[..3][0] == marker[0] && marker[..3][1] == marker[1] && marker[..3][2] == marker[2];
    var last := marker[|marker| - 3..];
    assert forall i | 0 <= i < 3 :: last[i] == t[resume - 3 + i];
    assert forall i | 0 <= i < 4 :: t[|head| + i] == marker[i];
    assert t[resume] == tail[0];
    FloorCut(t, |head|);
    CeilCut(t, resume);
  }

  lemma {:induction false} FloorCut(t: Text, head: nat)
    requires RETAIN - 3 <= head <= RETAIN && head + 4 <= |t|
    requires t[head..head + 3] == ELLIPSIS && !Continuation(t[head + 3])
    ensures FloorBoundary(t, RETAIN) == head + Spare(head)
  {
    var e := t[head..head + 3];
    assert t[head] == e[0] && t[head + 1] == e[1] && t[head + 2] == e[2];
    if head == RETAIN - 2 {
      assert FloorBoundary(t, RETAIN) == FloorBoundary(t, RETAIN - 1) == FloorBoundary(t, RETAIN - 2);
    }
  }

  lemma {:induction false} CeilCut(t: Text, resume: nat)
    requires 3 <= resume < |t| && !Continuation(t[resume])
    requires RETAIN - 3 <= |t| - resume <= RETAIN <= |t|
    requires t[resume - 3..resume] == ELLIPSIS
    ensures CeilBoundary(t, |t| - RETAIN) == resume - Spare(|t| - resume)
  {
    var e, from := t[resume - 3..resume], |t| - RETAIN;
    assert t[resume - 3] == e[0] && t[resume - 2] == e[1] && t[resume - 1] == e[2];
    if from == resume - 2 {
      assert CeilBoundary(t, from) == CeilBoundary(t, from + 1) == CeilBoundary(t, from + 2);
    }
  }

  /** A marker of at most 41 bytes shrinks exactly when at least 24 of them come out. */
  lemma {:induction false} NarrowShrinks(t: Text)
    requires TailStart(t) <= HeadEnd(t) + 41
    ensures Shrinks(t) <==> TailStart(t) >= HeadEnd(t) + 24
  {
    ShrinksExactly(t);
    if TailStart(t) > HeadEnd(t) {
      DecimalNarrow(TailStart(t) - HeadEnd(t));
    }
  }

  lemma {:induction false} SecondGap(s: Text, t: Text)
    requires Utf8(s) && Shrinks(s) && t == Elide(s)
    ensures TailStart(t) - HeadEnd(t)
         == 21 + |Decimal(TailStart(s) - HeadEnd(s))| - Spare(HeadEnd(s)) - Spare(|s| - TailStart(s))
  {
    RetainedWidth(s);
    var (head, tail) := (HeadEnd(s), TailStart(s));
    MarkerEdges(tail - head);
    SecondCuts(s[..head], Marker(tail - head), s[tail..], t);
  }

  /** A string is elided twice exactly when at least a hundred bytes lie between its two
      cuts; a thousand times as many are needed for each cut that leaves 2,997 bytes, for
      there the second elision keeps the marker's ellipsis. */
  lemma {:induction false} ElidedTwiceExactlyWhen(s: Text)
    requires RustString(s)
    ensures Rounds(s) == 2 <==>
            TailStart(s) - HeadEnd(s) >= Pow10(2 + Spare(HeadEnd(s)) + Spare(|s| - TailStart(s)))
  {
    hide Shrinks, Elide, Pow10;
    var removed: nat, spare: nat := TailStart(s) - HeadEnd(s), Spare(HeadEnd(s)) + Spare(|s| - TailStart(s));
    HundredAtLeast(2 + spare);
    DecimalNarrow(removed);
    ShrinksExactly(s);
    if Shrinks(s) {
      SecondGap(s, Elide(s));
      NarrowShrinks(Elide(s));
      WidthReaches(removed, 2 + spare);
      RoundsByElision(s, Elide(s));
    }
  }

  lemma {:induction false} WidthReaches(n: nat, k: nat)
    requires k >= 1
    ensures n >= Pow10(k) <==> |Decimal(n)| > k
  {
    if n >= Pow10(k) {
      DecimalWide(n, k);
    } else {
      DecimalWidth(n, k);
    }
  }

  lemma {:induction false} HundredAtLeast(k: nat)
    requires k >= 2
    ensures Pow10(k) >= 100
  {
    if k > 2 {
      HundredAtLeast(k - 1);
    } else {
      assert Pow10(2) == 10 * Pow10(1) && Pow10(1) == 10 * Pow10(0);
    }
  }

  lemma {:induction false} RoundsByElision(s: Text, t: Text)
    requires RustString(s) && Shrinks(s) && t == Elide(s)
    ensures Rounds(s) == 2 <==> Shrinks(t)
  {
    AtMostTwoRounds(s);
    assert Rounds(s) == 1 + Rounds(t);
    if Shrinks(t) {
      ElisionShortens(t);
      assert Rounds(t) == 1 + Rounds(Elide(t));
    }
  }
}
