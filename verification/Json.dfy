/** JSON values, the length of their serialized form, and the search for the string
    leaf to elide (`max_shrinkable_len`, `find_leaf_with_len`). */
module Json {
  import opened Text
  import opened Elision

  /** An object is kept column-wise: member `i` maps `keys[i]` to `vals[i]`, in the
      order the map iterates. Numbers keep their printed form. */
  datatype Json =
    | Null
    | Bool(b: bool)
    | Number(digits: Text)
    | Str(text: Text)
    | Arr(items: seq<Json>)
    | Obj(keys: seq<Text>, vals: seq<Json>)

  // ---------------------------------------------------- serialized length

  function Quoted(s: Text): nat { 2 + Escaped(s) }

  function Commas(n: nat): nat { if n == 0 then 0 else n - 1 }

  /** Keys of an object with their quotes and colons. */
  function KeysLen(keys: seq<Text>): nat {
    if keys == [] then 0 else Quoted(keys[0]) + 1 + KeysLen(keys[1..])
  }

  /** Length of `serde_json::to_string`. */
  function Len(j: Json): nat {
    match j
    case Null => 4
    case Bool(b) => if b then 4 else 5
    case Number(d) => |d|
    case Str(s) => Quoted(s)
    case Arr(items) => 2 + Commas(|items|) + LenAll(items)
    case Obj(keys, vals) => 2 + Commas(|vals|) + KeysLen(keys) + LenAll(vals)
  }

  function LenAll(js: seq<Json>): nat {
    if js == [] then 0 else Len(js[0]) + LenAll(js[1..])
  }

  lemma {:induction false} LenAllConcat(a: seq<Json>, b: seq<Json>)
    ensures LenAll(a + b) == LenAll(a) + LenAll(b)
  {
    if a == [] {
      assert a + b == b;
    } else {
      LenAllConcat(a[1..], b);
      assert (a + b)[1..] == a[1..] + b;
    }
  }

  // ------------------------------------------------------- object access

  function IndexOf(keys: seq<Text>, key: Text): (i: nat)
    ensures i <= |keys|
    ensures i < |keys| ==> keys[i] == key
  {
    if keys == [] then 0 else if keys[0] == key then 0 else 1 + IndexOf(keys[1..], key)
  }

  /** `Value::get` with a string index. */
  function Get(j: Json, key: Text): Option<Json> {
    if j.Obj? && IndexOf(j.keys, key) < |j.keys| && IndexOf(j.keys, key) < |j.vals|
    then Some(j.vals[IndexOf(j.keys, key)])
    else None
  }

  /** `Map::insert`: replaces the value of a key the object has, or adds the key. */
  function Insert(j: Json, key: Text, v: Json): Json
    requires j.Obj?
  {
    if Get(j, key).Some? then j.(vals := j.vals[IndexOf(j.keys, key) := v])
    else Obj(j.keys + [key], j.vals + [v])
  }

  // ------------------------------------- leaves and what surrounds them

  /** Every string leaf in the order the recursive walk meets it. Keys are not leaves. */
  function Leaves(j: Json): seq<Text> {
    match j
    case Str(s) => [s]
    case Arr(items) => LeavesOf(items)
    case Obj(_, vals) => LeavesOf(vals)
    case _ => []
  }

  function LeavesOf(js: seq<Json>): seq<Text> {
    if js == [] then [] else Leaves(js[0]) + LeavesOf(js[1..])
  }

  /** The value with every string leaf emptied: its shape, keys and non-string leaves. */
  function Shape(j: Json): Json {
    match j
    case Str(_) => Str([])
    case Arr(items) => Arr(ShapeOf(items))
    case Obj(keys, vals) => Obj(keys, ShapeOf(vals))
    case _ => j
  }

  function ShapeOf(js: seq<Json>): (r: seq<Json>)
    ensures |r| == |js|
  {
    if js == [] then [] else [Shape(js[0])] + ShapeOf(js[1..])
  }

  function EscapedSum(ls: seq<Text>): nat {
    if ls == [] then 0 else Escaped(ls[0]) + EscapedSum(ls[1..])
  }

  lemma {:induction false} EscapedSumConcat(a: seq<Text>, b: seq<Text>)
    ensures EscapedSum(a + b) == EscapedSum(a) + EscapedSum(b)
  {
    if a == [] {
      assert a + b == b;
    } else {
      EscapedSumConcat(a[1..], b);
      assert (a + b)[1..] == a[1..] + b;
    }
  }

  /** Serialized length splits into the shape's and the leaves'. */
  lemma {:induction false} LenByLeaves(j: Json)
    ensures Len(j) == Len(Shape(j)) + EscapedSum(Leaves(j))
    decreases j, 1
  {
    match j
    case Str(s) =>
      assert [s][1..] == [];
    case Arr(items) => LenAllByLeaves(items);
    case Obj(_, vals) => LenAllByLeaves(vals);
    case _ =>
  }

  lemma {:induction false} LenAllByLeaves(js: seq<Json>)
    ensures LenAll(js) == LenAll(ShapeOf(js)) + EscapedSum(LeavesOf(js))
    decreases js, 0
  {
    if js != [] {
      LenByLeaves(js[0]);
      LenAllByLeaves(js[1..]);
      EscapedSumConcat(Leaves(js[0]), LeavesOf(js[1..]));
    }
  }

  /** Shape and leaves determine the value. */
  lemma {:induction false} SameLeavesSameValue(j: Json, k: Json)
    requires Shape(j) == Shape(k) && Leaves(j) == Leaves(k)
    ensures j == k
    decreases j, 1
  {
    match j
    case Str(s) => assert Leaves(k)[0] == s;
    case Arr(items) => SameLeavesSameValues(items, k.items);
    case Obj(_, vals) => SameLeavesSameValues(vals, k.vals);
    case _ =>
  }

  lemma {:induction false} SameLeavesSameValues(js: seq<Json>, ks: seq<Json>)
    requires ShapeOf(js) == ShapeOf(ks) && LeavesOf(js) == LeavesOf(ks)
    ensures js == ks
    decreases js, 0
  {
    if js != [] {
      assert ShapeOf(js)[0] == Shape(js[0]) && ShapeOf(ks)[0] == Shape(ks[0]);
      assert ShapeOf(js)[1..] == ShapeOf(js[1..]) && ShapeOf(ks)[1..] == ShapeOf(ks[1..]);
      LeafCount(js[0]);
      LeafCount(ks[0]);
      assert Leaves(js[0]) == LeavesOf(js)[..|Leaves(js[0])|];
      assert Leaves(ks[0]) == LeavesOf(ks)[..|Leaves(ks[0])|];
      assert LeavesOf(js[1..]) == LeavesOf(js)[|Leaves(js[0])|..];
      assert LeavesOf(ks[1..]) == LeavesOf(ks)[|Leaves(ks[0])|..];
      SameLeavesSameValue(js[0], ks[0]);
      SameLeavesSameValues(js[1..], ks[1..]);
    }
  }

  /** How many leaves a value has is visible in its shape. */
  lemma {:induction false} LeafCount(j: Json)
    ensures |Leaves(j)| == |Leaves(Shape(j))|
    decreases j, 1
  {
    match j
    case Arr(items) => LeafCountOf(items);
    case Obj(_, vals) => LeafCountOf(vals);
    case _ =>
  }

  lemma {:induction false} LeafCountOf(js: seq<Json>)
    ensures |LeavesOf(js)| == |LeavesOf(ShapeOf(js))|
    decreases js, 0
  {
    if js != [] {
      LeafCount(js[0]);
      LeafCountOf(js[1..]);
      assert ShapeOf(js)[0] == Shape(js[0]) && ShapeOf(js)[1..] == ShapeOf(js[1..]);
    }
  }

  // ------------------------------------------------------------ search

  function Larger(a: Option<nat>, b: Option<nat>): Option<nat> {
    if a.None? then b else if b.None? then a else if a.value < b.value then b else a
  }

  /** `max_shrinkable_len` */
  function MaxShrinkable(j: Json): Option<nat> {
    match j
    case Str(s) => if Shrinks(s) then Some(|s|) else None
    case Arr(items) => MaxShrinkableOf(items)
    case Obj(_, vals) => MaxShrinkableOf(vals)
    case _ => None
  }

  function MaxShrinkableOf(js: seq<Json>): Option<nat> {
    if js == [] then None else Larger(MaxShrinkable(js[0]), MaxShrinkableOf(js[1..]))
  }

  /** `find_leaf_with_len` followed by `elide_leaf`: the value with its first shrinkable
      leaf of length `target` elided in place, or None when there is no such leaf. */
  function ElideFirst(j: Json, target: nat): Option<Json> {
    match j
    case Str(s) => if |s| == target && Shrinks(s) then Some(Str(Elide(s))) else None
    case Arr(items) =>
      (match ElideFirstOf(items, target) case Some(r) => Some(Arr(r)) case None => None)
    case Obj(keys, vals) =>
      (match ElideFirstOf(vals, target) case Some(r) => Some(Obj(keys, r)) case None => None)
    case _ => None
  }

  function ElideFirstOf(js: seq<Json>, target: nat): Option<seq<Json>> {
    if js == [] then None
    else match ElideFirst(js[0], target)
      case Some(r) => Some([r] + js[1..])
      case None =>
        match ElideFirstOf(js[1..], target)
        case Some(r) => Some([js[0]] + r)
        case None => None
  }

  // ----------------------------- the two passes seen on the list of leaves

  /** `n` is the length of the longest leaf that can still shrink; None when none can. */
  ghost predicate Longest(ls: seq<Text>, n: Option<nat>) {
    (forall i | 0 <= i < |ls| :: Shrinks(ls[i]) ==> n.Some? && |ls[i]| <= n.value)
    && (n.Some? ==> exists i | 0 <= i < |ls| :: Shrinks(ls[i]) && |ls[i]| == n.value)
  }

  /** The first pass finds the longest shrinkable leaf. */
  lemma {:induction false} FirstPassFindsLongest(j: Json)
    ensures Longest(Leaves(j), MaxShrinkable(j))
    decreases j, 1
  {
    match j
    case Str(s) => assert Leaves(j)[0] == s;
    case Arr(items) => FirstPassFindsLongestOf(items);
    case Obj(_, vals) => FirstPassFindsLongestOf(vals);
    case _ =>
  }

  lemma {:induction false} FirstPassFindsLongestOf(js: seq<Json>)
    ensures Longest(LeavesOf(js), MaxShrinkableOf(js))
    decreases js, 0
  {
    if js != [] {
      FirstPassFindsLongest(js[0]);
      FirstPassFindsLongestOf(js[1..]);
      LongestConcat(Leaves(js[0]), MaxShrinkable(js[0]), LeavesOf(js[1..]), MaxShrinkableOf(js[1..]));
    }
  }

  lemma {:induction false} LongestConcat(a: seq<Text>, m: Option<nat>, b: seq<Text>, n: Option<nat>)
    requires Longest(a, m) && Longest(b, n)
    ensures Longest(a + b, Larger(m, n))
  {
    var (c, k) := (a + b, Larger(m, n));
    if k.Some? {
      if k == m {
        var i :| 0 <= i < |a| && Shrinks(a[i]) && |a[i]| == m.value;
        assert c[i] == a[i];
      } else {
        var i :| 0 <= i < |b| && Shrinks(b[i]) && |b[i]| == n.value;
        assert c[|a| + i] == b[i];
      }
    }
  }

  /** Position of the first leaf that can shrink and has length `target`. */
  function FirstMatch(ls: seq<Text>, target: nat): (i: nat)
    ensures i <= |ls|
    ensures i < |ls| ==> |ls[i]| == target && Shrinks(ls[i])
    ensures forall k | 0 <= k < i :: !(|ls[k]| == target && Shrinks(ls[k]))
  {
    if ls == [] then 0
    else if |ls[0]| == target && Shrinks(ls[0]) then 0
    else 1 + FirstMatch(ls[1..], target)
  }

  lemma {:induction false} FirstMatchConcat(a: seq<Text>, b: seq<Text>, target: nat)
    ensures FirstMatch(a + b, target)
         == if FirstMatch(a, target) < |a| then FirstMatch(a, target) else |a| + FirstMatch(b, target)
  {
    if a == [] {
      assert a + b == b;
    } else {
      assert (a + b)[0] == a[0] && (a + b)[1..] == a[1..] + b;
      FirstMatchConcat(a[1..], b, target);
    }
  }

  /** The second pass changes exactly the first matching leaf and nothing around it,
      and fails exactly when no leaf matches. */
  lemma {:induction false} SecondPassElidesOneLeaf(j: Json, target: nat)
    ensures var (ls, i, r) := (Leaves(j), FirstMatch(Leaves(j), target), ElideFirst(j, target));
            (r.Some? <==> i < |ls|)
            && (r.Some? ==> Leaves(r.value) == ls[i := Elide(ls[i])] && Shape(r.value) == Shape(j))
    decreases j, 1
  {
    hide Shrinks, Elide, FirstMatch;
    match j
    case Str(s) =>
      assert Leaves(j)[0] == s && Leaves(j)[1..] == [];
    case Arr(items) => SecondPassElidesOneLeafOf(items, target);
    case Obj(_, vals) => SecondPassElidesOneLeafOf(vals, target);
    case _ =>
  }

  lemma {:induction false} SecondPassElidesOneLeafOf(js: seq<Json>, target: nat)
    ensures var (ls, i, r) := (LeavesOf(js), FirstMatch(LeavesOf(js), target), ElideFirstOf(js, target));
            (r.Some? <==> i < |ls|)
            && (r.Some? ==> LeavesOf(r.value) == ls[i := Elide(ls[i])] && ShapeOf(r.value) == ShapeOf(js))
    decreases js, 0
  {
    hide Shrinks, Elide;
    if js != [] {
      assert LeavesOf(js) == Leaves(js[0]) + LeavesOf(js[1..]);
      FirstMatchConcat(Leaves(js[0]), LeavesOf(js[1..]), target);
      SecondPassElidesOneLeaf(js[0], target);
      if ElideFirst(js[0], target).None? {
        SecondPassElidesOneLeafOf(js[1..], target);
        ElidedInTail(js, target);
      } else {
        ElidedInHead(js, target);
      }
    }
  }

  lemma {:induction false} ElidedInHead(js: seq<Json>, target: nat)
    requires js != [] && ElideFirst(js[0], target).Some?
    requires var (ls, i, r) := (Leaves(js[0]), FirstMatch(Leaves(js[0]), target), ElideFirst(js[0], target));
             i < |ls| && Leaves(r.value) == ls[i := Elide(ls[i])] && Shape(r.value) == Shape(js[0])
    ensures var (ls, i, r) := (LeavesOf(js), FirstMatch(Leaves(js[0]), target), ElideFirstOf(js, target));
            r.Some? && LeavesOf(r.value) == ls[i := Elide(ls[i])] && ShapeOf(r.value) == ShapeOf(js)
  {
    ConsJson(ElideFirst(js[0], target).value, js[1..]);
    UpdateConcat(Leaves(js[0]), LeavesOf(js[1..]), FirstMatch(Leaves(js[0]), target));
  }

  lemma {:induction false} ElidedInTail(js: seq<Json>, target: nat)
    requires js != [] && ElideFirst(js[0], target).None?
    requires var (ls, i, r) := (LeavesOf(js[1..]), FirstMatch(LeavesOf(js[1..]), target), ElideFirstOf(js[1..], target));
             (r.Some? <==> i < |ls|)
             && (r.Some? ==> LeavesOf(r.value) == ls[i := Elide(ls[i])] && ShapeOf(r.value) == ShapeOf(js[1..]))
    ensures var (ls, i, r) := (LeavesOf(js), |Leaves(js[0])| + FirstMatch(LeavesOf(js[1..]), target), ElideFirstOf(js, target));
            (r.Some? <==> i < |ls|)
            && (r.Some? ==> LeavesOf(r.value) == ls[i := Elide(ls[i])] && ShapeOf(r.value) == ShapeOf(js))
  {
    hide Shrinks, Elide;
    if ElideFirstOf(js[1..], target).Some? {
      ConsJson(js[0], ElideFirstOf(js[1..], target).value);
      UpdateConcat(Leaves(js[0]), LeavesOf(js[1..]), |Leaves(js[0])| + FirstMatch(LeavesOf(js[1..]), target));
    }
  }

  lemma {:induction false} ConsJson(j: Json, js: seq<Json>)
    ensures LeavesOf([j] + js) == Leaves(j) + LeavesOf(js)
    ensures ShapeOf([j] + js) == [Shape(j)] + ShapeOf(js)
  {
    assert ([j] + js)[1..] == js;
  }

  lemma {:induction false} UpdateConcat(a: seq<Text>, b: seq<Text>, i: nat)
    requires i < |a| + |b|
    ensures (a + b)[i := Elide((a + b)[i])]
         == if i < |a| then a[i := Elide(a[i])] + b else a + b[i - |a| := Elide(b[i - |a|])]
  {
  }

  /** Whenever the first pass reports a length the second pass finds a leaf of that length,
      so the search never gives up early. */
  lemma {:induction false} SearchPassesAgree(j: Json)
    ensures MaxShrinkable(j).Some? ==> ElideFirst(j, MaxShrinkable(j).value).Some?
  {
    FirstPassFindsLongest(j);
    if MaxShrinkable(j).Some? {
      var (ls, n) := (Leaves(j), MaxShrinkable(j).value);
      SecondPassElidesOneLeaf(j, n);
      var i :| 0 <= i < |ls| && Shrinks(ls[i]) && |ls[i]| == n;
      assert FirstMatch(ls, n) <= i;
    }
  }

  lemma {:induction false} EscapedSumUpdate(ls: seq<Text>, i: nat, s: Text)
    requires i < |ls|
    ensures EscapedSum(ls[i := s]) == EscapedSum(ls) - Escaped(ls[i]) + Escaped(s)
  {
    if i == 0 {
      assert ls[0 := s][1..] == ls[1..];
    } else {
      assert ls[i := s][1..] == ls[1..][i - 1 := s];
      EscapedSumUpdate(ls[1..], i - 1, s);
    }
  }

  /** An elision strictly shortens the serialized value. */
  lemma {:induction false} ElisionShortensJson(j: Json, target: nat)
    requires ElideFirst(j, target).Some?
    ensures Len(ElideFirst(j, target).value) < Len(j)
  {
    var (ls, i, r) := (Leaves(j), FirstMatch(Leaves(j), target), ElideFirst(j, target).value);
    SecondPassElidesOneLeaf(j, target);
    LenByLeaves(j);
    LenByLeaves(r);
    ElisionShortens(ls[i]);
    EscapedSumUpdate(ls, i, Elide(ls[i]));
  }
}
