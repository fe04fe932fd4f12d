/** Layered configuration: the recursive JSON overlay `deep_merge` and the
    `CODEX_CONFIG` value assembled with it (acp.rs). */
module Overlay {
  import opened Text

  datatype Value =
    | Null
    | Bool(b: bool)
    | Number(n: int)
    | Str(s: string)
    | Array(items: seq<Value>)
    | Table(entries: map<string, Value>)

  type Path = seq<string>

  /** The overlay wins, except that two objects are merged key by key. */
  function Merge(b: Value, o: Value): Value
    decreases o
  {
    if b.Table? && o.Table? then
      Table(map k | k in b.entries.Keys + o.entries.Keys ::
              if k !in o.entries then b.entries[k]
              else if k !in b.entries then o.entries[k]
              else Merge(b.entries[k], o.entries[k]))
    else o
  }

  /** What a merge leaves at each key of the overlay. */
  function Slots(base: map<string, Value>, overlay: map<string, Value>): (m: map<string, Value>)
    ensures m.Keys == overlay.Keys
  {
    map k | k in overlay :: if k in base then Merge(base[k], overlay[k]) else overlay[k]
  }

  /** All keys outside `todo` hold their slot, all others are as in `base`. */
  ghost predicate Merging(base: map<string, Value>, slots: map<string, Value>, todo: set<string>,
                          merged: map<string, Value>)
  {
    && todo <= slots.Keys && merged.Keys == base.Keys + (slots.Keys - todo)
    && forall k | k in merged :: merged[k] == if k in slots && k !in todo then slots[k] else base[k]
  }

  lemma {:induction false} MergingStep(base: map<string, Value>, slots: map<string, Value>, todo: set<string>,
                                       merged: map<string, Value>, k: string)
    requires Merging(base, slots, todo, merged) && k in todo
    ensures Merging(base, slots, todo - {k}, merged[k := slots[k]])
    ensures k in merged <==> k in base
    ensures k in base ==> merged[k] == base[k]
  {
  }

  /** `deep_merge`: overwrites `base` one overlay key after another, in whatever
      order the overlay's map yields them. */
  method DeepMerge(base: map<string, Value>, overlay: Value) returns (merged: map<string, Value>)
    requires overlay.Table?
    ensures Table(merged) == Merge(Table(base), overlay)
    decreases overlay, 0
  {
    hide Slots, Merging, Merge;
    ghost var slots := Slots(base, overlay.entries);
    merged := base;
    var todo := overlay.entries.Keys;
    MergingStarts(base, slots);
    while todo != {}
      invariant todo <= overlay.entries.Keys && Merging(base, slots, todo, merged)
      decreases |todo|
    {
      var k :| k in todo;
      MergingStep(base, slots, todo, merged, k);
      SlotAt(base, overlay.entries, k);
      var value := overlay.entries[k];
      if k in merged {
        value := MergeEntry(merged[k], value);
      }
      merged, todo := merged[k := value], todo - {k};
    }
    MergeBySlots(base, overlay, merged);
  }

  lemma {:induction false} MergingStarts(base: map<string, Value>, slots: map<string, Value>)
    ensures Merging(base, slots, slots.Keys, base)
  {
  }

  lemma {:induction false} SlotAt(base: map<string, Value>, overlay: map<string, Value>, k: string)
    requires k in overlay
    ensures Slots(base, overlay)[k] == if k in base then Merge(base[k], overlay[k]) else overlay[k]
  {
  }

  /** One occupied key of the merge: two objects are merged, otherwise the overlay wins. */
  method MergeEntry(present: Value, value: Value) returns (r: Value)
    ensures r == Merge(present, value)
    decreases value, 1
  {
    if present.Table? && value.Table? {
      var inner := DeepMerge(present.entries, value);
      r := Table(inner);
    } else {
      r := value;
    }
  }

  lemma {:induction false} MergeBySlots(base: map<string, Value>, overlay: Value, merged: map<string, Value>)
    requires overlay.Table? && Merging(base, Slots(base, overlay.entries), {}, merged)
    ensures Table(merged) == Merge(Table(base), overlay)
  {
    assert merged == Merge(Table(base), overlay).entries;
  }

  // ------------------------------------------------------------ reading by path

  function At(v: Value, p: Path): Option<Value> {
    if p == [] then Some(v)
    else if v.Table? && p[0] in v.entries then At(v.entries[p[0]], p[1..])
    else None
  }

  /** Some value that is not an object stands strictly above `p`. */
  predicate Blocks(v: Value, p: Path) {
    p != [] && (!v.Table? || (p[0] in v.entries && Blocks(v.entries[p[0]], p[1..])))
  }

  /** The layer neither sets `p` nor replaces anything above it. */
  predicate Untouched(v: Value, p: Path) {
    At(v, p).None? && !Blocks(v, p)
  }

  /** What stands at every path of a merge. */
  lemma {:induction false} MergeAt(b: Value, o: Value, p: Path)
    ensures At(Merge(b, o), p) ==
            if At(o, p).Some? then Some(if At(b, p).Some? then Merge(At(b, p).value, At(o, p).value) else At(o, p).value)
            else if Blocks(o, p) then None
            else At(b, p)
    decreases p
  {
    if p != [] && b.Table? && o.Table? && p[0] in b.entries && p[0] in o.entries {
      MergeAt(b.entries[p[0]], o.entries[p[0]], p[1..]);
    }
  }

  lemma {:induction false} MergeTwice(b: Value, o: Value)
    ensures Merge(Merge(b, o), o) == Merge(b, o)
    decreases o
  {
    if o.Table? {
      forall k | k in o.entries ensures Merge(o.entries[k], o.entries[k]) == o.entries[k] {
        MergeSelf(o.entries[k]);
      }
      if b.Table? {
        forall k | k in b.entries && k in o.entries
          ensures Merge(Merge(b.entries[k], o.entries[k]), o.entries[k]) == Merge(b.entries[k], o.entries[k])
        {
          MergeTwice(b.entries[k], o.entries[k]);
        }
      }
      assert Merge(Merge(b, o), o).entries == Merge(b, o).entries;
    }
  }

  lemma {:induction false} MergeSelf(v: Value)
    ensures Merge(v, v) == v
  {
    if v.Table? {
      forall k | k in v.entries ensures Merge(v.entries[k], v.entries[k]) == v.entries[k] {
        MergeSelf(v.entries[k]);
      }
      assert Merge(v, v).entries == v.entries;
    }
  }

  // -------------------------------------------------------------- associativity

  /** Everything in `a` is set again by `c`. */
  predicate Covered(a: Value, c: Value)
    decreases c
  {
    a.Table? && c.Table? ==>
      forall k | k in a.entries :: k in c.entries && Covered(a.entries[k], c.entries[k])
  }

  lemma {:induction false} CoveredMeansErased(a: Value, c: Value)
    ensures Merge(a, c) == c <==> Covered(a, c)
    decreases c
  {
    if a.Table? && c.Table? {
      forall k | k in a.entries && k in c.entries
        ensures Merge(a.entries[k], c.entries[k]) == c.entries[k] <==> Covered(a.entries[k], c.entries[k])
      {
        CoveredMeansErased(a.entries[k], c.entries[k]);
      }
      var m := Merge(a, c).entries;
      assert a.entries.Keys <= m.Keys;
      if Covered(a, c) {
        assert m == c.entries;
      }
    }
  }

  /** At `p` an object is replaced by a scalar and the scalar by an object. */
  predicate Sandwich(a: Value, b: Value, c: Value, p: Path) {
    && At(a, p).Some? && At(a, p).value.Table?
    && At(b, p).Some? && !At(b, p).value.Table?
    && At(c, p).Some? && At(c, p).value.Table?
  }

  ghost predicate SandwichesCovered(a: Value, b: Value, c: Value) {
    forall p | Sandwich(a, b, c, p) :: Covered(At(a, p).value, At(c, p).value)
  }

  /** The two groupings key by key. */
  lemma {:induction false} GroupingsAt(a: Value, b: Value, c: Value, k: string)
    requires a.Table? && b.Table? && c.Table?
    requires k in a.entries.Keys + b.entries.Keys + c.entries.Keys
    ensures var l, r := Merge(Merge(a, b), c), Merge(a, Merge(b, c));
            && l.Table? && r.Table? && k in l.entries && k in r.entries
            && if k in a.entries && k in b.entries && k in c.entries then
                 && l.entries[k] == Merge(Merge(a.entries[k], b.entries[k]), c.entries[k])
                 && r.entries[k] == Merge(a.entries[k], Merge(b.entries[k], c.entries[k]))
               else l.entries[k] == r.entries[k]
  {
    var ab, bc := Merge(a, b), Merge(b, c);
    assert ab.entries.Keys == a.entries.Keys + b.entries.Keys;
    assert bc.entries.Keys == b.entries.Keys + c.entries.Keys;
  }

  /** The groupings of three objects agree exactly when they agree key by key. */
  lemma {:induction false} GroupingsByKey(a: Value, b: Value, c: Value, keys: set<string>)
    requires a.Table? && b.Table? && c.Table? && keys == a.entries.Keys + b.entries.Keys + c.entries.Keys
    ensures var l, r := Merge(Merge(a, b), c), Merge(a, Merge(b, c));
            && l.Table? && r.Table? && l.entries.Keys == keys == r.entries.Keys
            && (l == r <==> forall k | k in keys :: l.entries[k] == r.entries[k])
  {
    var l, r := Merge(Merge(a, b), c), Merge(a, Merge(b, c));
    assert l.Table? && r.Table? && l.entries.Keys == keys == r.entries.Keys;
    SameTables(l, r);
  }

  lemma {:induction false} SameTables(l: Value, r: Value)
    requires l.Table? && r.Table? && l.entries.Keys == r.entries.Keys
    ensures l == r <==> forall k | k in l.entries :: l.entries[k] == r.entries[k]
  {
    if forall k | k in l.entries :: l.entries[k] == r.entries[k] {
      assert l.entries == r.entries;
    }
  }

  lemma {:induction false} ScalarAmongThree(a: Value, b: Value, c: Value)
    requires !(a.Table? && b.Table? && c.Table?)
    ensures Merge(Merge(a, b), c) == Merge(a, Merge(b, c)) <==> SandwichesCovered(a, b, c)
  {
    hide SandwichesCovered, Covered;
    OnlySandwich(a, b, c);
    CoveredMeansErased(a, c);
  }

  lemma {:induction false} OnlySandwich(a: Value, b: Value, c: Value)
    requires !(a.Table? && b.Table? && c.Table?)
    ensures SandwichesCovered(a, b, c) <==> (a.Table? && !b.Table? && c.Table? ==> Covered(a, c))
  {
    hide Covered;
    assert Sandwich(a, b, c, []) <==> a.Table? && !b.Table? && c.Table?;
    assert forall p | Sandwich(a, b, c, p) :: p == [];
  }

  /** Merging is associative on three layers exactly when, wherever the middle one
      puts a scalar between two objects, the last sets all that the first set. */
  lemma {:induction false} AssociativeExactlyWhen(a: Value, b: Value, c: Value)
    ensures Merge(Merge(a, b), c) == Merge(a, Merge(b, c)) <==> SandwichesCovered(a, b, c)
    decreases c
  {
    hide Merge, SandwichesCovered;
    if a.Table? && b.Table? && c.Table? {
      var l, r := Merge(Merge(a, b), c), Merge(a, Merge(b, c));
      var keys := a.entries.Keys + b.entries.Keys + c.entries.Keys;
      var shared := a.entries.Keys * b.entries.Keys * c.entries.Keys;
      GroupingsByKey(a, b, c, keys);
      forall k | k in keys
        ensures l.entries[k] == r.entries[k] <==>
                (k in shared ==> SandwichesCovered(a.entries[k], b.entries[k], c.entries[k]))
      {
        GroupingsAt(a, b, c, k);
        if k in shared {
          AssociativeExactlyWhen(a.entries[k], b.entries[k], c.entries[k]);
        }
      }
      SandwichesBelow(a, b, c);
    } else {
      ScalarAmongThree(a, b, c);
    }
  }

  lemma {:induction false} SandwichesBelow(a: Value, b: Value, c: Value)
    requires a.Table? && b.Table? && c.Table?
    ensures SandwichesCovered(a, b, c) <==>
            forall k | k in a.entries.Keys * b.entries.Keys * c.entries.Keys ::
              SandwichesCovered(a.entries[k], b.entries[k], c.entries[k])
  {
    var shared := a.entries.Keys * b.entries.Keys * c.entries.Keys;
    if SandwichesCovered(a, b, c) {
      forall k, p | k in shared && Sandwich(a.entries[k], b.entries[k], c.entries[k], p)
        ensures Covered(At(a.entries[k], p).value, At(c.entries[k], p).value)
      {
        var q := [k] + p;
        assert q[1..] == p;
        assert Sandwich(a, b, c, q);
      }
    }
    if forall k | k in shared :: SandwichesCovered(a.entries[k], b.entries[k], c.entries[k]) {
      forall p | Sandwich(a, b, c, p) ensures Covered(At(a, p).value, At(c, p).value) {
        assert Sandwich(a.entries[p[0]], b.entries[p[0]], c.entries[p[0]], p[1..]);
      }
    }
  }

  /** Object, scalar, object: the two groupings differ. */
  lemma {:induction false} NotAssociative()
    ensures var a, b, c := Table(map["k" := Null]), Null, Table(map[]);
            Merge(Merge(a, b), c) != Merge(a, Merge(b, c))
  {
    var a, c := Table(map["k" := Null]), Table(map[]);
    assert "k" in Merge(a, c).entries;
  }

  // ------------------------------------------------------------------- layers

  /** The layers merged from the first to the last. */
  function Fold(layers: seq<Value>): Value
    requires layers != []
  {
    if |layers| == 1 then layers[0]
    else Merge(Fold(layers[..|layers| - 1]), layers[|layers| - 1])
  }

  /** Layer `i` sets `p` to something that is not an object and no later layer touches it. */
  predicate LastWriter(layers: seq<Value>, i: nat, p: Path, leaf: Value) {
    && i < |layers| && At(layers[i], p) == Some(leaf) && !leaf.Table?
    && forall j | i < j < |layers| :: Untouched(layers[j], p)
  }

  /** A leaf stands at a path of the merged layers exactly when the last layer to
      touch that path put it there. */
  lemma {:induction false} LeafIsLastWritten(layers: seq<Value>, p: Path, leaf: Value)
    requires layers != [] && !leaf.Table?
    ensures At(Fold(layers), p) == Some(leaf) <==> exists i :: LastWriter(layers, i, p, leaf)
  {
    hide Blocks, At;
    var n := |layers| - 1;
    var front, last := layers[..n], layers[n];
    if At(last, p) == Some(leaf) {
      assert LastWriter(layers, n, p, leaf);
    }
    if n > 0 {
      LeafIsLastWritten(front, p, leaf);
      MergeAt(Fold(front), last, p);
      if i: nat :| LastWriter(front, i, p, leaf) && Untouched(last, p) {
        assert LastWriter(layers, i, p, leaf);
      }
      if i: nat :| LastWriter(layers, i, p, leaf) && i < n {
        assert LastWriter(front, i, p, leaf);
      }
    }
  }

  lemma {:induction false} FoldIsTable(layers: seq<Value>)
    requires layers != [] && forall i | 0 <= i < |layers| :: layers[i].Table?
    ensures Fold(layers).Table?
  {
    if |layers| > 1 {
      FoldIsTable(layers[..|layers| - 1]);
    }
  }

  // --------------------------------------------------------- the built config

  const SANDBOX := "sandbox_workspace_write"
  const NETWORK := "network_access"

  const FORCED: Value := Table(map[SANDBOX := Table(map[NETWORK := Bool(true)])])

  datatype Origin = Persona | Generated | ParentEnvironment

  datatype BuildError = NotJson(origin: Origin) | NotAnObject(origin: Origin) | SandboxNotAnObject

  datatype BuildResult = Built(config: Option<Value>) | Failed(error: BuildError)

  /** JSON reading, left open. */
  type Parser = string -> Option<Value>

  predicate IsObject(parse: Parser, raw: string) {
    parse(raw).Some? && parse(raw).value.Table?
  }

  function ErrorFor(parse: Parser, raw: string, origin: Origin): BuildError {
    if parse(raw).None? then NotJson(origin) else NotAnObject(origin)
  }

  /** The values given to `CODEX_CONFIG`, in order. */
  function CodexEntries(env: seq<(string, string)>): seq<string> {
    if env == [] then []
    else
      var (key, value) := env[|env| - 1];
      CodexEntries(env[..|env| - 1]) + if key == "CODEX_CONFIG" then [value] else []
  }

  function FirstBad(parse: Parser, raws: seq<string>, i: nat): (k: nat)
    requires i <= |raws|
    ensures i <= k <= |raws|
    ensures forall j | i <= j < k :: IsObject(parse, raws[j])
    ensures k < |raws| ==> !IsObject(parse, raws[k])
    decreases |raws| - i
  {
    if i == |raws| || !IsObject(parse, raws[i]) then i else FirstBad(parse, raws, i + 1)
  }

  function Layers(parse: Parser, raws: seq<string>): (layers: seq<Value>)
    requires forall j | 0 <= j < |raws| :: IsObject(parse, raws[j])
    ensures |layers| == |raws|
    ensures forall j | 0 <= j < |raws| :: layers[j].Table?
  {
    seq(|raws|, j requires 0 <= j < |raws| && IsObject(parse, raws[j]) => parse(raws[j]).value)
  }

  /** The entries with the parent's value behind them. */
  function Sources(env: seq<(string, string)>, parent: Option<string>): seq<string> {
    CodexEntries(env) + if parent.Some? then [parent.value] else []
  }

  predicate SandboxUsable(v: Value) {
    v.Table? && (SANDBOX in v.entries ==> v.entries[SANDBOX].Table?)
  }

  function Build(parse: Parser, env: seq<(string, string)>, parent: Option<string>, generated: bool): BuildResult {
    var raws, all := CodexEntries(env), Sources(env, parent);
    if !generated || raws == [] then Built(None)
    else
      var bad := FirstBad(parse, all, 0);
      if bad < |all| then
        Failed(ErrorFor(parse, all[bad],
                        if bad == |raws| then ParentEnvironment else if bad == 0 then Persona else Generated))
      else
        var merged := Fold(Layers(parse, all));
        if SandboxUsable(merged) then Built(Some(Merge(merged, FORCED))) else Failed(SandboxNotAnObject)
  }

  method CollectEntries(env: seq<(string, string)>) returns (raws: seq<string>)
    ensures raws == CodexEntries(env)
  {
    raws := [];
    for i := 0 to |env|
      invariant raws == CodexEntries(env[..i])
    {
      assert env[..i + 1][..i] == env[..i];
      if env[i].0 == "CODEX_CONFIG" {
        raws := raws + [env[i].1];
      }
    }
    assert env[..|env|] == env;
  }

  /** Parses the entries up to the first that is not an object. */
  method ParseEntries(parse: Parser, raws: seq<string>, ghost all: seq<string>) returns (parsed: seq<Value>, bad: nat)
    requires raws <= all
    ensures bad == |parsed| <= |raws|
    ensures forall j | 0 <= j < bad :: IsObject(parse, all[j]) && parsed[j] == parse(all[j]).value
    ensures FirstBad(parse, all, bad) == FirstBad(parse, all, 0)
    ensures bad < |raws| ==> bad == FirstBad(parse, all, 0)
  {
    parsed, bad := [], 0;
    while bad < |raws|
      invariant bad == |parsed| <= |raws|
      invariant forall j | 0 <= j < bad :: IsObject(parse, all[j]) && parsed[j] == parse(all[j]).value
      invariant FirstBad(parse, all, bad) == FirstBad(parse, all, 0)
    {
      var v := parse(raws[bad]);
      assert raws[bad] == all[bad];
      if v.None? || !v.value.Table? {
        return;
      }
      parsed, bad := parsed + [v.value], bad + 1;
    }
  }

  method MergeEntries(parsed: seq<Value>) returns (base: map<string, Value>)
    requires parsed != [] && forall j | 0 <= j < |parsed| :: parsed[j].Table?
    ensures Table(base) == Fold(parsed)
  {
    base := parsed[0].entries;
    for i := 1 to |parsed|
      invariant Table(base) == Fold(parsed[..i])
    {
      assert parsed[..i + 1][..i] == parsed[..i];
      base := DeepMerge(base, parsed[i]);
    }
    assert parsed[..|parsed|] == parsed;
  }

  /** `build_codex_config_env`, up to printing the resulting object. */
  method BuildCodexConfigEnv(parse: Parser, env: seq<(string, string)>, parent: Option<string>, generated: bool)
    returns (r: BuildResult)
    ensures r == Build(parse, env, parent, generated)
  {
    hide Merge, CodexEntries, FirstBad;
    if !generated {
      return Built(None);
    }
    var raws := CollectEntries(env);
    if raws == [] {
      return Built(None);
    }
    ghost var all := Sources(env, parent);
    var parsed, bad := ParseEntries(parse, raws, all);
    if bad < |raws| {
      return Failed(ErrorFor(parse, raws[bad], if bad == 0 then Persona else Generated));
    }
    var base := MergeEntries(parsed);
    ghost var layers := parsed;
    if parent.Some? {
      assert all[|raws|] == parent.value;
      var v := parse(parent.value);
      if v.None? || !v.value.Table? {
        return Failed(ErrorFor(parse, parent.value, ParentEnvironment));
      }
      base := DeepMerge(base, v.value);
      layers := parsed + [v.value];
      assert layers[..|parsed|] == parsed;
    }
    assert FirstBad(parse, all, 0) == |all| && layers == Layers(parse, all);
    if SANDBOX in base && !base[SANDBOX].Table? {
      return Failed(SandboxNotAnObject);
    }
    var inner := if SANDBOX in base then base[SANDBOX].entries else map[];
    var forced := base[SANDBOX := Table(inner[NETWORK := Bool(true)])];
    ForcedIsMerge(base, inner);
    r := Built(Some(Table(forced)));
  }

  /** Inserting the forced key is merging one last overlay. */
  lemma {:induction false} ForcedIsMerge(base: map<string, Value>, inner: map<string, Value>)
    requires SANDBOX in base ==> base[SANDBOX] == Table(inner)
    requires SANDBOX !in base ==> inner == map[]
    ensures Table(base[SANDBOX := Table(inner[NETWORK := Bool(true)])]) == Merge(Table(base), FORCED)
  {
    var merged := Merge(Table(base), FORCED).entries;
    if SANDBOX in base {
      assert Merge(Table(inner), FORCED.entries[SANDBOX]).entries == inner[NETWORK := Bool(true)];
    } else {
      assert FORCED.entries[SANDBOX] == Table(inner[NETWORK := Bool(true)]);
    }
    assert merged == base[SANDBOX := Table(inner[NETWORK := Bool(true)])];
  }

  /** A config is built exactly when one was asked for, every value is an object, and
      the last value to mention the sandbox table makes it an object. */
  lemma {:induction false} BuiltExactlyWhen(parse: Parser, env: seq<(string, string)>, parent: Option<string>, generated: bool)
    ensures var all := Sources(env, parent);
            var r := Build(parse, env, parent, generated);
            r.Built? && r.config.Some? <==>
            && generated && CodexEntries(env) != []
            && (forall j | 0 <= j < |all| :: IsObject(parse, all[j]))
            && (forall j: nat | LastNaming(Layers(parse, all), j) :: Layers(parse, all)[j].entries[SANDBOX].Table?)
  {
    var all := Sources(env, parent);
    if CodexEntries(env) != [] && FirstBad(parse, all, 0) == |all| {
      SandboxIsLastNamed(Layers(parse, all));
    }
  }

  /** Value `j` is the first that is not an object, and where it came from: the parent's
      environment if it stands behind all the entries, else the persona if it is the first. */
  predicate FirstFault(parse: Parser, env: seq<(string, string)>, parent: Option<string>, j: nat, origin: Origin) {
    var all := Sources(env, parent);
    && j < |all| && !IsObject(parse, all[j]) && (forall i | 0 <= i < j :: IsObject(parse, all[i]))
    && origin == if j == |CodexEntries(env)| then ParentEnvironment else if j == 0 then Persona else Generated
  }

  /** Which error is reported: that of the first value which is not an object, naming its
      origin, as unreadable or as something else; and only when all are objects, that the
      sandbox table is none. */
  lemma {:induction false} FailsExactlyWhen(parse: Parser, env: seq<(string, string)>, parent: Option<string>,
                                            generated: bool, error: BuildError)
    ensures var all := Sources(env, parent);
            Build(parse, env, parent, generated) == Failed(error) <==>
            && generated && CodexEntries(env) != []
            && match error
               case NotJson(origin) => exists j: nat :: FirstFault(parse, env, parent, j, origin) && parse(all[j]).None?
               case NotAnObject(origin) => exists j: nat :: FirstFault(parse, env, parent, j, origin) && parse(all[j]).Some?
               case SandboxNotAnObject =>
                 && (forall j | 0 <= j < |all| :: IsObject(parse, all[j]))
                 && exists j: nat :: LastNaming(Layers(parse, all), j) && !Layers(parse, all)[j].entries[SANDBOX].Table?
    ensures Build(parse, env, parent, generated) == Built(None) <==> !generated || CodexEntries(env) == []
  {
    var all := Sources(env, parent);
    if generated && CodexEntries(env) != [] {
      var bad := FirstBad(parse, all, 0);
      if bad < |all| {
        var origin := if bad == |CodexEntries(env)| then ParentEnvironment else if bad == 0 then Persona else Generated;
        assert FirstFault(parse, env, parent, bad, origin);
        assert forall j: nat, o | FirstFault(parse, env, parent, j, o) :: j == bad && o == origin;
      } else {
        SandboxIsLastNamed(Layers(parse, all));
      }
    }
  }

  predicate Names(v: Value) {
    v.Table? && SANDBOX in v.entries
  }

  /** Layer `j` is the last one to mention the sandbox table. */
  predicate LastNaming(layers: seq<Value>, j: nat) {
    j < |layers| && Names(layers[j]) && forall i | j < i < |layers| :: !Names(layers[i])
  }

  lemma {:induction false} SandboxIsLastNamed(layers: seq<Value>)
    requires layers != [] && forall i | 0 <= i < |layers| :: layers[i].Table?
    ensures Fold(layers).Table?
    ensures Names(Fold(layers)) <==> exists j: nat :: LastNaming(layers, j)
    ensures forall j: nat | LastNaming(layers, j) ::
              Fold(layers).entries[SANDBOX].Table? <==> layers[j].entries[SANDBOX].Table?
  {
    var n := |layers| - 1;
    if Names(layers[n]) {
      assert LastNaming(layers, n);
      assert forall j: nat | LastNaming(layers, j) :: j == n;
      if n > 0 {
        SandboxIsLastNamed(layers[..n]);
        var front := Fold(layers[..n]);
        assert Fold(layers) == Merge(front, layers[n]);
        assert Fold(layers).entries[SANDBOX] ==
               if SANDBOX in front.entries then Merge(front.entries[SANDBOX], layers[n].entries[SANDBOX])
               else layers[n].entries[SANDBOX];
      }
    } else if n > 0 {
      var front := layers[..n];
      SandboxIsLastNamed(front);
      assert Fold(layers) == Merge(Fold(front), layers[n]);
      assert forall j: nat :: LastNaming(layers, j) <==> LastNaming(front, j);
    }
  }

  /** Every leaf of a built config is the one written last, the forced key counting
      as the last layer of all; so network access is always on. */
  lemma {:induction false} BuiltConfigByPath(parse: Parser, env: seq<(string, string)>, parent: Option<string>,
                                             p: Path, leaf: Value)
    requires Build(parse, env, parent, true).Built? && Build(parse, env, parent, true).config.Some?
    requires !leaf.Table?
    ensures var config := Build(parse, env, parent, true).config.value;
            var layers := Layers(parse, Sources(env, parent)) + [FORCED];
            && (At(config, p) == Some(leaf) <==> exists i :: LastWriter(layers, i, p, leaf))
            && At(config, [SANDBOX, NETWORK]) == Some(Bool(true))
  {
    var layers := Layers(parse, Sources(env, parent));
    var n := |layers|;
    assert (layers + [FORCED])[..n] == layers;
    LeafIsLastWritten(layers + [FORCED], p, leaf);
    NetworkForced();
    assert LastWriter(layers + [FORCED], n, [SANDBOX, NETWORK], Bool(true));
    LeafIsLastWritten(layers + [FORCED], [SANDBOX, NETWORK], Bool(true));
  }

  lemma {:induction false} NetworkForced()
    ensures At(FORCED, [SANDBOX, NETWORK]) == Some(Bool(true))
  {
    var inner := FORCED.entries[SANDBOX];
    assert At(inner.entries[NETWORK], []) == Some(Bool(true));
    assert At(inner, [NETWORK]) == Some(Bool(true)) by {
      assert [NETWORK][1..] == [];
    }
    assert [SANDBOX, NETWORK][1..] == [NETWORK];
  }

  /** Off the forced path the forced layer touches no leaf's path. */
  lemma {:induction false} ForcedTouchesOnly(p: Path)
    ensures Untouched(FORCED, p) || p <= [SANDBOX, NETWORK] || [SANDBOX, NETWORK] <= p
  {
    if p != [] && p[0] == SANDBOX {
      var inner, q := FORCED.entries[SANDBOX], p[1..];
      assert p == [SANDBOX] + q;
      if q != [] {
        assert q[0] == NETWORK ==> [SANDBOX, NETWORK] <= p;
        assert q[0] != NETWORK ==> Untouched(inner, q);
      }
    }
  }

  /** A leaf of the parent's value stays in the built config, unless it lies at or
      below `sandbox_workspace_write.network_access`. */
  lemma {:induction false} ParentLeafWins(parse: Parser, env: seq<(string, string)>, parent: string, p: Path, leaf: Value)
    requires Build(parse, env, Some(parent), true).Built? && Build(parse, env, Some(parent), true).config.Some?
    requires IsObject(parse, parent) && At(parse(parent).value, p) == Some(leaf) && !leaf.Table?
    requires !([SANDBOX, NETWORK] <= p)
    ensures At(Build(parse, env, Some(parent), true).config.value, p) == Some(leaf)
  {
    var all := Sources(env, Some(parent));
    var layers := Layers(parse, all);
    var n := |layers| - 1;
    assert all[n] == parent;
    assert Fold(layers).Table? && SandboxUsable(Fold(layers));
    LeafIsLastWritten(layers, p, leaf);
    assert LastWriter(layers, n, p, leaf);
    assert p != [];
    if p == [SANDBOX] {
      assert false;
    }
    ForcedTouchesOnly(p);
    assert LastWriter(layers + [FORCED], n, p, leaf);
    BuiltConfigByPath(parse, env, Some(parent), p, leaf);
  }
}
