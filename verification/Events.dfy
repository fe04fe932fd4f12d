/** Observer events, their JSON form, the batch envelope and the per-frame size cap. */
module Events {
  import opened Text
  import opened Json

  /** OBSERVER_MAX_PLAINTEXT_LEN */
  const CAP: nat := 65_535

  datatype Event = Event(
    seq_: nat,
    timestamp: Text,
    kind: Text,
    agentIndex: Option<nat>,
    channelId: Option<Text>,
    sessionId: Option<Text>,
    turnId: Option<Text>,
    startedAt: Option<Text>,
    payload: Json)

  /** Member names of a serialized event, then those of the batch envelope. */
  const NAMES: seq<string> :=
    ["seq", "timestamp", "kind", "agentIndex", "channelId", "sessionId", "turnId", "startedAt",
     "payload", "events", "batch"]

  const PAYLOAD: nat := 8
  const EVENTS: nat := 9
  const BATCH: nat := 10

  function Name(i: nat): Text
    requires i < |NAMES|
  {
    Ascii(NAMES[i])
  }

  function OptText(o: Option<Text>): Json {
    match o case Some(t) => Str(t) case None => Null
  }

  function OptNumber(o: Option<nat>): Json {
    match o case Some(n) => Number(Decimal(n)) case None => Null
  }

  /** Field names in declaration order; `startedAt` is skipped when absent. */
  function HeaderKeys(e: Event): seq<Text> {
    [Name(0), Name(1), Name(2), Name(3), Name(4), Name(5), Name(6)]
    + if e.startedAt.Some? then [Name(7)] else []
  }

  function HeaderVals(e: Event): seq<Json> {
    [Number(Decimal(e.seq_)), Str(e.timestamp), Str(e.kind), OptNumber(e.agentIndex),
     OptText(e.channelId), OptText(e.sessionId), OptText(e.turnId)]
    + if e.startedAt.Some? then [OptText(e.startedAt)] else []
  }

  function EventJson(e: Event): Json {
    Obj(HeaderKeys(e) + [Name(PAYLOAD)], HeaderVals(e) + [e.payload])
  }

  function EventJsons(es: seq<Event>): (js: seq<Json>)
    ensures |js| == |es|
  {
    if es == [] then [] else [EventJson(es[0])] + EventJsons(es[1..])
  }

  function SerializedLen(e: Event): nat { Len(EventJson(e)) }

  function SerializedSum(es: seq<Event>): nat {
    if es == [] then 0 else SerializedLen(es[0]) + SerializedSum(es[1..])
  }

  /** Everything of the serialized frame but its payload. */
  function HeaderLen(e: Event): nat {
    2 + |HeaderVals(e)| + KeysLen(HeaderKeys(e) + [Name(PAYLOAD)]) + LenAll(HeaderVals(e))
  }

  lemma {:induction false} SerializedSplits(e: Event)
    ensures SerializedLen(e) == HeaderLen(e) + Len(e.payload)
  {
    LenAllConcat(HeaderVals(e), [e.payload]);
    assert LenAll([e.payload]) == Len(e.payload);
  }

  lemma {:induction false} HeaderIgnoresPayload(e: Event, p: Json)
    ensures HeaderLen(e.(payload := p)) == HeaderLen(e)
  {
  }

  // ------------------------------------------------------ batch envelope

  /** `batch_envelope`: the metadata of the last event around all of them. */
  function BatchEnvelope(es: seq<Event>): Event
    requires es != []
  {
    es[|es| - 1].(kind := Name(BATCH), payload := EnvelopePayload(es))
  }

  function EnvelopePayload(es: seq<Event>): Json {
    Obj([Name(EVENTS)], [Arr(EventJsons(es))])
  }

  /** `seal_batch` */
  function SealBatch(es: seq<Event>): Event
    requires es != []
  {
    if |es| == 1 then es[0] else BatchEnvelope(es)
  }

  lemma {:induction false} EventJsonsLen(es: seq<Event>)
    ensures LenAll(EventJsons(es)) == SerializedSum(es)
  {
    if es != [] {
      EventJsonsLen(es[1..]);
      assert EventJsons(es)[1..] == EventJsons(es[1..]);
    }
  }

  /** Bytes an envelope closed by `last` takes besides the events and their separators. */
  function Overhead(last: Event): nat {
    HeaderLen(last.(kind := Name(BATCH))) + 2 + Quoted(Name(EVENTS)) + 1 + 2
  }

  lemma {:induction false} WrappedLen(key: Text, items: seq<Json>, total: nat)
    requires items != [] && LenAll(items) == total
    ensures Len(Obj([key], [Arr(items)])) == 2 + Quoted(key) + 1 + 2 + |items| - 1 + total
  {
    var keys, vals := [key], [Arr(items)];
    assert keys[1..] == [] && vals[1..] == [];
    assert LenAll(vals) == Len(Arr(items));
    assert KeysLen(keys) == Quoted(key) + 1 + KeysLen(keys[1..]);
  }

  /** The envelope's length is the events' total plus one separator each, plus an
      overhead that depends on the last event alone. */
  lemma {:induction false} EnvelopeLen(es: seq<Event>)
    requires es != []
    ensures SerializedLen(BatchEnvelope(es)) == Overhead(es[|es| - 1]) + SerializedSum(es) + |es| - 1
  {
    SerializedSplits(BatchEnvelope(es));
    HeaderIgnoresPayload(es[|es| - 1].(kind := Name(BATCH)), EnvelopePayload(es));
    EventJsonsLen(es);
    WrappedLen(Name(EVENTS), EventJsons(es), SerializedSum(es));
  }

  lemma {:induction false} GetOnly(key: Text, v: Json)
    ensures Get(Obj([key], [v]), key) == Some(v)
  {
  }

  /** An envelope keeps the channel and the position of its last event, and its payload
      carries the events, in order, each as the value that serializes it alone. */
  lemma {:induction false} EnvelopeCarriesEvents(es: seq<Event>)
    requires es != []
    ensures BatchEnvelope(es).channelId == es[|es| - 1].channelId
    ensures BatchEnvelope(es).seq_ == es[|es| - 1].seq_
    ensures Get(BatchEnvelope(es).payload, Name(EVENTS)) == Some(Arr(EventJsons(es)))
  {
    GetOnly(Name(EVENTS), Arr(EventJsons(es)));
  }

  lemma {:induction false} EventJsonsAt(es: seq<Event>, i: nat)
    requires i < |es|
    ensures EventJsons(es)[i] == EventJson(es[i])
  {
    if i > 0 {
      EventJsonsAt(es[1..], i - 1);
    }
  }

  lemma {:induction false} HeaderInjective(d: Event, e: Event)
    requires HeaderVals(d) == HeaderVals(e)
    ensures d.(payload := e.payload) == e
  {
    hide Decimal;
    var (x, y) := (HeaderVals(d), HeaderVals(e));
    assert |x| == |y| && x[0] == y[0] && x[1] == y[1] && x[2] == y[2] && x[3] == y[3];
    DecimalInjective(d.seq_, e.seq_);
    if d.agentIndex.Some? && e.agentIndex.Some? {
      DecimalInjective(d.agentIndex.value, e.agentIndex.value);
    }
    assert x[4] == y[4] && x[5] == y[5] && x[6] == y[6];
    if d.startedAt.Some? {
      assert x[7] == y[7];
    }
  }

  lemma {:induction false} EventJsonInjective(d: Event, e: Event)
    requires EventJson(d) == EventJson(e)
    ensures d == e
  {
    hide Name, HeaderVals, HeaderKeys;
    var (x, y) := (HeaderVals(d), HeaderVals(e));
    var (xs, ys) := (x + [d.payload], y + [e.payload]);
    assert xs == ys && |x| == |y|;
    assert xs[..|x|] == x && ys[..|x|] == y;
    assert xs[|x|] == d.payload && ys[|x|] == e.payload;
    HeaderInjective(d, e);
  }

  lemma {:induction false} EventJsonsInjective(ds: seq<Event>, es: seq<Event>)
    requires EventJsons(ds) == EventJsons(es)
    ensures ds == es
  {
    assert |ds| == |es|;
    if ds != [] {
      assert EventJsons(ds)[0] == EventJsons(es)[0];
      EventJsonInjective(ds[0], es[0]);
      assert EventJsons(ds)[1..] == EventJsons(ds[1..]) && EventJsons(es)[1..] == EventJsons(es[1..]);
      EventJsonsInjective(ds[1..], es[1..]);
      assert ds == [ds[0]] + ds[1..] && es == [es[0]] + es[1..];
    }
  }

  /** A sealed frame determines its events: sealing loses nothing, and only an event that
      is itself of kind "batch" could be taken for a batch. */
  lemma {:induction false} SealedFrameDeterminesEvents(ds: seq<Event>, es: seq<Event>)
    requires ds != [] && es != [] && SealBatch(ds) == SealBatch(es)
    requires ds[0].kind != Name(BATCH) && es[0].kind != Name(BATCH)
    ensures ds == es
  {
    if |ds| == 1 && |es| == 1 {
      assert ds == [ds[0]] && es == [es[0]];
    } else if |ds| > 1 && |es| > 1 {
      assert EnvelopePayload(ds).vals[0] == EnvelopePayload(es).vals[0];
      EventJsonsInjective(ds, es);
    }
  }
}
