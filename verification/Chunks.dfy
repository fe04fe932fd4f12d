/** Chunk events: the key they merge under and the text they carry. */
module Chunks {
  import opened Text
  import opened Json
  import opened Events

  const WORDS: seq<string> :=
    ["params", "update", "sessionUpdate", "content", "text", "messageId",
     "agent_message_chunk", "user_message_chunk", "agent_thought_chunk"]

  function Word(i: nat): (t: Text)
    requires i < |WORDS|
    ensures |t| == |WORDS[i]|
  {
    Ascii(WORDS[i])
  }

  datatype ChunkKey = ChunkKey(
    updateType: Text,
    messageId: Option<Text>,
    channelId: Option<Text>,
    sessionId: Option<Text>,
    turnId: Option<Text>,
    agentIndex: Option<nat>)

  datatype Chunk = Chunk(key: ChunkKey, text: Text)

  /** `Value::as_str` */
  function AsText(j: Json): Option<Text> {
    if j.Str? then Some(j.text) else None
  }

  predicate ChunkType(t: Text) { t == Word(6) || t == Word(7) || t == Word(8) }

  function Words(ws: seq<nat>): (p: seq<Text>)
    requires forall i | 0 <= i < |ws| :: ws[i] < |WORDS|
    ensures |p| == |ws| && forall i | 0 <= i < |ws| :: p[i] == Word(ws[i])
  {
    seq(|ws|, i requires 0 <= i < |ws| => Word(ws[i]))
  }

  /** `payload.params.update.sessionUpdate`, `….messageId` and `….content.text` */
  const TYPE_PATH: seq<Text> := Words([0, 1, 2])
  const ID_PATH: seq<Text> := Words([0, 1, 5])
  const TEXT_PATH: seq<Text> := Words([0, 1, 3, 4])

  /** A chain of `get`. */
  function GetAt(j: Json, path: seq<Text>): Option<Json> {
    if path == [] then Some(j)
    else match Get(j, path[0])
      case Some(v) => GetAt(v, path[1..])
      case None => None
  }

  function TextAt(j: Json, path: seq<Text>): Option<Text> {
    match GetAt(j, path) case Some(v) => AsText(v) case None => None
  }

  /** A chain of `get_mut` ending in an `insert` when it reaches an object. */
  function InsertAt(j: Json, path: seq<Text>, v: Json): Json
    requires path != []
  {
    if |path| == 1 then (if j.Obj? then Insert(j, path[0], v) else j)
    else match Get(j, path[0])
      case Some(inner) => Insert(j, path[0], InsertAt(inner, path[1..], v))
      case None => j
  }

  /** `observer_chunk_key_and_text` */
  function ChunkOf(e: Event): Option<Chunk> {
    var updateType :- TextAt(e.payload, TYPE_PATH);
    if !ChunkType(updateType) then None else
    var text :- TextAt(e.payload, TEXT_PATH);
    Some(Chunk(ChunkKey(updateType, TextAt(e.payload, ID_PATH),
                        e.channelId, e.sessionId, e.turnId, e.agentIndex), text))
  }

  /** `set_observer_chunk_text` */
  function SetChunkText(payload: Json, text: Text): Json {
    InsertAt(payload, TEXT_PATH, Str(text))
  }

  /** The payload of a session update as the agent sends it. */
  function WireUpdate(updateType: Text, id: Text, text: Text): Json {
    Obj([Word(0)], [Obj([Word(1)], [Obj([Word(2), Word(5), Word(3)],
        [Str(updateType), Str(id), Obj([Word(4)], [Str(text)])])])])
  }

  lemma {:induction false} OnlyMember(key: Text, v: Json, rest: seq<Text>)
    ensures GetAt(Obj([key], [v]), [key] + rest) == GetAt(v, rest)
  {
    assert Get(Obj([key], [v]), key) == Some(v);
    assert ([key] + rest)[1..] == rest;
  }

  lemma {:induction false} OneOfThree(keys: seq<Text>, vals: seq<Json>, i: nat, rest: seq<Text>)
    requires |keys| == 3 && |vals| == 3 && i < 3 && keys[0] != keys[1] && keys[0] != keys[2] && keys[1] != keys[2]
    ensures GetAt(Obj(keys, vals), [keys[i]] + rest) == GetAt(vals[i], rest)
  {
    assert IndexOf(keys[1..][1..], keys[2]) == 0;
    assert IndexOf(keys, keys[i]) == i;
    assert ([keys[i]] + rest)[1..] == rest;
  }

  /** Such an update is a chunk exactly when its type is one of three, and its key then is
      made of its type, its message id and where the event comes from. */
  lemma {:induction false} UpdateIsChunkExactlyWhen(e: Event, updateType: Text, id: Text, text: Text)
    requires e.payload == WireUpdate(updateType, id, text)
    ensures ChunkOf(e) ==
            if updateType == Ascii("agent_message_chunk") || updateType == Ascii("user_message_chunk")
               || updateType == Ascii("agent_thought_chunk")
            then Some(Chunk(ChunkKey(updateType, Some(id), e.channelId, e.sessionId, e.turnId, e.agentIndex), text))
            else None
  {
    hide GetAt, Ascii;
    var keys, vals := [Word(2), Word(5), Word(3)], [Str(updateType), Str(id), Obj([Word(4)], [Str(text)])];
    var inner := Obj(keys, vals);
    assert |Word(2)| == 13 && |Word(5)| == 9 && |Word(3)| == 7;
    UpdatePath(inner, [Word(2)]);
    UpdatePath(inner, [Word(5)]);
    UpdatePath(inner, [Word(3), Word(4)]);
    OneOfThree(keys, vals, 0, []);
    OneOfThree(keys, vals, 1, []);
    OneOfThree(keys, vals, 2, [Word(4)]);
    OnlyMember(Word(4), Str(text), []);
    ItselfAt(vals[0]);
    ItselfAt(vals[1]);
    ItselfAt(Str(text));
    assert TYPE_PATH == [Word(0), Word(1)] + [Word(2)];
    assert ID_PATH == [Word(0), Word(1)] + [Word(5)];
    assert TEXT_PATH == [Word(0), Word(1)] + [Word(3), Word(4)];
    assert [Word(2)] + [] == [Word(2)] && [Word(5)] + [] == [Word(5)] && [Word(4)] + [] == [Word(4)];
    assert [Word(3)] + [Word(4)] == [Word(3), Word(4)];
  }

  lemma {:induction false} ItselfAt(j: Json)
    ensures GetAt(j, []) == Some(j)
  {
  }

  lemma {:induction false} UpdatePath(update: Json, path: seq<Text>)
    ensures GetAt(Obj([Word(0)], [Obj([Word(1)], [update])]), [Word(0), Word(1)] + path) == GetAt(update, path)
  {
    hide GetAt, Word;
    OnlyMember(Word(0), Obj([Word(1)], [update]), [Word(1)] + path);
    OnlyMember(Word(1), update, path);
    assert [Word(0), Word(1)] + path == [Word(0)] + ([Word(1)] + path);
  }

  lemma {:induction false} GetAfterInsert(j: Json, key: Text, v: Json, other: Text)
    requires Get(j, key).Some?
    ensures Get(Insert(j, key, v), other) == if other == key then Some(v) else Get(j, other)
  {
  }

  lemma {:induction false} GetInserted(j: Json, path: seq<Text>, v: Json)
    requires path != [] && GetAt(j, path).Some?
    ensures GetAt(InsertAt(j, path, v), path) == Some(v)
  {
    if |path| == 1 {
      GetAfterInsert(j, path[0], v, path[0]);
    } else {
      var inner := Get(j, path[0]).value;
      GetInserted(inner, path[1..], v);
      GetAfterInsert(j, path[0], InsertAt(inner, path[1..], v), path[0]);
    }
  }

  lemma {:induction false} GetElsewhere(j: Json, path: seq<Text>, v: Json, other: seq<Text>, k: nat)
    requires path != [] && GetAt(j, path).Some?
    requires k < |path| && k < |other| && path[..k] == other[..k] && path[k] != other[k]
    ensures GetAt(InsertAt(j, path, v), other) == GetAt(j, other)
  {
    if |path| == 1 {
      GetAfterInsert(j, path[0], v, other[0]);
    } else {
      var inner := Get(j, path[0]).value;
      GetAfterInsert(j, path[0], InsertAt(inner, path[1..], v), other[0]);
      if k > 0 {
        assert path[0] == path[..k][0] == other[..k][0] == other[0];
        assert path[1..][..k - 1] == path[..k][1..];
        assert other[1..][..k - 1] == other[..k][1..];
        GetElsewhere(inner, path[1..], v, other[1..], k - 1);
      }
    }
  }

  /** Setting the text of a chunk event and reading the chunk back gives that text under
      the same key. */
  lemma {:induction false} SetThenRead(e: Event, text: Text)
    requires ChunkOf(e).Some?
    ensures ChunkOf(e.(payload := SetChunkText(e.payload, text)))
         == Some(ChunkOf(e).value.(text := text))
  {
    assert |Word(2)| == 13 && |Word(3)| == 7 && |Word(5)| == 9;
    assert TEXT_PATH[..2] == TYPE_PATH[..2] == ID_PATH[..2] == [Word(0), Word(1)];
    GetInserted(e.payload, TEXT_PATH, Str(text));
    GetElsewhere(e.payload, TEXT_PATH, Str(text), TYPE_PATH, 2);
    GetElsewhere(e.payload, TEXT_PATH, Str(text), ID_PATH, 2);
  }
}
