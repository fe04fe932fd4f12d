/** The Redis serialization protocol as the benchmark client speaks it: a writer of
    command arrays and a recursive reader (perf/relay_bus_scaling.py). */
module Resp {
  import opened Text

  const CR: byte := 13
  const LF: byte := 10
  const PLUS: byte := 43
  const MINUS: byte := 45
  const COLON: byte := 58
  const DOLLAR: byte := 36
  const STAR: byte := 42

  /** Simple and bulk strings both become a Python `str`. */
  datatype Reply = Str(text: Text) | Int(n: int) | Nil | List(items: seq<Reply>)

  datatype Error =
    | Eof
    | MalformedLine
    | ServerError(message: Text)
    | BadInteger
    | BadUtf8
    | MalformedBulk
    | UnknownPrefix(b: byte)

  /** A value and the bytes left unread, or the exception raised. */
  datatype Parsed<+T> = Done(value: T, rest: Text) | Fail(error: Error) {
    predicate IsFailure() { Fail? }

    function PropagateFailure<U>(): Parsed<U>
      requires Fail?
    {
      Fail(error)
    }

    function Extract(): (T, Text)
      requires Done?
    {
      (value, rest)
    }
  }

  // ------------------------------------------------------------------ grammar

  /** How many bytes `readline` returns: up to and including the first line feed. */
  function LineLength(s: Text): (k: nat)
    ensures k <= |s| && (s != [] ==> k > 0)
  {
    if s == [] then 0 else if s[0] == LF then 1 else 1 + LineLength(s[1..])
  }

  function TakeLine(s: Text): (r: Parsed<Text>)
    ensures r.Done? ==> |r.rest| < |s|
  {
    var k := LineLength(s);
    if k == 0 then Fail(Eof)
    else if k < 2 || s[k - 2] != CR || s[k - 1] != LF then Fail(MalformedLine)
    else Done(s[..k - 2], s[k..])
  }

  predicate Digits(t: Text) {
    forall i | 0 <= i < |t| :: 48 <= t[i] <= 57
  }

  function Number(t: Text): nat
    requires Digits(t)
  {
    if t == [] then 0 else 10 * Number(t[..|t| - 1]) + (t[|t| - 1] - 48) as nat
  }

  function ToInt(t: Text): Option<int> {
    if t != [] && Digits(t) then Some(Number(t))
    else if |t| > 1 && t[0] == MINUS && Digits(t[1..]) then Some(-(Number(t[1..]) as int))
    else None
  }

  function TakeInt(s: Text): (r: Parsed<int>)
    ensures r.Done? ==> |r.rest| < |s|
  {
    var (line, rest) :- TakeLine(s);
    if ToInt(line).Some? then Done(ToInt(line).value, rest) else Fail(BadInteger)
  }

  function TakeString(s: Text): (r: Parsed<Text>)
    ensures r.Done? ==> |r.rest| < |s|
  {
    var (line, rest) :- TakeLine(s);
    if Utf8(line) then Done(line, rest) else Fail(BadUtf8)
  }

  function TakeBulk(s: Text, n: int): (r: Parsed<Text>)
    ensures r.Done? ==> |r.rest| < |s|
  {
    if n < 0 || |s| < n + 2 || s[n] != CR || s[n + 1] != LF then Fail(MalformedBulk)
    else if Utf8(s[..n]) then Done(s[..n], s[n + 2..])
    else Fail(BadUtf8)
  }

  function Parse(s: Text): (r: Parsed<Reply>)
    ensures r.Done? ==> |r.rest| < |s|
    decreases |s|, 0
  {
    if s == [] then Fail(Eof)
    else if s[0] == PLUS then
      var (text, rest) :- TakeString(s[1..]);
      Done(Str(text), rest)
    else if s[0] == MINUS then
      var (text, _) :- TakeString(s[1..]);
      Fail(ServerError(text))
    else if s[0] == COLON then
      var (n, rest) :- TakeInt(s[1..]);
      Done(Int(n), rest)
    else if s[0] == DOLLAR then
      var (n, rest) :- TakeInt(s[1..]);
      if n == -1 then Done(Nil, rest)
      else
        var (text, after) :- TakeBulk(rest, n);
        Done(Str(text), after)
    else if s[0] == STAR then
      var (n, rest) :- TakeInt(s[1..]);
      if n == -1 then Done(Nil, rest)
      else
        var (items, after) :- ParseMany(rest, if n < 0 then 0 else n);
        Done(List(items), after)
    else Fail(UnknownPrefix(s[0]))
  }

  function ParseMany(s: Text, n: nat): (r: Parsed<seq<Reply>>)
    ensures r.Done? ==> |r.rest| <= |s| && |r.value| == n
    decreases |s|, n + 1
  {
    if n == 0 then Done([], s)
    else
      var (first, rest) :- Parse(s);
      var (others, after) :- ParseMany(rest, n - 1);
      Done([first] + others, after)
  }

  // ------------------------------------------------------------------- reader

  datatype Result<+T> = Ok(value: T) | Err(error: Error) {
    predicate IsFailure() { Err? }

    function PropagateFailure<U>(): Result<U>
      requires Err?
    {
      Err(error)
    }

    function Extract(): T
      requires Ok?
    {
      value
    }
  }

  lemma {:induction false} TakeBulkSplit(s: Text, n: nat, bytes: Text, terminator: Text, rest: Text)
    requires s == bytes + (terminator + rest)
    requires |bytes| == if n <= |s| then n else |s|
    requires |terminator| == if |bytes| + 2 <= |s| then 2 else |s| - |bytes|
    ensures TakeBulk(s, n) ==
            if |bytes| != n || terminator != [CR, LF] then Fail(MalformedBulk)
            else if Utf8(bytes) then Done(bytes, rest) else Fail(BadUtf8)
  {
    if n + 2 <= |s| {
      assert s[..n] == bytes && s[n + 2..] == rest;
      assert s[n] == terminator[0] && s[n + 1] == terminator[1];
    }
  }

  ghost predicate Agrees<T>(r: Result<T>, rest: Text, p: Parsed<T>) {
    match p
    case Done(value, after) => r == Ok(value) && rest == after
    case Fail(error) => r == Err(error)
  }

  class Stream {
    const data: Text
    var pos: nat

    ghost predicate Valid()
      reads this
    {
      pos <= |data|
    }

    function Rest(): Text
      requires Valid()
      reads this
    {
      data[pos..]
    }

    constructor (bytes: Text)
      ensures Valid() && Rest() == bytes
    {
      data, pos := bytes, 0;
    }

    /** `read(n)`: fewer bytes only at the end of the stream. */
    method Read(n: nat) returns (bytes: Text)
      requires Valid()
      modifies this
      ensures Valid() && old(Rest()) == bytes + Rest()
      ensures |bytes| == if n <= |old(Rest())| then n else |old(Rest())|
    {
      var end := if pos + n <= |data| then pos + n else |data|;
      bytes := data[pos..end];
      pos := end;
    }

    method ReadLineBytes() returns (line: Text)
      requires Valid()
      modifies this
      ensures Valid() && old(Rest()) == line + Rest()
      ensures |line| == LineLength(old(Rest()))
    {
      var end := pos;
      while end < |data| && data[end] != LF
        invariant pos <= end <= |data|
        invariant LineLength(Rest()) == end - pos + LineLength(data[end..])
      {
        assert data[end..][1..] == data[end + 1..];
        end := end + 1;
      }
      if end < |data| {
        end := end + 1;
      }
      line := data[pos..end];
      pos := end;
    }

    /** `_read_line`. */
    method ReadLine() returns (r: Result<Text>)
      requires Valid()
      modifies this
      ensures Valid() && Agrees(r, Rest(), TakeLine(old(Rest())))
    {
      ghost var s := Rest();
      var line := ReadLineBytes();
      assert s[..|line|] == line && s[|line|..] == Rest();
      if line == [] {
        return Err(Eof);
      }
      var k := |line|;
      if k < 2 || line[k - 2] != CR || line[k - 1] != LF {
        return Err(MalformedLine);
      }
      assert s[..k - 2] == line[..k - 2];
      r := Ok(line[..k - 2]);
    }

    method ReadInt() returns (r: Result<int>)
      requires Valid()
      modifies this
      ensures Valid() && Agrees(r, Rest(), TakeInt(old(Rest())))
    {
      var line :- ReadLine();
      var n := ToInt(line);
      r := if n.Some? then Ok(n.value) else Err(BadInteger);
    }

    method ReadString() returns (r: Result<Text>)
      requires Valid()
      modifies this
      ensures Valid() && Agrees(r, Rest(), TakeString(old(Rest())))
    {
      var line :- ReadLine();
      r := if Utf8(line) then Ok(line) else Err(BadUtf8);
    }

    method ReadBulk(n: int) returns (r: Result<Text>)
      requires Valid()
      modifies this
      ensures Valid() && Agrees(r, Rest(), TakeBulk(old(Rest()), n))
    {
      if n < 0 {
        return Err(MalformedBulk);
      }
      ghost var s := Rest();
      var bytes := Read(n);
      var terminator := Read(2);
      TakeBulkSplit(s, n, bytes, terminator, Rest());
      if |bytes| != n || terminator != [CR, LF] {
        return Err(MalformedBulk);
      }
      r := if Utf8(bytes) then Ok(bytes) else Err(BadUtf8);
    }

    /** `read_resp`. */
    method ReadResp() returns (r: Result<Reply>)
      requires Valid()
      modifies this
      ensures Valid() && Agrees(r, Rest(), Parse(old(Rest())))
      decreases |data| - pos, 0
    {
      var prefix := Read(1);
      if prefix == [] {
        return Err(Eof);
      }
      assert Rest() == old(Rest())[1..];
      if prefix[0] == PLUS {
        var text :- ReadString();
        return Ok(Str(text));
      }
      if prefix[0] == MINUS {
        var text :- ReadString();
        return Err(ServerError(text));
      }
      if prefix[0] == COLON {
        var n :- ReadInt();
        return Ok(Int(n));
      }
      if prefix[0] == DOLLAR {
        var n :- ReadInt();
        if n == -1 {
          return Ok(Nil);
        }
        var text :- ReadBulk(n);
        return Ok(Str(text));
      }
      if prefix[0] == STAR {
        var n :- ReadInt();
        if n == -1 {
          return Ok(Nil);
        }
        var items :- ReadMany(if n < 0 then 0 else n);
        return Ok(List(items));
      }
      r := Err(UnknownPrefix(prefix[0]));
    }

    /** The list comprehension of `read_resp`, one reply after another. */
    method ReadMany(n: nat) returns (r: Result<seq<Reply>>)
      requires Valid()
      modifies this
      ensures Valid() && Agrees(r, Rest(), ParseMany(old(Rest()), n))
      decreases |data| - pos, n + 1
    {
      if n == 0 {
        return Ok([]);
      }
      var first :- ReadResp();
      var others :- ReadMany(n - 1);
      r := Ok([first] + others);
    }
  }
  // ------------------------------------------------------------------- writer

  function Header(mark: byte, n: nat): Text {
    [mark] + Decimal(n) + [CR, LF]
  }

  function Bulk(part: Text): Text {
    Header(DOLLAR, |part|) + part + [CR, LF]
  }

  function Bulks(parts: seq<Text>): Text {
    if parts == [] then [] else Bulk(parts[0]) + Bulks(parts[1..])
  }

  function Encode(parts: seq<Text>): Text {
    Header(STAR, |parts|) + Bulks(parts)
  }

  function Joined(frame: seq<Text>): Text {
    if frame == [] then [] else Joined(frame[..|frame| - 1]) + frame[|frame| - 1]
  }

  lemma {:induction false} JoinedPush(frame: seq<Text>, piece: Text)
    ensures Joined(frame + [piece]) == Joined(frame) + piece
  {
    assert (frame + [piece])[..|frame|] == frame;
  }

  lemma {:induction false} JoinedPart(frame: seq<Text>, header: Text, part: Text, end: Text, after: Text)
    ensures Joined(frame + [header] + [part] + [end]) + after == Joined(frame) + (header + part + end + after)
  {
    JoinedPush(frame, header);
    JoinedPush(frame + [header], part);
    JoinedPush(frame + [header] + [part], end);
    Regroup(Joined(frame), header, part, end, after);
  }

  lemma {:induction false} Regroup(a: Text, b: Text, c: Text, d: Text, e: Text)
    ensures a + b + c + d + e == a + (b + c + d + e)
  {
  }

  /** `encode_command`: collects the pieces of the frame in a list and joins them. */
  method EncodeCommand(parts: seq<Text>) returns (bytes: Text)
    ensures bytes == Encode(parts)
  {
    var frame := [Header(STAR, |parts|)];
    JoinedPush([], frame[0]);
    assert [] + frame == frame;
    for i := 0 to |parts|
      invariant Encode(parts) == Joined(frame) + Bulks(parts[i..])
    {
      var part := parts[i];
      var header := Header(DOLLAR, |part|);
      assert parts[i..][1..] == parts[i + 1..];
      JoinedPart(frame, header, part, [CR, LF], Bulks(parts[i + 1..]));
      frame := frame + [header] + [part] + [[CR, LF]];
    }
    assert Joined(frame) + [] == Joined(frame);
    bytes := Joined(frame);
  }

  // --------------------------------------------------------------- round trip

  lemma {:induction false} LineOf(line: Text, rest: Text)
    requires LF !in line
    ensures TakeLine(line + [CR, LF] + rest) == Done(line, rest)
  {
    var s := line + [CR, LF] + rest;
    LineLengthOf(line, rest);
    assert s[|line| + 2..] == rest;
    assert s[..|line|] == line;
  }

  lemma {:induction false} LineLengthOf(line: Text, rest: Text)
    requires LF !in line
    ensures LineLength(line + [CR, LF] + rest) == |line| + 2
  {
    var s := line + [CR, LF] + rest;
    if line == [] {
      assert s[1..][0] == LF;
    } else {
      assert s[1..] == line[1..] + [CR, LF] + rest;
      LineLengthOf(line[1..], rest);
    }
  }

  lemma {:induction false} NumberOfDecimal(n: nat)
    ensures Digits(Decimal(n)) && Number(Decimal(n)) == n
  {
    if n >= 10 {
      NumberOfDecimal(n / 10);
      var t := Decimal(n);
      assert t[..|t| - 1] == Decimal(n / 10);
    }
  }

  lemma {:induction false} TakeHeader(mark: byte, n: nat, rest: Text)
    ensures var s := Header(mark, n) + rest;
            s[0] == mark && TakeInt(s[1..]) == Done(n, rest)
  {
    NumberOfDecimal(n);
    LineOf(Decimal(n), rest);
    assert (Header(mark, n) + rest)[1..] == Decimal(n) + [CR, LF] + rest;
  }

  lemma {:induction false} TakeBulkOf(part: Text, rest: Text)
    requires Utf8(part)
    ensures TakeBulk(part + [CR, LF] + rest, |part|) == Done(part, rest)
  {
    var body := part + [CR, LF] + rest;
    assert body[..|part|] == part && body[|part| + 2..] == rest;
  }

  lemma {:induction false} ParseBulk(part: Text, rest: Text)
    requires Utf8(part)
    ensures Parse(Bulk(part) + rest) == Done(Str(part), rest)
  {
    var body := part + [CR, LF] + rest;
    assert Bulk(part) + rest == Header(DOLLAR, |part|) + body;
    TakeHeader(DOLLAR, |part|, body);
    TakeBulkOf(part, rest);
  }

  function Strs(parts: seq<Text>): seq<Reply> {
    if parts == [] then [] else [Str(parts[0])] + Strs(parts[1..])
  }

  lemma {:induction false} StrsInjective(p: seq<Text>, q: seq<Text>)
    requires Strs(p) == Strs(q)
    ensures p == q
  {
    if p != [] && q != [] {
      assert Strs(p)[0] == Strs(q)[0];
      assert Strs(p)[1..] == Strs(p[1..]) && Strs(q)[1..] == Strs(q[1..]);
      StrsInjective(p[1..], q[1..]);
      assert p == [p[0]] + p[1..] && q == [q[0]] + q[1..];
    }
  }

  lemma {:induction false} ParseBulks(parts: seq<Text>, rest: Text)
    requires forall i | 0 <= i < |parts| :: Utf8(parts[i])
    ensures ParseMany(Bulks(parts) + rest, |parts|) == Done(Strs(parts), rest)
  {
    if parts == [] {
      assert [] + rest == rest;
    } else {
      Associative(Bulk(parts[0]), Bulks(parts[1..]), rest);
      ParseBulk(parts[0], Bulks(parts[1..]) + rest);
      ParseBulks(parts[1..], rest);
    }
  }

  /** Reading an encoded command gives back its parts and leaves what follows
      unread, whatever bytes the parts hold, line ends included. */
  lemma {:induction false} RoundTrip(parts: seq<Text>, rest: Text)
    requires forall i | 0 <= i < |parts| :: Utf8(parts[i])
    ensures Parse(Encode(parts) + rest) == Done(List(Strs(parts)), rest)
  {
    hide Utf8, Decimal, Bulks, Strs, ParseMany, TakeInt;
    Associative(Header(STAR, |parts|), Bulks(parts), rest);
    TakeHeader(STAR, |parts|, Bulks(parts) + rest);
    ParseBulks(parts, rest);
  }

  /** No encoding is a prefix of another; in particular encoding is injective. */
  lemma {:induction false} PrefixFree(p: seq<Text>, q: seq<Text>)
    requires forall i | 0 <= i < |p| :: Utf8(p[i])
    requires forall i | 0 <= i < |q| :: Utf8(q[i])
    requires Encode(p) <= Encode(q)
    ensures p == q
  {
    var rest := Encode(q)[|Encode(p)|..];
    assert Encode(q) == Encode(p) + rest == Encode(q) + [];
    RoundTrip(p, rest);
    RoundTrip(q, []);
    StrsInjective(p, q);
  }

  // --------------------------------------------------- every kind of reply

  /** A reply as a server may write it. */
  datatype Form =
    | Simple(text: Text)
    | Counted(text: Text)
    | Whole(n: int)
    | NoBulk
    | NoList
    | Several(forms: seq<Form>)

  /** A simple string stands on one line; text is UTF-8. */
  predicate Writable(f: Form) {
    match f
    case Simple(text) => Utf8(text) && LF !in text
    case Counted(text) => Utf8(text)
    case Several(forms) => forall g | g in forms :: Writable(g)
    case _ => true
  }

  function Signed(n: int): Text { if n < 0 then [MINUS] + Decimal(-n) else Decimal(n) }

  function Line(mark: byte, text: Text): Text { [mark] + text + [CR, LF] }

  function Write(f: Form): Text {
    match f
    case Simple(text) => Line(PLUS, text)
    case Counted(text) => Bulk(text)
    case Whole(n) => Line(COLON, Signed(n))
    case NoBulk => Line(DOLLAR, Signed(-1))
    case NoList => Line(STAR, Signed(-1))
    case Several(forms) => Header(STAR, |forms|) + WriteAll(forms)
  }

  function WriteAll(forms: seq<Form>): Text {
    if forms == [] then [] else Write(forms[0]) + WriteAll(forms[1..])
  }

  function ValueOf(f: Form): Reply {
    match f
    case Simple(text) => Str(text)
    case Counted(text) => Str(text)
    case Whole(n) => Int(n)
    case NoBulk => Nil
    case NoList => Nil
    case Several(forms) => List(ValuesOf(forms))
  }

  function ValuesOf(forms: seq<Form>): seq<Reply> {
    if forms == [] then [] else [ValueOf(forms[0])] + ValuesOf(forms[1..])
  }

  lemma {:induction false} ToIntOfSigned(n: int)
    ensures LF !in Signed(n) && ToInt(Signed(n)) == Some(n)
  {
    hide Decimal, Number, ToInt, Digits;
    var d := Decimal(if n < 0 then -n else n);
    NumberOfDecimal(if n < 0 then -n else n);
    if n < 0 { NegativeText(d); } else { PlainNumber(d); }
  }

  lemma {:induction false} PlainNumber(d: Text)
    requires d != [] && Digits(d)
    ensures LF !in d && ToInt(d) == Some(Number(d))
  {
    hide Number;
  }

  lemma {:induction false} NegativeText(d: Text)
    requires d != [] && Digits(d)
    ensures LF !in [MINUS] + d && ToInt([MINUS] + d) == Some(-(Number(d) as int))
  {
    hide Number;
    var t := [MINUS] + d;
    assert t[0] == MINUS && t[1..] == d;
  }

  lemma {:induction false} LineRest(mark: byte, text: Text, rest: Text)
    ensures (Line(mark, text) + rest)[0] == mark && (Line(mark, text) + rest)[1..] == text + [CR, LF] + rest
  {
  }

  lemma {:induction false} ParseLine(f: Form, rest: Text)
    requires Writable(f) && !f.Several? && !f.Counted?
    ensures Parse(Write(f) + rest) == Done(ValueOf(f), rest)
  {
    hide Utf8, Signed, ToInt, LineLength, Decimal, ParseMany, TakeBulk;
    match f
    case Simple(text) =>
      LineRest(PLUS, text, rest);
      LineOf(text, rest);
    case Whole(n) => ParseSigned(COLON, n, rest);
    case NoBulk => ParseSigned(DOLLAR, -1, rest);
    case NoList => ParseSigned(STAR, -1, rest);
  }

  lemma {:induction false} ParseSigned(mark: byte, n: int, rest: Text)
    ensures var s := Line(mark, Signed(n)) + rest;
            s[0] == mark && TakeInt(s[1..]) == Done(n, rest)
  {
    ToIntOfSigned(n);
    LineRest(mark, Signed(n), rest);
    LineOf(Signed(n), rest);
  }

  /** Every reply a server may write is read as its value, to any depth of nesting, and what
      follows is left unread. */
  lemma {:induction false} ReadsEveryReply(f: Form, rest: Text)
    requires Writable(f)
    ensures Parse(Write(f) + rest) == Done(ValueOf(f), rest)
    decreases f, 1
  {
    hide Utf8, Parse, WriteAll, ValuesOf;
    match f
    case Several(forms) =>
      ReadsEvery(forms, rest);
      ParseList(WriteAll(forms), |forms|, ValuesOf(forms), rest);
    case Counted(text) => ParseBulk(text, rest);
    case _ => ParseLine(f, rest);
  }

  lemma {:induction false} ParseList(body: Text, n: nat, items: seq<Reply>, rest: Text)
    requires ParseMany(body + rest, n) == Done(items, rest)
    ensures Parse(Header(STAR, n) + body + rest) == Done(List(items), rest)
  {
    hide ParseMany, TakeInt, Decimal;
    Associative(Header(STAR, n), body, rest);
    TakeHeader(STAR, n, body + rest);
  }

  lemma {:induction false} ReadsEvery(forms: seq<Form>, rest: Text)
    requires forall g | g in forms :: Writable(g)
    ensures ParseMany(WriteAll(forms) + rest, |forms|) == Done(ValuesOf(forms), rest)
    decreases forms, 0
  {
    if forms == [] {
      assert [] + rest == rest;
    } else {
      Associative(Write(forms[0]), WriteAll(forms[1..]), rest);
      ReadsEveryReply(forms[0], WriteAll(forms[1..]) + rest);
      ReadsEvery(forms[1..], rest);
    }
  }

  /** An error reply raises its message. */
  lemma {:induction false} ErrorIsRaised(text: Text, rest: Text)
    requires Utf8(text) && LF !in text
    ensures Parse(Line(MINUS, text) + rest) == Fail(ServerError(text))
  {
    hide Utf8, LineLength;
    LineRest(MINUS, text, rest);
    LineOf(text, rest);
  }

  // ------------------------------------------------------- pipelined commands

  function Pipelined(commands: seq<seq<Text>>): Text {
    if commands == [] then [] else Encode(commands[0]) + Pipelined(commands[1..])
  }

  function Lists(commands: seq<seq<Text>>): seq<Reply> {
    if commands == [] then [] else [List(Strs(commands[0]))] + Lists(commands[1..])
  }

  /** Commands written back to back are read back one by one. */
  lemma {:induction false} PipelineRoundTrip(commands: seq<seq<Text>>, rest: Text)
    requires forall c | c in commands :: forall i | 0 <= i < |c| :: Utf8(c[i])
    ensures ParseMany(Pipelined(commands) + rest, |commands|) == Done(Lists(commands), rest)
  {
    if commands == [] {
      assert [] + rest == rest;
    } else {
      Associative(Encode(commands[0]), Pipelined(commands[1..]), rest);
      RoundTrip(commands[0], Pipelined(commands[1..]) + rest);
      PipelineRoundTrip(commands[1..], rest);
    }
  }

  // ------------------------------------------------- the reader looks no further

  lemma {:induction false} LineLengthExtends(s: Text, more: Text)
    requires s != [] && s[LineLength(s) - 1] == LF
    ensures LineLength(s + more) == LineLength(s)
  {
    if s[0] != LF {
      assert (s + more)[1..] == s[1..] + more;
      LineLengthExtends(s[1..], more);
    }
  }

  lemma {:induction false} TakeLineExtends(s: Text, more: Text)
    requires TakeLine(s).Done?
    ensures TakeLine(s + more) == Done(TakeLine(s).value, TakeLine(s).rest + more)
  {
    LineLengthExtends(s, more);
    var k := LineLength(s);
    assert (s + more)[..k - 2] == s[..k - 2] && (s + more)[k..] == s[k..] + more;
  }

  lemma {:induction false} TakeBulkExtends(s: Text, n: int, more: Text)
    requires TakeBulk(s, n).Done?
    ensures TakeBulk(s + more, n) == Done(TakeBulk(s, n).value, TakeBulk(s, n).rest + more)
  {
    assert (s + more)[..n] == s[..n] && (s + more)[n + 2..] == s[n + 2..] + more;
  }

  /** A value read successfully does not depend on the bytes after it. */
  lemma {:induction false} ParseExtends(s: Text, more: Text)
    requires Parse(s).Done?
    ensures Parse(s + more) == Done(Parse(s).value, Parse(s).rest + more)
    decreases |s|, 0
  {
    assert (s + more)[1..] == s[1..] + more;
    TakeLineExtends(s[1..], more);
    if s[0] == DOLLAR && TakeInt(s[1..]).value != -1 {
      TakeBulkExtends(TakeInt(s[1..]).rest, TakeInt(s[1..]).value, more);
    } else if s[0] == STAR && TakeInt(s[1..]).value != -1 {
      var n := TakeInt(s[1..]).value;
      ParseManyExtends(TakeInt(s[1..]).rest, if n < 0 then 0 else n, more);
    }
  }

  lemma {:induction false} ParseManyExtends(s: Text, n: nat, more: Text)
    requires ParseMany(s, n).Done?
    ensures ParseMany(s + more, n) == Done(ParseMany(s, n).value, ParseMany(s, n).rest + more)
    decreases |s|, n + 1
  {
    hide Parse;
    if n > 0 {
      ParseExtends(s, more);
      ParseManyExtends(Parse(s).rest, n - 1, more);
    }
  }

  /** A command cut short anywhere is never taken for a complete one: reading it fails. */
  lemma {:induction false} TruncatedNeverReads(parts: seq<Text>, k: nat)
    requires forall i | 0 <= i < |parts| :: Utf8(parts[i])
    requires k < |Encode(parts)|
    ensures Parse(Encode(parts)[..k]).Fail?
  {
    hide Parse, Encode, Strs, Utf8;
    var s := Encode(parts);
    if Parse(s[..k]).Done? {
      assert s[..k] + s[k..] == s == s + [];
      ParseExtends(s[..k], s[k..]);
      RoundTrip(parts, []);
    }
  }
}
