/** The read loop of one prompt turn (`read_until_response_with_idle_timeout`): responses,
    steer requests and two deadlines, as a machine that takes one select outcome at a time. */
module TurnLoop {
  import opened Clock
  import opened Text

  /** A JSON-RPC id: a number, or anything that is not one. */
  datatype Id = Number(n: nat) | NotNumber

  datatype RunChange = Keep | SetRun | ClearRun

  /** The method of a message and what handling it comes to. */
  datatype Method =
    | SessionUpdate(toolCall: bool, run: RunChange)
    | UsageUpdate
    | PermissionRequest(handled: bool)
    | Unknown(replyWritten: bool)
    | NotText

  datatype Message = Message(id: Option<Id>, method_: Option<Method>, error: bool)

  datatype ReadResult = EndOfFile | LineTooLong | IoError | Blank | BadJson | Msg(message: Message)

  /** What the biased select yields. `at` is the clock when the line is taken up and
      `again` the clock when its handling reads it once more. */
  datatype Select =
    | Read(result: ReadResult, at: Time, again: Time)
    | Steer(written: bool)
    | Sleep(woke: Time)

  /** One pass of the loop: the clock at its top, then what the select yields. */
  datatype Pass = Pass(top: Time, select: Select)

  datatype Verdict = Success | AgentRejected | RunIdMissing | TransportFailed | Neutral

  /** The answer to steer request number `request`. */
  datatype Ack = Ack(request: nat, verdict: Verdict)

  datatype Outstanding = Outstanding(id: nat, request: nat)

  datatype Turn = Turn(promptId: nat, idleTimeout: nat, maxDuration: nat)

  /** Loop state, with the record of what it has done: the id written for each steer request
      it took up, the answers given, and how often the hard deadline was renewed. */
  datatype Loop = Loop(
    idle: Time,
    hard: Time,
    lastActivity: Time,
    pending: Option<Outstanding>,
    nextId: nat,
    runActive: bool,
    receiver: bool,
    stored: Option<Time>,
    ids: seq<Option<nat>>,
    acks: seq<Ack>,
    renewals: nat)

  datatype Result =
    | Response
    | AgentError
    | IdleTimeout
    | HardTimeout(silence: Time)
    | AgentExited
    | TooLong
    | Io
    | HandlerFailed

  datatype Progress = Going(s: Loop) | Done(s: Loop, result: Result)

  function Deadline(s: Loop): Time { if s.idle < s.hard then s.idle else s.hard }

  /** Before a return the outstanding steer is answered Neutral. */
  function Drained(s: Loop): Loop {
    if s.pending.None? then s
    else s.(pending := None, acks := s.acks + [Ack(s.pending.value.request, Neutral)])
  }

  function TimedOut(s: Loop, now: Time): Progress {
    Done(Drained(s),
         if s.idle < s.hard then IdleTimeout
         else HardTimeout(if now > s.lastActivity then now - s.lastActivity else 0))
  }

  /** The steer arm: disabled while a steer is outstanding or no receiver is installed. */
  function TakeSteer(s: Loop, written: bool): Loop {
    if s.pending.Some? || !s.receiver then s
    else
      var r := |s.ids|;
      if !s.runActive then s.(ids := s.ids + [None], acks := s.acks + [Ack(r, RunIdMissing)])
      else
        var t := s.(nextId := s.nextId + 1, ids := s.ids + [Some(s.nextId)]);
        if written then t.(pending := Some(Outstanding(s.nextId, r)))
        else t.(acks := s.acks + [Ack(r, TransportFailed)])
  }

  /** The reply to the outstanding steer; a success renews the hard deadline. */
  function SteerReply(c: Turn, s: Loop, error: bool, now: Time): Loop
    requires s.pending.Some?
  {
    var t := s.(pending := None,
                acks := s.acks + [Ack(s.pending.value.request, if error then AgentRejected else Success)]);
    if !error && now + c.maxDuration > s.hard
    then t.(hard := now + c.maxDuration, stored := Some(now + c.maxDuration), renewals := s.renewals + 1)
    else t
  }

  /** Notifications and requests of the agent. */
  function Dispatch(c: Turn, s: Loop, m: Message, again: Time): Progress {
    match m.method_
    case None => Going(s)
    case Some(SessionUpdate(toolCall, run)) =>
      var t := s.(runActive := match run case Keep => s.runActive case SetRun => true case ClearRun => false);
      Going(if toolCall then t.(idle := again + c.idleTimeout, lastActivity := again) else t)
    case Some(UsageUpdate) => Going(s)
    case Some(PermissionRequest(handled)) => if handled then Going(s) else Done(s, HandlerFailed)
    case Some(Unknown(replyWritten)) => if m.id.Some? && !replyWritten then Done(s, HandlerFailed) else Going(s)
    case Some(NotText) => Going(s)
  }

  function TakeMessage(c: Turn, s0: Loop, m: Message, at: Time, again: Time): Progress {
    var s := s0.(idle := at + c.idleTimeout, lastActivity := at);
    if m.id.Some? && m.method_.None? && s.pending.Some? && m.id.value == Number(s.pending.value.id)
    then Going(SteerReply(c, s, m.error, again))
    else if m.id.Some? && m.method_.None? && m.id.value == Number(c.promptId)
    then Done(Drained(s), if m.error then AgentError else Response)
    else Dispatch(c, s, m, again)
  }

  function TakeLine(c: Turn, s: Loop, result: ReadResult, at: Time, again: Time): Progress {
    match result
    case EndOfFile => Done(Drained(s), AgentExited)
    case LineTooLong => Done(Drained(s), TooLong)
    case IoError => Done(Drained(s), Io)
    case Blank => Going(s)
    case BadJson => Going(s)
    case Msg(m) => TakeMessage(c, s, m, at, again)
  }

  function Advance(c: Turn, s: Loop, p: Pass): Progress {
    if p.top >= Deadline(s) then TimedOut(s, p.top)
    else match p.select
      case Sleep(woke) => TimedOut(s, woke)
      case Steer(written) => Going(TakeSteer(s, written))
      case Read(result, at, again) => TakeLine(c, s, result, at, again)
  }

  /** The loop over the passes of a script, until it returns. */
  function Play(c: Turn, s: Loop, script: seq<Pass>): Progress {
    if script == [] then Going(s)
    else match Play(c, s, script[..|script| - 1])
      case Done(t, r) => Done(t, r)
      case Going(t) => Advance(c, t, script[|script| - 1])
  }

  /** State on entry, once the receiver has been taken out of the client. */
  function Entry(now: Time, c: Turn, hard: Time, nextId: nat, runActive: bool, receiver: bool, stored: Option<Time>): Loop {
    Loop(now + c.idleTimeout, hard, now, None, nextId, runActive, receiver, stored, [], [], 0)
  }

  // ------------------------------------------------------- steer routing

  ghost predicate IsReply(p: Pass, id: nat) {
    p.select.Read? && p.select.result.Msg? && p.select.result.message.id == Some(Number(id))
    && p.select.result.message.method_.None?
  }

  /** Requests are answered in order and once; at most one is open, its id is fresh, and a
      Success has an error-free reply with its id behind it. */
  ghost predicate Routed(c: Turn, s: Loop, script: seq<Pass>) {
    && |s.ids| == |s.acks| + (if s.pending.Some? then 1 else 0)
    && (forall i | 0 <= i < |s.acks| :: s.acks[i].request == i)
    && (s.pending.Some? ==> s.pending.value.request == |s.acks|
                            && s.ids[|s.acks|] == Some(s.pending.value.id))
    && (forall i | 0 <= i < |s.ids| && s.ids[i].Some? :: c.promptId < s.ids[i].value < s.nextId)
    && (forall i, j | 0 <= i < j < |s.ids| && s.ids[i].Some? && s.ids[j].Some? :: s.ids[i].value < s.ids[j].value)
    && (forall i | 0 <= i < |s.acks| && s.acks[i].verdict == Success ::
          s.ids[i].Some?
          && exists k | 0 <= k < |script| ::
               IsReply(script[k], s.ids[i].value) && !script[k].select.result.message.error)
    && c.promptId < s.nextId
  }

  lemma {:induction false} RoutedLater(c: Turn, s: Loop, script: seq<Pass>, p: Pass)
    requires Routed(c, s, script)
    ensures Routed(c, s, script + [p])
  {
    forall i | 0 <= i < |s.acks| && s.acks[i].verdict == Success
      ensures exists k | 0 <= k < |script + [p]| ::
                IsReply((script + [p])[k], s.ids[i].value) && !(script + [p])[k].select.result.message.error
    {
      var k :| 0 <= k < |script| && IsReply(script[k], s.ids[i].value) && !script[k].select.result.message.error;
      assert (script + [p])[k] == script[k];
    }
  }

  lemma {:induction false} DrainedRouted(c: Turn, s: Loop, script: seq<Pass>)
    requires Routed(c, s, script)
    ensures Routed(c, Drained(s), script) && Drained(s).pending.None?
  {
  }

  lemma {:induction false} ReplyRouted(c: Turn, s: Loop, script: seq<Pass>, k: nat, error: bool, now: Time)
    requires Routed(c, s, script) && s.pending.Some?
    requires k < |script| && IsReply(script[k], s.pending.value.id) && script[k].select.result.message.error == error
    ensures Routed(c, SteerReply(c, s, error, now), script)
  {
    var t := SteerReply(c, s, error, now);
    assert t.acks == s.acks + [Ack(s.pending.value.request, if error then AgentRejected else Success)];
    forall i | 0 <= i < |t.acks| && t.acks[i].verdict == Success
      ensures s.ids[i].Some? && exists j | 0 <= j < |script| ::
                IsReply(script[j], s.ids[i].value) && !script[j].select.result.message.error
    {
      if i < |s.acks| { assert t.acks[i] == s.acks[i]; }
    }
  }

  lemma {:induction false} Reclocked(c: Turn, s: Loop, script: seq<Pass>, t: Loop)
    requires Routed(c, s, script)
    requires t == s.(idle := t.idle, lastActivity := t.lastActivity, runActive := t.runActive)
    ensures Routed(c, t, script)
  {
  }

  /** Handling a notification or a request touches the clocks and the run state alone, and
      ends the loop only by failing. */
  lemma {:induction false} DispatchKeeps(c: Turn, s: Loop, m: Message, again: Time, r: Progress)
    requires r == Dispatch(c, s, m, again)
    ensures r.s == s.(idle := r.s.idle, lastActivity := r.s.lastActivity, runActive := r.s.runActive)
    ensures r.Done? ==> r.result == HandlerFailed
  {
  }

  /** The three ways a message is taken: as the steer's reply, as the prompt's, or dispatched. */
  lemma {:induction false} MessageCases(c: Turn, s: Loop, m: Message, at: Time, again: Time, t: Loop, r: Progress)
    requires t == s.(idle := at + c.idleTimeout, lastActivity := at) && r == TakeMessage(c, s, m, at, again)
    ensures s.pending.Some? && m.id == Some(Number(s.pending.value.id)) && m.method_.None? ==>
              r == Going(SteerReply(c, t, m.error, again))
    ensures !(s.pending.Some? && m.id == Some(Number(s.pending.value.id)) && m.method_.None?) ==>
              if m.id == Some(Number(c.promptId)) && m.method_.None?
              then r == Done(Drained(t), if m.error then AgentError else Response)
              else r == Dispatch(c, t, m, again)
  {
  }

  lemma {:induction false} MessageRouted(c: Turn, s: Loop, script: seq<Pass>, p: Pass, m: Message, r: Progress)
    requires Routed(c, s, script + [p]) && p.select.Read? && p.select.result == Msg(m)
    requires r == TakeMessage(c, s, m, p.select.at, p.select.again)
    ensures Routed(c, r.s, script + [p])
    ensures r.Done? && r.result != HandlerFailed ==> r.s.pending.None?
    ensures r.Done? && r.result.Response? ==> IsReply(p, c.promptId) && !m.error
  {
    var t := s.(idle := p.select.at + c.idleTimeout, lastActivity := p.select.at);
    Reclocked(c, s, script + [p], t);
    MessageCases(c, s, m, p.select.at, p.select.again, t, r);
    if s.pending.Some? && IsReply(p, s.pending.value.id) {
      ReplyRouted(c, t, script + [p], |script|, m.error, p.select.again);
    } else if IsReply(p, c.promptId) {
      DrainedRouted(c, t, script + [p]);
    } else {
      DispatchKeeps(c, t, m, p.select.again, r);
      Reclocked(c, t, script + [p], r.s);
    }
  }

  lemma {:induction false} SteerRouted(c: Turn, s: Loop, script: seq<Pass>, written: bool)
    requires Routed(c, s, script)
    ensures Routed(c, TakeSteer(s, written), script)
  {
  }

  lemma {:induction false} LineRouted(c: Turn, s: Loop, script: seq<Pass>, p: Pass, r: Progress)
    requires Routed(c, s, script + [p]) && p.select.Read?
    requires r == TakeLine(c, s, p.select.result, p.select.at, p.select.again)
    ensures Routed(c, r.s, script + [p])
    ensures r.Done? && r.result != HandlerFailed ==> r.s.pending.None?
    ensures r.Done? && r.result.Response? ==> IsReply(p, c.promptId) && !p.select.result.message.error
  {
    hide Routed, TakeMessage, IsReply;
    DrainedRouted(c, s, script + [p]);
    if p.select.result.Msg? {
      MessageRouted(c, s, script, p, p.select.result.message, r);
    }
  }

  lemma {:induction false} AdvanceRouted(c: Turn, s: Loop, script: seq<Pass>, p: Pass)
    requires Routed(c, s, script)
    ensures var r := Advance(c, s, p);
            Routed(c, r.s, script + [p])
            && (r.Done? && r.result != HandlerFailed ==> r.s.pending.None?)
            && (r.Done? && r.result.Response? ==> IsReply(p, c.promptId) && !p.select.result.message.error)
  {
    hide Routed, TakeLine, TakeSteer, IsReply;
    RoutedLater(c, s, script, p);
    DrainedRouted(c, s, script + [p]);
    match p.select
    case Read(_, _, _) => LineRouted(c, s, script, p, TakeLine(c, s, p.select.result, p.select.at, p.select.again));
    case Steer(written) => SteerRouted(c, s, script + [p], written);
    case Sleep(_) =>
  }

  /** Steer routing over every script: at most one steer is outstanding and its id is not the
      prompt's; requests are answered one by one, each once; a Success follows an error-free
      reply with the very id written for it; the prompt's result is never a steer's reply; and
      every return but a failed handler leaves no steer unanswered. */
  lemma {:induction false} SteersAreRouted(c: Turn, s: Loop, script: seq<Pass>)
    requires s.ids == [] && s.acks == [] && s.pending.None? && c.promptId < s.nextId
    ensures var r := Play(c, s, script);
            Routed(c, r.s, script)
            && (r.Done? && r.result != HandlerFailed ==> r.s.pending.None? && |r.s.acks| == |r.s.ids|)
            && (r.Done? && r.result.Response? ==>
                  exists k | 0 <= k < |script| :: IsReply(script[k], c.promptId) && !script[k].select.result.message.error)
  {
    if script != [] {
      var (front, p) := (script[..|script| - 1], script[|script| - 1]);
      SteersAreRouted(c, s, front);
      assert script == front + [p];
      var before := Play(c, s, front);
      if before.Going? {
        AdvanceRouted(c, before.s, front, p);
      } else {
        RoutedLater(c, before.s, front, p);
        if before.result.Response? {
          var k :| 0 <= k < |front| && IsReply(front[k], c.promptId) && !front[k].select.result.message.error;
          assert script[k] == front[k];
        }
      }
    }
  }

  // ----------------------------------------------------------- deadlines

  function Successes(acks: seq<Ack>): nat {
    if acks == [] then 0
    else Successes(acks[..|acks| - 1]) + if acks[|acks| - 1].verdict == Success then 1 else 0
  }

  lemma {:induction false} SuccessesSnoc(acks: seq<Ack>, a: Ack)
    ensures Successes(acks + [a]) == Successes(acks) + if a.verdict == Success then 1 else 0
  {
    assert (acks + [a])[..|acks|] == acks;
  }

  /** The hard deadline moves only forward, only when a steer succeeds, and then the client
      remembers it. */
  ghost predicate DeadlineStep(s: Loop, t: Loop) {
    && s.hard <= t.hard
    && (if t.hard == s.hard then Successes(s.acks) <= Successes(t.acks)
        else Successes(t.acks) == Successes(s.acks) + 1 && t.stored == Some(t.hard))
    && t.receiver == s.receiver
    && (s.stored == Some(s.hard) ==> t.stored == Some(t.hard))
  }

  lemma {:induction false} DrainedDeadline(s: Loop)
    ensures DeadlineStep(s, Drained(s))
  {
    if s.pending.Some? {
      SuccessesSnoc(s.acks, Ack(s.pending.value.request, Neutral));
    }
  }

  lemma {:induction false} SteerDeadline(s: Loop, written: bool)
    ensures DeadlineStep(s, TakeSteer(s, written))
  {
    SuccessesSnoc(s.acks, Ack(|s.ids|, RunIdMissing));
    SuccessesSnoc(s.acks, Ack(|s.ids|, TransportFailed));
  }

  lemma {:induction false} ReplyDeadline(c: Turn, s: Loop, error: bool, now: Time)
    requires s.pending.Some?
    ensures DeadlineStep(s, SteerReply(c, s, error, now))
    ensures SteerReply(c, s, error, now).hard == s.hard || SteerReply(c, s, error, now).hard == now + c.maxDuration
  {
    SuccessesSnoc(s.acks, Ack(s.pending.value.request, if error then AgentRejected else Success));
  }

  lemma {:induction false} MessageDeadline(c: Turn, s: Loop, m: Message, at: Time, again: Time, r: Progress)
    requires r == TakeMessage(c, s, m, at, again)
    ensures DeadlineStep(s, r.s) && (r.s.hard != s.hard ==> r.s.hard == again + c.maxDuration)
  {
    var t := s.(idle := at + c.idleTimeout, lastActivity := at);
    MessageCases(c, s, m, at, again, t, r);
    if s.pending.Some? && m.id == Some(Number(s.pending.value.id)) && m.method_.None? {
      ReplyDeadline(c, t, m.error, again);
    } else if m.id == Some(Number(c.promptId)) && m.method_.None? {
      DrainedDeadline(t);
    } else {
      DispatchKeeps(c, t, m, again, r);
    }
  }

  lemma {:induction false} AdvanceDeadline(c: Turn, s: Loop, p: Pass, t: Loop)
    requires t == Advance(c, s, p).s
    ensures DeadlineStep(s, t)
    ensures t.hard != s.hard ==> p.select.Read? && t.hard == p.select.again + c.maxDuration
  {
    DrainedDeadline(s);
    if p.top < Deadline(s) {
      if p.select.Steer? {
        SteerDeadline(s, p.select.written);
      } else if p.select.Read? && p.select.result.Msg? {
        MessageDeadline(c, s, p.select.result.message, p.select.at, p.select.again, Advance(c, s, p));
      }
    }
  }

  /** A line is taken up no later than the deadline pending at the top of its pass. */
  ghost predicate Punctual(s: Loop, p: Pass) {
    p.select.Read? ==> p.select.again <= Deadline(s)
  }

  ghost predicate AllPunctual(c: Turn, s: Loop, script: seq<Pass>)
  {
    script == []
    || (AllPunctual(c, s, script[..|script| - 1])
        && (Play(c, s, script[..|script| - 1]).Going? ==>
              Punctual(Play(c, s, script[..|script| - 1]).s, script[|script| - 1])))
  }

  lemma {:induction false} Scale(a: nat, n: nat, m: nat, base: int, hard: int, next: int)
    requires hard <= base + a * n
    requires (next == hard && n <= m) || (next <= hard + a && m == n + 1)
    ensures next <= base + a * m
  {
    if m == n + 1 {
      assert a * (n + 1) == a * n + a;
    } else {
      assert a * n <= a * m;
    }
  }

  /** The hard deadline of a turn: it never moves back; after k successful steers, with every
      line taken up in time, it is at most k durations past the first one; and the client
      always remembers it. */
  lemma {:induction false} HardDeadlineBound(c: Turn, s: Loop, script: seq<Pass>)
    requires s.acks == []
    ensures s.hard <= Play(c, s, script).s.hard
    ensures AllPunctual(c, s, script) ==>
              Play(c, s, script).s.hard <= s.hard + c.maxDuration * Successes(Play(c, s, script).s.acks)
    ensures s.stored == Some(s.hard) ==> Play(c, s, script).s.stored == Some(Play(c, s, script).s.hard)
  {
    if script != [] {
      var (front, p) := (script[..|script| - 1], script[|script| - 1]);
      HardDeadlineBound(c, s, front);
      var before := Play(c, s, front);
      if before.Going? {
        var t := Advance(c, before.s, p).s;
        AdvanceDeadline(c, before.s, p, t);
        if AllPunctual(c, s, script) {
          Scale(c.maxDuration, Successes(before.s.acks), Successes(t.acks), s.hard, before.s.hard, t.hard);
        }
      }
    }
  }

  /** As long as a turn goes on, no pass of it has begun at or after its hard deadline. */
  lemma {:induction false} GoingIsInTime(c: Turn, s: Loop, script: seq<Pass>, k: nat)
    requires s.acks == [] && Play(c, s, script).Going? && k < |script|
    ensures script[k].top < Play(c, s, script).s.hard
  {
    var (front, p) := (script[..|script| - 1], script[|script| - 1]);
    AdvanceDeadline(c, Play(c, s, front).s, p, Play(c, s, script).s);
    if k < |front| {
      GoingIsInTime(c, s, front, k);
    }
  }

  /** A pass that begins at or after the earlier deadline returns the timeout of that
      deadline, whatever line or request is ready. */
  lemma {:induction false} LatePassTimesOut(c: Turn, s: Loop, script: seq<Pass>, p: Pass)
    requires Play(c, s, script).Going? && p.top >= Deadline(Play(c, s, script).s)
    ensures var (t, r) := (Play(c, s, script).s, Play(c, s, script + [p]));
            r.Done? && (r.result.IdleTimeout? <==> t.idle < t.hard) && (r.result.HardTimeout? <==> t.hard <= t.idle)
  {
    assert (script + [p])[..|script|] == script;
  }

  /** Without a receiver no steer is ever taken up, and the hard deadline never moves. */
  lemma {:induction false} NoReceiverNoRenewal(c: Turn, s: Loop, script: seq<Pass>)
    requires !s.receiver && s.pending.None?
    ensures var t := Play(c, s, script).s;
            t.hard == s.hard && t.stored == s.stored
            && t.ids == s.ids && t.acks == s.acks && t.pending.None? && !t.receiver
  {
    if script != [] {
      NoReceiverNoRenewal(c, s, script[..|script| - 1]);
    }
  }

  // ------------------------------------------- requests, replies and lost answers

  /** What one pass may do to the outstanding request and to the answers given: a request is
      written, or the outstanding one, if any, is answered; a Success has its reply. */
  predicate Answers(s: Loop, p: Pass, t: Loop) {
    && (t.pending.Some? && t.pending != s.pending ==>
          s.pending.None? && p.select == Steer(true) && t.pending == Some(Outstanding(s.nextId, |s.ids|)))
    && s.acks <= t.acks && |t.acks| <= |s.acks| + 1
    && (|s.acks| < |t.acks| && t.acks[|s.acks|].verdict == Success ==>
          s.pending.Some? && t.acks[|s.acks|].request == s.pending.value.request && Replies(p, s.pending.value.id))
  }

  /** An error-free reply with the id. */
  predicate Replies(p: Pass, id: nat) {
    && p.select.Read? && p.select.result.Msg? && p.select.result.message.id == Some(Number(id))
    && p.select.result.message.method_.None? && !p.select.result.message.error
  }

  lemma {:induction false} MessageAnswers(c: Turn, s: Loop, p: Pass, r: Progress)
    requires p.select.Read? && p.select.result.Msg?
    requires r == TakeMessage(c, s, p.select.result.message, p.select.at, p.select.again)
    ensures Answers(s, p, r.s)
  {
    hide TakeMessage, Dispatch;
    var m := p.select.result.message;
    var t := s.(idle := p.select.at + c.idleTimeout, lastActivity := p.select.at);
    MessageCases(c, s, m, p.select.at, p.select.again, t, r);
    DispatchKeeps(c, t, m, p.select.again, Dispatch(c, t, m, p.select.again));
  }

  lemma {:induction false} AdvanceAnswers(c: Turn, s: Loop, p: Pass, t: Loop)
    requires t == Advance(c, s, p).s
    ensures Answers(s, p, t)
  {
    hide TakeMessage;
    if p.top < Deadline(s) && p.select.Read? && p.select.result.Msg? {
      hide Answers;
      MessageAnswers(c, s, p, Advance(c, s, p));
    }
  }

  lemma {:induction false} PrefixPlays(c: Turn, s: Loop, script: seq<Pass>, p: Pass, j: nat)
    requires j <= |script|
    ensures (script + [p])[..j] == script[..j]
    ensures j < |script| ==> (script + [p])[j] == script[j]
  {
  }

  /** The pass that wrote the outstanding request. */
  lemma {:induction false} RequestTakenUp(c: Turn, s: Loop, script: seq<Pass>) returns (j: nat)
    requires s.pending.None? && Play(c, s, script).s.pending.Some?
    ensures j < |script| && script[j].select == Steer(true)
    ensures var (t, o) := (Play(c, s, script[..j]).s, Play(c, s, script).s.pending.value);
            o == Outstanding(t.nextId, |t.ids|)
  {
    var (front, p) := (script[..|script| - 1], script[|script| - 1]);
    var before := Play(c, s, front);
    j := |front|;
    if before.Going? {
      AdvanceAnswers(c, before.s, p, Play(c, s, script).s);
    }
    if Play(c, s, script).s.pending == before.s.pending {
      j := RequestTakenUp(c, s, front);
      assert script == front + [p];
      PrefixPlays(c, s, front, p, j);
    }
  }

  /** A Success has a history: the request was written at some pass, under the next id, and
      at a later pass came an error-free reply with that id. */
  lemma {:induction false} SuccessFollowsRequest(c: Turn, s: Loop, script: seq<Pass>, i: nat) returns (j: nat, k: nat)
    requires s.acks == [] && s.pending.None?
    requires i < |Play(c, s, script).s.acks| && Play(c, s, script).s.acks[i].verdict == Success
    ensures j < k < |script| && script[j].select == Steer(true)
    ensures var t := Play(c, s, script[..j]).s;
            && Play(c, s, script).s.acks[i].request == |t.ids|
            && Replies(script[k], t.nextId)
  {
    hide Advance, Replies;
    var (front, p) := (script[..|script| - 1], script[|script| - 1]);
    assert script == front + [p];
    var before, after := Play(c, s, front), Play(c, s, script).s;
    if before.Going? {
      AdvanceAnswers(c, before.s, p, after);
    }
    if i < |before.s.acks| {
      assert after.acks[i] == before.s.acks[i];
      j, k := SuccessFollowsRequest(c, s, front, i);
      PrefixPlays(c, s, front, p, k);
    } else {
      j := RequestTakenUp(c, s, front);
      k := |front|;
    }
    PrefixPlays(c, s, front, p, j);
  }

  /** The messages whose handling fails: a permission request that cannot be answered, an
      unknown request whose refusal cannot be written. */
  predicate HandlerBreaks(m: Message) {
    match m.method_
    case Some(PermissionRequest(handled)) => !handled
    case Some(Unknown(replyWritten)) => m.id.Some? && !replyWritten
    case _ => false
  }

  /** A pass at which an outstanding steer loses its answer. */
  predicate LosesAnswer(s: Loop, p: Pass) {
    && s.pending.Some? && p.top < Deadline(s)
    && p.select.Read? && p.select.result.Msg? && HandlerBreaks(p.select.result.message)
  }

  lemma {:induction false} PassLosesAnswer(c: Turn, s: Loop, p: Pass)
    ensures Advance(c, s, p).Done? && Advance(c, s, p).s.pending.Some? <==> LosesAnswer(s, p)
  {
  }

  predicate LosesAnswerAt(c: Turn, s: Loop, script: seq<Pass>, k: nat) {
    k < |script| && Play(c, s, script[..k]).Going? && LosesAnswer(Play(c, s, script[..k]).s, script[k])
  }

  /** A turn returns with a steer unanswered exactly when, in time and with a steer
      outstanding, it reads a message whose handling fails. */
  lemma {:induction false} AnswerLostExactlyWhen(c: Turn, s: Loop, script: seq<Pass>)
    ensures Play(c, s, script).Done? && Play(c, s, script).s.pending.Some? <==>
            exists k: nat :: LosesAnswerAt(c, s, script, k)
  {
    if script != [] {
      var (front, p) := (script[..|script| - 1], script[|script| - 1]);
      assert script == front + [p];
      AnswerLostExactlyWhen(c, s, front);
      forall k: nat | k < |front|
        ensures LosesAnswerAt(c, s, script, k) <==> LosesAnswerAt(c, s, front, k)
      {
        PrefixPlays(c, s, front, p, k);
      }
      PrefixPlays(c, s, front, p, |front|);
      if Play(c, s, front).Going? {
        PassLosesAnswer(c, Play(c, s, front).s, p);
        assert LosesAnswerAt(c, s, script, |front|) <==> LosesAnswer(Play(c, s, front).s, p);
      }
      if k: nat :| LosesAnswerAt(c, s, front, k) {
        assert LosesAnswerAt(c, s, script, k);
      }
    }
  }

  lemma {:induction false} PlayTwo(c: Turn, s: Loop, a: Pass, b: Pass)
    requires Advance(c, s, a).Going?
    ensures Play(c, s, [a, b]) == Advance(c, Advance(c, s, a).s, b)
  {
    assert [a, b][..1] == [a] && [a][..0] == [];
    assert Play(c, s, [a]) == Advance(c, s, a);
  }

  /** Such a turn: a steer is written, then a permission request cannot be answered. */
  lemma {:induction false} AnswerIsLost(c: Turn, s: Loop, a: Pass, b: Pass)
    requires s.receiver && s.runActive && s.pending.None? && s.ids == [] && s.acks == []
    requires a.top < Deadline(s) && b.top < Deadline(s) && a.select == Steer(true)
    requires b.select.Read? && b.select.result == Msg(Message(Some(NotNumber), Some(PermissionRequest(false)), false))
    ensures var r := Play(c, s, [a, b]);
            r.Done? && r.result == HandlerFailed && r.s.ids == [Some(s.nextId)] && r.s.acks == []
  {
    PlayTwo(c, s, a, b);
  }

  // ------------------------------------------------------- what a timeout means

  /** The clock when a pass has been dealt with. */
  function EndOf(p: Pass): Time {
    match p.select case Read(_, _, again) => again case Steer(_) => p.top case Sleep(woke) => woke
  }

  function ClockAfter(start: Time, script: seq<Pass>): Time {
    if script == [] then start else EndOf(script[|script| - 1])
  }

  /** The pass takes its readings in order, from `clock` on, and its sleep is not cut short. */
  predicate Orderly(s: Loop, clock: Time, p: Pass) {
    && clock <= p.top
    && (p.select.Read? ==> p.top <= p.select.at <= p.select.again)
    && (p.select.Sleep? ==> p.top <= p.select.woke && Deadline(s) <= p.select.woke)
  }

  /** The clock never goes back over the passes the loop takes. */
  ghost predicate Clocked(c: Turn, s: Loop, start: Time, script: seq<Pass>) {
    script == []
    || (Clocked(c, s, start, script[..|script| - 1])
        && (Play(c, s, script[..|script| - 1]).Going? ==>
              Orderly(Play(c, s, script[..|script| - 1]).s, ClockAfter(start, script[..|script| - 1]),
                      script[|script| - 1])))
  }

  predicate IsLine(p: Pass) { p.select.Read? && p.select.result.Msg? }

  /** When the line counts as activity: as it is taken up, and a tool call once more as it
      is handled. */
  function ActiveAt(p: Pass): Time
    requires IsLine(p)
  {
    match p.select.result.message.method_
    case Some(SessionUpdate(toolCall, _)) => if toolCall then p.select.again else p.select.at
    case _ => p.select.at
  }

  /** A line, and nothing else, restarts the idle clock. */
  predicate Stirred(c: Turn, s: Loop, p: Pass, t: Loop) {
    if IsLine(p)
    then t.idle == t.lastActivity + c.idleTimeout && t.lastActivity == ActiveAt(p)
    else t.idle == s.idle && t.lastActivity == s.lastActivity
  }

  lemma {:induction false} AdvanceActivity(c: Turn, s: Loop, p: Pass, t: Loop)
    requires Advance(c, s, p) == Going(t)
    ensures Stirred(c, s, p, t)
  {
  }

  /** The last activity of a turn that goes on: no line came after it, and it is the start
      or lies within the handling of some line. */
  ghost predicate Lively(c: Turn, t: Loop, start: Time, script: seq<Pass>) {
    && t.idle == t.lastActivity + c.idleTimeout
    && start <= t.lastActivity <= ClockAfter(start, script)
    && (forall k | 0 <= k < |script| && IsLine(script[k]) :: script[k].select.at <= t.lastActivity)
    && (t.lastActivity == start
        || exists k | 0 <= k < |script| :: IsLine(script[k]) && t.lastActivity <= script[k].select.again)
  }

  lemma {:induction false} GoingIsLively(c: Turn, s: Loop, start: Time, script: seq<Pass>)
    requires s.lastActivity == start && s.idle == start + c.idleTimeout
    requires Clocked(c, s, start, script) && Play(c, s, script).Going?
    ensures Lively(c, Play(c, s, script).s, start, script)
  {
    if script != [] {
      var (front, p) := (script[..|script| - 1], script[|script| - 1]);
      GoingIsLively(c, s, start, front);
      var (before, after) := (Play(c, s, front).s, Play(c, s, script).s);
      AdvanceActivity(c, before, p, after);
      LivelyNext(c, before, after, start, front, p, script);
    }
  }

  lemma {:induction false} LivelyNext(c: Turn, s: Loop, t: Loop, start: Time, front: seq<Pass>, p: Pass, script: seq<Pass>)
    requires Lively(c, s, start, front) && script == front + [p] && Orderly(s, ClockAfter(start, front), p)
    requires Stirred(c, s, p, t)
    ensures Lively(c, t, start, script)
  {
    assert script[|front|] == p;
    assert forall k | 0 <= k < |front| :: script[k] == front[k];
    if !IsLine(p) && t.lastActivity != start {
      var k :| 0 <= k < |front| && IsLine(front[k]) && s.lastActivity <= front[k].select.again;
      assert IsLine(script[k]) && t.lastActivity <= script[k].select.again;
    }
  }

  /** While a turn goes on it is never silent for long: each pass begins less than the idle
      timeout after the start or after some earlier line was dealt with. */
  lemma {:induction false} GoingIsNeverSilent(c: Turn, s: Loop, start: Time, script: seq<Pass>, p: Pass)
    requires s.lastActivity == start && s.idle == start + c.idleTimeout
    requires Clocked(c, s, start, script) && Play(c, s, script).Going? && Play(c, s, script + [p]).Going?
    ensures p.top < start + c.idleTimeout
         || exists k | 0 <= k < |script| :: IsLine(script[k]) && p.top < script[k].select.again + c.idleTimeout
  {
    assert (script + [p])[..|script|] == script;
    GoingIsLively(c, s, start, script);
  }

  /** When the loop sees that it is late: at the top of the pass or on waking. */
  function SeenLate(s: Loop, p: Pass): Time {
    if p.top >= Deadline(s) then p.top else EndOf(p)
  }

  /** What a timeout says is so. An idle timeout: for the whole idle timeout no line was
      taken up, and the turn is that old. A hard timeout: the turn's deadline has passed,
      and no line was taken up during the silence it reports. */
  lemma {:induction false} TimeoutsAreEarned(c: Turn, s: Loop, start: Time, script: seq<Pass>, p: Pass)
    requires s.lastActivity == start && s.idle == start + c.idleTimeout && s.acks == []
    requires Clocked(c, s, start, script + [p]) && Play(c, s, script).Going?
    ensures var (r, now) := (Play(c, s, script + [p]), SeenLate(Play(c, s, script).s, p));
            && (r.Done? && r.result.IdleTimeout? ==>
                  && start + c.idleTimeout <= now
                  && forall k | 0 <= k < |script| && IsLine(script[k]) :: script[k].select.at + c.idleTimeout <= now)
            && (r.Done? && r.result.HardTimeout? ==>
                  && s.hard <= now && start + r.result.silence <= now
                  && forall k | 0 <= k < |script| && IsLine(script[k]) :: script[k].select.at + r.result.silence <= now)
  {
    assert (script + [p])[..|script|] == script;
    GoingIsLively(c, s, start, script);
    HardDeadlineBound(c, s, script);
    EndingIsTimeout(c, Play(c, s, script).s, p);
  }

  /** A pass ends in a timeout exactly when it begins late or sleeps. */
  lemma {:induction false} EndingIsTimeout(c: Turn, s: Loop, p: Pass)
    ensures var r := Advance(c, s, p);
            r.Done? && (r.result.IdleTimeout? || r.result.HardTimeout?) <==> p.top >= Deadline(s) || p.select.Sleep?
  {
  }

  // ------------------------------------ what each verdict and each result means

  predicate InTime(s: Loop, p: Pass) { p.top < Deadline(s) }

  /** The pass takes up a steer request. */
  predicate TakesUp(s: Loop, p: Pass) { InTime(s, p) && p.select.Steer? && s.pending.None? && s.receiver }

  /** The pass reads a reply with the id: an error or not. */
  predicate ReadsReply(s: Loop, p: Pass, id: nat, error: bool) {
    && InTime(s, p) && p.select.Read? && p.select.result.Msg?
    && p.select.result.message == Message(Some(Number(id)), None, error)
  }

  predicate TimesOut(s: Loop, p: Pass) { !InTime(s, p) || p.select.Sleep? }

  /** The pass with which the loop returns `r`. */
  predicate Ends(c: Turn, s: Loop, p: Pass, r: Result) {
    match r
    case Response => ReadsReply(s, p, c.promptId, false)
    case AgentError => ReadsReply(s, p, c.promptId, true)
    case IdleTimeout => TimesOut(s, p) && s.idle < s.hard
    case HardTimeout(silence) =>
      && TimesOut(s, p) && s.hard <= s.idle
      && silence == if SeenLate(s, p) > s.lastActivity then SeenLate(s, p) - s.lastActivity else 0
    case AgentExited => InTime(s, p) && p.select.Read? && p.select.result.EndOfFile?
    case TooLong => InTime(s, p) && p.select.Read? && p.select.result.LineTooLong?
    case Io => InTime(s, p) && p.select.Read? && p.select.result.IoError?
    case HandlerFailed =>
      InTime(s, p) && p.select.Read? && p.select.result.Msg? && HandlerBreaks(p.select.result.message)
  }

  /** The pass that gives verdict `v`: the agent's reply to the outstanding steer, or what
      became of a request as it was taken up, or a return with the steer outstanding. */
  ghost predicate Cause(c: Turn, s: Loop, p: Pass, v: Verdict) {
    match v
    case Success => s.pending.Some? && ReadsReply(s, p, s.pending.value.id, false)
    case AgentRejected => s.pending.Some? && ReadsReply(s, p, s.pending.value.id, true)
    case RunIdMissing => TakesUp(s, p) && !s.runActive
    case TransportFailed => TakesUp(s, p) && s.runActive && !p.select.written
    case Neutral => s.pending.Some? && exists r: Result :: r != HandlerFailed && Ends(c, s, p, r)
  }

  /** With the outstanding steer's id not the prompt's, and its number the count of answers. */
  ghost predicate Tracked(c: Turn, s: Loop) {
    && |s.ids| == |s.acks| + (if s.pending.Some? then 1 else 0)
    && (s.pending.Some? ==> s.pending.value.request == |s.acks| && s.pending.value.id != c.promptId)
  }

  lemma {:induction false} PassEnds(c: Turn, s: Loop, p: Pass, r: Result)
    requires Tracked(c, s)
    ensures Advance(c, s, p).Done? && Advance(c, s, p).result == r <==> Ends(c, s, p, r)
  {
  }

  /** One pass gives at most one answer, and to the request whose turn it is. */
  lemma {:induction false} PassAnswersOne(c: Turn, s: Loop, p: Pass)
    requires Tracked(c, s)
    ensures var t := Advance(c, s, p).s;
            t.acks == s.acks || t.acks == s.acks + [Ack(|s.acks|, t.acks[|t.acks| - 1].verdict)]
  {
  }

  lemma {:induction false} ReturnIsNeutral(c: Turn, s: Loop, p: Pass)
    requires Tracked(c, s) && Advance(c, s, p).Done?
    ensures var r := Advance(c, s, p);
            r.s.acks == if s.pending.Some? && r.result != HandlerFailed then s.acks + [Ack(|s.acks|, Neutral)] else s.acks
  {
  }

  lemma {:induction false} PassVerdict(c: Turn, s: Loop, p: Pass, v: Verdict)
    requires Tracked(c, s)
    ensures Advance(c, s, p).s.acks == s.acks + [Ack(|s.acks|, v)] <==> Cause(c, s, p, v)
  {
    var r := Advance(c, s, p);
    if r.Done? {
      hide Advance, Ends;
      ReturnIsNeutral(c, s, p);
      PassEnds(c, s, p, r.result);
      NoOtherCause(c, s, p, v, r.result);
      var n := |s.acks|;
      assert (s.acks + [Ack(n, Neutral)])[n] == (s.acks + [Ack(n, v)])[n] <==> v == Neutral;
    } else {
      GoingVerdict(c, s, p, v);
    }
  }

  lemma {:induction false} NoOtherCause(c: Turn, s: Loop, p: Pass, v: Verdict, r: Result)
    requires Tracked(c, s) && Ends(c, s, p, r)
    ensures v != Neutral ==> !Cause(c, s, p, v)
    ensures r == HandlerFailed ==> !Cause(c, s, p, v)
  {
  }

  lemma {:induction false} GoingVerdict(c: Turn, s: Loop, p: Pass, v: Verdict)
    requires Tracked(c, s) && Advance(c, s, p).Going?
    ensures Advance(c, s, p).s.acks == s.acks + [Ack(|s.acks|, v)] <==> Cause(c, s, p, v)
  {
    PassAnswersOne(c, s, p);
    if v == Neutral && Cause(c, s, p, v) {
      var u: Result :| u != HandlerFailed && Ends(c, s, p, u);
      PassEnds(c, s, p, u);
    }
  }

  /** A pass that gives a Success moves the hard deadline to one duration from then, unless
      it lies later already; no other pass touches it. */
  lemma {:induction false} PassRenewsExactlyWhen(c: Turn, s: Loop, p: Pass)
    ensures var t := Advance(c, s, p).s;
            if Cause(c, s, p, Success) && p.select.again + c.maxDuration > s.hard
            then t.hard == p.select.again + c.maxDuration && t.stored == Some(t.hard)
            else t.hard == s.hard && t.stored == s.stored
  {
  }

  /** Answer number `i` is given at pass `k`, which is the cause of verdict `v`. */
  ghost predicate AnsweredAt(c: Turn, s: Loop, script: seq<Pass>, k: nat, i: nat, v: Verdict) {
    && k < |script| && Play(c, s, script[..k]).Going?
    && |Play(c, s, script[..k]).s.acks| == i && Cause(c, Play(c, s, script[..k]).s, script[k], v)
  }

  ghost predicate EndsAt(c: Turn, s: Loop, script: seq<Pass>, k: nat, r: Result) {
    k < |script| && Play(c, s, script[..k]).Going? && Ends(c, Play(c, s, script[..k]).s, script[k], r)
  }

  lemma {:induction false} PlayTracks(c: Turn, s: Loop, script: seq<Pass>)
    requires s.ids == [] && s.acks == [] && s.pending.None? && c.promptId < s.nextId
    ensures Play(c, s, script).Going? ==> Tracked(c, Play(c, s, script).s)
  {
    SteersAreRouted(c, s, script);
  }

  /** The answer to the steer request number `i` is `v` exactly when some pass was the cause
      of it: AgentRejected, an error reply with the outstanding id; Success, an error-free
      one; RunIdMissing, no run active as it was taken up; TransportFailed, its write failing;
      Neutral, a return while it was outstanding. */
  lemma {:induction false} VerdictExactlyWhen(c: Turn, s: Loop, script: seq<Pass>, i: nat, v: Verdict)
    requires s.ids == [] && s.acks == [] && s.pending.None? && c.promptId < s.nextId
    ensures var acks := Play(c, s, script).s.acks;
            i < |acks| && acks[i] == Ack(i, v) <==> exists k: nat :: AnsweredAt(c, s, script, k, i, v)
  {
    if script != [] {
      hide Advance, Cause, Tracked;
      var (front, p) := (script[..|script| - 1], script[|script| - 1]);
      assert script == front + [p];
      var before := Play(c, s, front);
      VerdictExactlyWhen(c, s, front, i, v);
      forall k: nat | k < |front|
        ensures AnsweredAt(c, s, script, k, i, v) <==> AnsweredAt(c, s, front, k, i, v)
      {
        PrefixPlays(c, s, front, p, k);
      }
      PrefixPlays(c, s, front, p, |front|);
      if k: nat :| AnsweredAt(c, s, front, k, i, v) {
        assert AnsweredAt(c, s, script, k, i, v);
      }
      if before.Going? {
        PlayTracks(c, s, front);
        PassAnswersOne(c, before.s, p);
        PassVerdict(c, before.s, p, v);
        assert AnsweredAt(c, s, script, |front|, i, v) <==> |before.s.acks| == i && Cause(c, before.s, p, v);
      }
    }
  }

  /** The loop returns `r` exactly when some pass ends it so: with the prompt's own reply, a
      deadline, the end or the failure of the stream, or a handler that fails. */
  lemma {:induction false} ReturnExactlyWhen(c: Turn, s: Loop, script: seq<Pass>, r: Result)
    requires s.ids == [] && s.acks == [] && s.pending.None? && c.promptId < s.nextId
    ensures Play(c, s, script).Done? && Play(c, s, script).result == r <==> exists k: nat :: EndsAt(c, s, script, k, r)
  {
    if script != [] {
      hide Advance, Ends, Tracked;
      var (front, p) := (script[..|script| - 1], script[|script| - 1]);
      assert script == front + [p];
      var before := Play(c, s, front);
      ReturnExactlyWhen(c, s, front, r);
      forall k: nat | k < |front|
        ensures EndsAt(c, s, script, k, r) <==> EndsAt(c, s, front, k, r)
      {
        PrefixPlays(c, s, front, p, k);
      }
      PrefixPlays(c, s, front, p, |front|);
      if k: nat :| EndsAt(c, s, front, k, r) {
        assert EndsAt(c, s, script, k, r);
      }
      if before.Going? {
        PlayTracks(c, s, front);
        PassEnds(c, before.s, p, r);
        assert EndsAt(c, s, script, |front|, r) <==> Ends(c, before.s, p, r);
      }
    }
  }

  /** Whether a run is active after the updates of a script, the last one counting. */
  function RunAfter(active: bool, script: seq<Pass>): bool {
    if script == [] then active
    else
      match script[|script| - 1].select
      case Read(Msg(Message(_, Some(SessionUpdate(_, SetRun)), _)), _, _) => true
      case Read(Msg(Message(_, Some(SessionUpdate(_, ClearRun)), _)), _, _) => false
      case _ => RunAfter(active, script[..|script| - 1])
  }

  /** While a turn goes on, a run is active exactly as the last update that names one says. */
  lemma {:induction false} RunFollowsUpdates(c: Turn, s: Loop, script: seq<Pass>)
    requires Play(c, s, script).Going?
    ensures Play(c, s, script).s.runActive == RunAfter(s.runActive, script)
  {
    if script != [] {
      RunFollowsUpdates(c, s, script[..|script| - 1]);
    }
  }

  // ------------------------------------------------- a drain that keeps its receiver

  /** A steer taken up, and answered, while a receiver is installed: the run is announced, the
      steer is written, its reply comes one instant later. */
  function RenewingScript(start: Time, nextId: nat): seq<Pass> {
    [Pass(start, Read(Msg(Message(None, Some(SessionUpdate(false, SetRun)), false)), start, start)),
     Pass(start, Steer(true)),
     Pass(start, Read(Msg(Message(Some(Number(nextId)), None, false)), start, start + 1))]
  }

  lemma {:induction false} ReceiverRenews(c: Turn, s: Loop, start: Time)
    requires s.receiver && s.pending.None? && s.idle == start + c.idleTimeout && c.idleTimeout > 0
    requires start < s.hard == start + c.maxDuration
    ensures Clocked(c, s, start, RenewingScript(start, s.nextId))
    ensures Play(c, s, RenewingScript(start, s.nextId)).s.hard == s.hard + 1
  {
    var x := RenewingScript(start, s.nextId);
    assert x[..0] == [] && x[..1] == [x[0]] && x[..2] == [x[0], x[1]];
    assert x[..1][..0] == [] && x[..2][..1] == x[..1] && x[..3] == x && x[..3][..2] == x[..2];
    var t := Advance(c, s, x[0]).s;
    assert Play(c, s, x[..0]) == Going(s);
    assert Play(c, s, x[..1]) == Going(t);
    var u := TakeSteer(t, true);
    assert Play(c, s, x[..2]) == Going(u);
    assert Play(c, s, x) == Advance(c, u, x[2]);
    assert Clocked(c, s, start, x[..0]);
    assert Clocked(c, s, start, x[..1]);
    assert Clocked(c, s, start, x[..2]);
  }

  lemma {:induction false} ExpiredEndsAtOnce(c: Turn, s: Loop, start: Time, script: seq<Pass>)
    requires Clocked(c, s, start, script) && s.hard <= start
    ensures Play(c, s, script).s.hard == s.hard
    ensures script != [] ==> Play(c, s, script).Done?
  {
    if script != [] {
      ExpiredEndsAtOnce(c, s, start, script[..|script| - 1]);
    }
  }

  /** The hard deadline of a drain stands still over every script exactly when the steer
      receiver has been consumed before, or the deadline has passed on entry. */
  lemma {:induction false} DeadlineFixedExactlyWhen(c: Turn, s: Loop, start: Time)
    requires s.pending.None? && s.idle == start + c.idleTimeout && c.idleTimeout > 0
    requires c.maxDuration == if s.hard > start then s.hard - start else 0
    ensures (forall script | Clocked(c, s, start, script) :: Play(c, s, script).s.hard == s.hard) <==>
            !s.receiver || s.hard <= start
  {
    if s.receiver && start < s.hard {
      ReceiverRenews(c, s, start);
      assert !(forall script | Clocked(c, s, start, script) :: Play(c, s, script).s.hard == s.hard);
    } else {
      forall script | Clocked(c, s, start, script)
        ensures Play(c, s, script).s.hard == s.hard
      {
        if s.receiver {
          ExpiredEndsAtOnce(c, s, start, script);
        } else {
          NoReceiverNoRenewal(c, s, script);
        }
      }
    }
  }
}
