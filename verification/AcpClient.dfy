/** The client around the read loop: prompting a turn and draining it after a timeout. */
module AcpClient {
  import opened Clock
  import opened Text
  import opened TurnLoop

  /** Grace for a cancelled turn whose deadline has all but passed, in the clock's unit. */
  const CLEANUP_GRACE: nat := 30_000

  /** Grace of a drain that a control signal asked for. */
  const CONTROL_CANCEL_GRACE: nat := 5_000

  /** What becomes of writing the prompt: the future that writes it may be dropped. */
  datatype Write = Written | Broken | Dropped

  /** How a turn or a drain ends for its caller; StillRunning and WriteDropped are futures
      dropped while reading and while writing. */
  datatype TurnResult = Replied(result: Result) | WriteFailed | WriteDropped | NoPromptInFlight | StillRunning

  class Client {
    var nextId: nat
    var lastPromptId: Option<nat>
    var currentHardDeadline: Option<Time>
    var steerReceiver: bool
    var runActive: bool

    // The read loop's own variables.
    var idleDeadline: Time
    var hardDeadline: Time
    var lastActivity: Time
    var pendingSteer: Option<Outstanding>
    var acks: seq<Ack>
    /** Ids written for the steer requests of this loop, and its renewals. */
    ghost var ids: seq<Option<nat>>
    ghost var renewals: nat

    /** The loop state these variables hold; `receiver` is the loop's own copy. */
    ghost function State(receiver: bool): Loop
      reads this
    {
      Loop(idleDeadline, hardDeadline, lastActivity, pendingSteer, nextId, runActive, receiver,
           currentHardDeadline, ids, acks, renewals)
    }

    /** An in-flight prompt's id has been given out. */
    ghost predicate Valid()
      reads this
    {
      lastPromptId.Some? ==> lastPromptId.value < nextId
    }

    constructor ()
      ensures Valid() && lastPromptId == None && !steerReceiver
    {
      nextId, lastPromptId, currentHardDeadline, steerReceiver, runActive := 0, None, None, false, false;
      idleDeadline, hardDeadline, lastActivity, pendingSteer, acks := 0, 0, 0, None, [];
      ids, renewals := [], 0;
    }

    method DrainSteer(ghost receiver: bool)
      modifies this`pendingSteer, this`acks
      ensures State(receiver) == Drained(old(State(receiver)))
    {
      if pendingSteer.Some? {
        acks := acks + [Ack(pendingSteer.value.request, Neutral)];
        pendingSteer := None;
      }
    }

    method TimeOut(now: Time, ghost receiver: bool) returns (r: Result)
      modifies this`pendingSteer, this`acks
      ensures Done(State(receiver), r) == TimedOut(old(State(receiver)), now)
    {
      DrainSteer(receiver);
      if idleDeadline < hardDeadline {
        r := IdleTimeout;
      } else {
        r := HardTimeout(if now > lastActivity then now - lastActivity else 0);
      }
    }

    method SteerArm(written: bool, receiver: bool)
      requires Tallied(State(receiver))
      modifies this`nextId, this`pendingSteer, this`acks, this`ids
      ensures State(receiver) == TakeSteer(old(State(receiver)), written)
    {
      if pendingSteer.None? && receiver {
        var request := |acks|;
        if !runActive {
          ids := ids + [None];
          acks := acks + [Ack(request, RunIdMissing)];
        } else {
          var id := nextId;
          nextId := nextId + 1;
          ids := ids + [Some(id)];
          if written {
            pendingSteer := Some(Outstanding(id, request));
          } else {
            acks := acks + [Ack(request, TransportFailed)];
          }
        }
      }
    }

    method TakeSteerReply(c: Turn, error: bool, renewNow: Time, ghost receiver: bool)
      requires pendingSteer.Some?
      modifies this`pendingSteer, this`acks, this`hardDeadline, this`currentHardDeadline, this`renewals
      ensures State(receiver) == SteerReply(c, old(State(receiver)), error, renewNow)
    {
      var request := pendingSteer.value.request;
      pendingSteer := None;
      if error {
        acks := acks + [Ack(request, AgentRejected)];
      } else {
        var newDeadline := renewNow + c.maxDuration;
        if newDeadline > hardDeadline {
          hardDeadline := newDeadline;
          currentHardDeadline := Some(newDeadline);
          renewals := renewals + 1;
        }
        acks := acks + [Ack(request, Success)];
      }
    }

    method DispatchMethod(c: Turn, m: Message, again: Time, ghost receiver: bool) returns (r: Option<Result>)
      modifies this`idleDeadline, this`lastActivity, this`runActive
      ensures Outcome(r, receiver) == Dispatch(c, old(State(receiver)), m, again)
    {
      r := None;
      match m.method_
      case Some(SessionUpdate(toolCall, run)) =>
        match run {
          case Keep =>
          case SetRun => runActive := true;
          case ClearRun => runActive := false;
        }
        if toolCall {
          idleDeadline := again + c.idleTimeout;
          lastActivity := again;
        }
      case Some(PermissionRequest(handled)) =>
        if !handled { r := Some(HandlerFailed); }
      case Some(Unknown(replyWritten)) =>
        if m.id.Some? && !replyWritten { r := Some(HandlerFailed); }
      case _ =>
    }

    ghost function Outcome(r: Option<Result>, receiver: bool): Progress
      reads this
    {
      if r.Some? then Done(State(receiver), r.value) else Going(State(receiver))
    }

    method TakeOne(c: Turn, m: Message, at: Time, again: Time, ghost receiver: bool) returns (r: Option<Result>)
      modifies this`idleDeadline, this`hardDeadline, this`lastActivity, this`pendingSteer, this`acks,
               this`currentHardDeadline, this`renewals, this`runActive
      ensures Outcome(r, receiver) == TakeMessage(c, old(State(receiver)), m, at, again)
    {
      hide Dispatch, SteerReply, Drained;
      r := None;
      idleDeadline := at + c.idleTimeout;
      lastActivity := at;
      if m.id.Some? && m.method_.None? {
        if pendingSteer.Some? && m.id.value == Number(pendingSteer.value.id) {
          TakeSteerReply(c, m.error, again, receiver);
          return;
        }
        if m.id.value == Number(c.promptId) {
          DrainSteer(receiver);
          return Some(if m.error then AgentError else Response);
        }
      }
      r := DispatchMethod(c, m, again, receiver);
    }

    method ReadArm(c: Turn, result: ReadResult, at: Time, again: Time, ghost receiver: bool) returns (r: Option<Result>)
      modifies this`idleDeadline, this`hardDeadline, this`lastActivity, this`pendingSteer, this`acks,
               this`currentHardDeadline, this`renewals, this`runActive
      ensures Outcome(r, receiver) == TakeLine(c, old(State(receiver)), result, at, again)
    {
      hide TakeMessage;
      r := None;
      match result {
        case EndOfFile => DrainSteer(receiver); return Some(AgentExited);
        case LineTooLong => DrainSteer(receiver); return Some(TooLong);
        case IoError => DrainSteer(receiver); return Some(Io);
        case Blank =>
        case BadJson =>
        case Msg(m) => r := TakeOne(c, m, at, again, receiver);
      }
    }

    /** One pass of the loop. */
    method OnePass(c: Turn, p: Pass, receiver: bool) returns (r: Option<Result>)
      requires Tallied(State(receiver))
      modifies this`idleDeadline, this`hardDeadline, this`lastActivity, this`pendingSteer, this`acks, this`ids,
               this`nextId, this`currentHardDeadline, this`renewals, this`runActive
      ensures Outcome(r, receiver) == Advance(c, old(State(receiver)), p)
      ensures Tallied(State(receiver))
    {
      hide TakeLine, TakeSteer, TimedOut;
      AdvanceTallied(c, State(receiver), p);
      r := None;
      var next := if idleDeadline < hardDeadline then idleDeadline else hardDeadline;
      if p.top >= next {
        var t := TimeOut(p.top, receiver);
        return Some(t);
      }
      match p.select
      case Sleep(woke) =>
        var t := TimeOut(woke, receiver);
        return Some(t);
      case Steer(written) =>
        SteerArm(written, receiver);
      case Read(result, at, again) =>
        r := ReadArm(c, result, at, again, receiver);
    }

    /** The read loop over a script of passes; None when the script ends with the turn still
        going. The receiver is taken out of the client for good. */
    method ReadUntilResponse(c: Turn, hard: Time, now: Time, script: seq<Pass>)
      returns (r: Option<Result>, ghost last: Loop)
      modifies this
      ensures var s := Entry(now, c, hard, old(nextId), old(runActive), old(steerReceiver), old(currentHardDeadline));
              (if r.Some? then Done(last, r.value) else Going(last)) == Play(c, s, script)
      ensures nextId == last.nextId && runActive == last.runActive
      ensures currentHardDeadline == last.stored && acks == last.acks
      ensures !steerReceiver && lastPromptId == old(lastPromptId)
    {
      hide Play, Advance;
      var receiver := steerReceiver;
      steerReceiver := false;
      pendingSteer, acks, ids, renewals := None, [], [], 0;
      idleDeadline, hardDeadline, lastActivity := now + c.idleTimeout, hard, now;
      ghost var s := State(receiver);
      r, last := None, s;
      PlayNone(c, s, script);
      for i := 0 to |script|
        invariant Play(c, s, script[..i]) == Going(State(receiver))
        invariant Tallied(State(receiver))
        invariant r.None? && !steerReceiver && lastPromptId == old(lastPromptId)
      {
        Onward(c, s, script, i);
        r := OnePass(c, script[i], receiver);
        last := State(receiver);
        if r.Some? {
          Settled(c, s, script, i + 1);
          return;
        }
      }
      last := State(receiver);
      assert script[..|script|] == script;
    }

    /** `install_steer_rx`, which insists that no receiver is installed. */
    method InstallSteerReceiver()
      requires Valid() && !steerReceiver
      modifies this`steerReceiver
      ensures Valid() && steerReceiver
    {
      steerReceiver := true;
    }

    /** `clear_steer_rx` */
    method ClearSteerReceiver()
      requires Valid()
      modifies this`steerReceiver
      ensures Valid() && !steerReceiver
    {
      steerReceiver := false;
    }

    /** `session_prompt_blocks_with_idle_timeout`: on a timeout, and when its future is
        dropped, the prompt id and the deadline stay behind for the drain; on any other return
        both are cleared. Only the read loop consumes the receiver. */
    method SessionPrompt(now: Time, start: Time, idleTimeout: nat, maxDuration: nat, write: Write, script: seq<Pass>)
      returns (r: TurnResult, ghost last: Loop)
      requires Valid()
      modifies this
      ensures Valid() && !r.NoPromptInFlight?
      ensures (r.WriteFailed? <==> write.Broken?) && (r.WriteDropped? <==> write.Dropped?)
      ensures lastPromptId == if InFlight(r) then Some(old(nextId)) else None
      ensures currentHardDeadline == if InFlight(r) then Some(last.hard) else None
      ensures now + maxDuration <= last.hard && (r.WriteDropped? ==> last.hard == now + maxDuration)
      ensures steerReceiver == (old(steerReceiver) && !write.Written?)
      ensures nextId == last.nextId && runActive == last.runActive
      ensures write.Written? ==> Routed(Turn(old(nextId), idleTimeout, maxDuration), last, script)
    {
      hide Routed, Play;
      var hard := now + maxDuration;
      currentHardDeadline := Some(hard);
      lastPromptId := Some(nextId);
      var id := nextId;
      nextId := nextId + 1;
      hardDeadline := hard;
      last := State(steerReceiver);
      if write.Dropped? {
        return WriteDropped, last;
      }
      if write.Broken? {
        lastPromptId, currentHardDeadline := None, None;
        return WriteFailed, last;
      }
      var c := Turn(id, idleTimeout, maxDuration);
      ghost var s := Entry(start, c, hard, nextId, runActive, steerReceiver, currentHardDeadline);
      var result;
      result, last := ReadUntilResponse(c, hard, start, script);
      SteersAreRouted(c, s, script);
      HardDeadlineBound(c, s, script);
      if result.None? {
        return StillRunning, last;
      }
      if !(result.value.IdleTimeout? || result.value.HardTimeout?) {
        lastPromptId, currentHardDeadline := None, None;
      }
      return Replied(result.value), last;
    }

    /** `cancel_with_cleanup`: the drain inherits what is left of the turn's deadline, or the
        grace when that is more. */
    method CancelWithCleanup(now: Time, start: Time, written: bool, script: seq<Pass>)
      returns (r: TurnResult, ghost last: Loop)
      requires Valid()
      modifies this
      ensures Valid() && lastPromptId == None && !r.WriteDropped?
      ensures r.NoPromptInFlight? <==> old(lastPromptId).None?
      ensures r.NoPromptInFlight? || r.WriteFailed? ==> currentHardDeadline == None && steerReceiver == old(steerReceiver)
      ensures r.Replied? || r.StillRunning? ==>
                !steerReceiver && currentHardDeadline == last.stored
                && Ended(r, last) == DrainPlay(old(lastPromptId).value, DrainDeadline(old(currentHardDeadline), now), start,
                                               old(nextId), old(runActive), old(steerReceiver), script)
      ensures (r.Replied? || r.StillRunning?) && !old(steerReceiver) ==>
                last.hard == DrainDeadline(old(currentHardDeadline), now)
                && last.ids == [] && last.acks == [] && currentHardDeadline == None
    {
      var stored := currentHardDeadline;
      currentHardDeadline := None;
      var grace := now + CLEANUP_GRACE;
      var hard := grace;
      if stored.Some? && stored.value > grace {
        hard := stored.value;
      }
      r, last := CancelUntil(hard, start, written, script);
    }

    /** `cancel_with_cleanup_grace`: a drain with its own short deadline. */
    method CancelWithCleanupGrace(now: Time, start: Time, grace: nat, written: bool, script: seq<Pass>)
      returns (r: TurnResult, drainTimedOut: bool, ghost last: Loop)
      requires Valid()
      modifies this
      ensures Valid() && lastPromptId == None && !r.WriteDropped?
      ensures r.NoPromptInFlight? <==> old(lastPromptId).None?
      ensures drainTimedOut <==> r.Replied? && r.result.HardTimeout?
      ensures r.Replied? || r.StillRunning? ==>
                !steerReceiver && now + grace <= last.hard
                && Ended(r, last) == DrainPlay(old(lastPromptId).value, now + grace, start,
                                               old(nextId), old(runActive), old(steerReceiver), script)
      ensures (r.Replied? || r.StillRunning?) && !old(steerReceiver) ==>
                last.hard == now + grace && last.ids == [] && last.acks == []
    {
      currentHardDeadline := None;
      r, last := CancelUntil(now + grace, start, written, script);
      drainTimedOut := r.Replied? && r.result.HardTimeout?;
    }

    method CancelUntil(hard: Time, start: Time, written: bool, script: seq<Pass>)
      returns (r: TurnResult, ghost last: Loop)
      requires Valid() && currentHardDeadline == None
      modifies this
      ensures Valid() && lastPromptId == None && !r.WriteDropped?
      ensures r.NoPromptInFlight? <==> old(lastPromptId).None?
      ensures r.NoPromptInFlight? || r.WriteFailed? ==> currentHardDeadline == None && steerReceiver == old(steerReceiver)
      ensures r.Replied? || r.StillRunning? ==>
                !steerReceiver && currentHardDeadline == last.stored && hard <= last.hard
                && Ended(r, last) == DrainPlay(old(lastPromptId).value, hard, start,
                                               old(nextId), old(runActive), old(steerReceiver), script)
      ensures (r.Replied? || r.StillRunning?) && !old(steerReceiver) ==>
                last.hard == hard && last.ids == [] && last.acks == [] && currentHardDeadline == None
    {
      last := State(steerReceiver);
      if lastPromptId.None? {
        return NoPromptInFlight, last;
      }
      var promptId := lastPromptId.value;
      lastPromptId := None;
      if !written {
        return WriteFailed, last;
      }
      var c := DrainTurn(promptId, hard, start);
      ghost var s := Entry(start, c, hard, nextId, runActive, steerReceiver, currentHardDeadline);
      var result;
      result, last := ReadUntilResponse(c, hard, start, script);
      HardDeadlineBound(c, s, script);
      if !s.receiver {
        NoReceiverNoRenewal(c, s, script);
      }
      r := if result.Some? then Replied(result.value) else StillRunning;
    }

    /** The prompt of a channel task raced against a control signal: when the signal wins, the
        prompt's future is dropped where it stands and a prompt in flight is drained. A signal
        that arrives while the reply is read finds the receiver gone, and the drain ends by its
        grace; one that arrives while the prompt is written leaves the receiver to the drain. */
    method ControlledTurn(now: Time, start: Time, idleTimeout: nat, maxDuration: nat, write: Write, script: seq<Pass>,
                          stopped: Time, drainStart: Time, cancelWritten: bool, drain: seq<Pass>)
      returns (turn: TurnResult, ghost turnEnd: Loop, drained: Option<TurnResult>, ghost drainEnd: Loop)
      requires Valid()
      modifies this
      ensures drained.Some? <==> turn.StillRunning? || turn.WriteDropped?
      ensures drained.Some? ==> !drained.value.NoPromptInFlight? && !drained.value.WriteDropped?
      ensures drained.Some? && !drained.value.WriteFailed? ==>
                Ended(drained.value, drainEnd)
                == DrainPlay(old(nextId), stopped + CONTROL_CANCEL_GRACE, drainStart, turnEnd.nextId, turnEnd.runActive,
                             turn.WriteDropped? && old(steerReceiver), drain)
      ensures drained.Some? && !drained.value.WriteFailed? && (turn.StillRunning? || !old(steerReceiver)) ==>
                drainEnd.hard == stopped + CONTROL_CANCEL_GRACE && drainEnd.ids == []
    {
      drained := None;
      turn, turnEnd := SessionPrompt(now, start, idleTimeout, maxDuration, write, script);
      drainEnd := turnEnd;
      if turn.StillRunning? || turn.WriteDropped? {
        var r, timedOut;
        r, timedOut, drainEnd := CancelWithCleanupGrace(stopped, drainStart, CONTROL_CANCEL_GRACE, cancelWritten, drain);
        drained := Some(r);
      }
    }
  }

  /** The prompt's id and deadline are left for a drain. */
  predicate InFlight(r: TurnResult) {
    r.StillRunning? || r.WriteDropped? || (r.Replied? && (r.result.IdleTimeout? || r.result.HardTimeout?))
  }

  ghost function Ended(r: TurnResult, last: Loop): Progress {
    if r.Replied? then Done(last, r.result) else Going(last)
  }

  /** A drain reads with a fixed idle timeout and renews by what was left of its deadline. */
  function DrainTurn(promptId: nat, hard: Time, start: Time): Turn {
    Turn(promptId, CLEANUP_GRACE, if hard > start then hard - start else 0)
  }

  /** The drain of `promptId` over a script. */
  ghost function DrainPlay(promptId: nat, hard: Time, start: Time, nextId: nat, runActive: bool, receiver: bool,
                           script: seq<Pass>): Progress
  {
    var c := DrainTurn(promptId, hard, start);
    Play(c, Entry(start, c, hard, nextId, runActive, receiver, None), script)
  }

  /** Whatever arrives, and with any clock that never goes back, a drain keeps its deadline:
      that holds exactly when its receiver is gone or its deadline has passed already. */
  lemma {:induction false} DrainDeadlineFixedExactlyWhen(promptId: nat, hard: Time, start: Time, nextId: nat,
                                                         runActive: bool, receiver: bool)
    ensures var c := DrainTurn(promptId, hard, start);
            (forall script | Clocked(c, Entry(start, c, hard, nextId, runActive, receiver, None), start, script) ::
               DrainPlay(promptId, hard, start, nextId, runActive, receiver, script).s.hard == hard)
            <==> !receiver || hard <= start
  {
    var c := DrainTurn(promptId, hard, start);
    var s := Entry(start, c, hard, nextId, runActive, receiver, None);
    DeadlineFixedExactlyWhen(c, s, start);
    forall script | Clocked(c, s, start, script)
      ensures DrainPlay(promptId, hard, start, nextId, runActive, receiver, script) == Play(c, s, script)
    {
    }
  }

  /** A drain of five seconds with its receiver still installed, and one steer answered four
      seconds in, runs for nine. */
  lemma {:induction false} StopDuringWriteRenews(promptId: nat, nextId: nat)
    ensures var script := [Pass(0, Read(Msg(Message(None, Some(SessionUpdate(false, SetRun)), false)), 0, 0)),
                           Pass(0, Steer(true)),
                           Pass(4_000, Read(Msg(Message(Some(Number(nextId)), None, false)), 4_000, 4_000))];
            DrainPlay(promptId, 5_000, 0, nextId, false, true, script).s.hard == 9_000
  {
    var c := DrainTurn(promptId, 5_000, 0);
    var s := Entry(0, c, 5_000, nextId, false, true, None);
    var a := Pass(0, Read(Msg(Message(None, Some(SessionUpdate(false, SetRun)), false)), 0, 0));
    var b := Pass(0, Steer(true));
    var d := Pass(4_000, Read(Msg(Message(Some(Number(nextId)), None, false)), 4_000, 4_000));
    PlayTwo(c, s, a, b);
    assert [a, b, d][..2] == [a, b];
    assert Play(c, s, [a, b, d]) == Advance(c, Play(c, s, [a, b]).s, d);
  }

  /** Every request taken up has been answered, but for the outstanding one. */
  predicate Tallied(s: Loop) {
    |s.ids| == |s.acks| + if s.pending.Some? then 1 else 0
  }

  lemma {:induction false} AdvanceTallied(c: Turn, s: Loop, p: Pass)
    requires Tallied(s)
    ensures Tallied(Advance(c, s, p).s)
  {
    if p.top < Deadline(s) && p.select.Read? && p.select.result.Msg? {
      hide TakeMessage, Dispatch;
      var m := p.select.result.message;
      var t := s.(idle := p.select.at + c.idleTimeout, lastActivity := p.select.at);
      MessageCases(c, s, m, p.select.at, p.select.again, t, Advance(c, s, p));
      DispatchKeeps(c, t, m, p.select.again, Dispatch(c, t, m, p.select.again));
    }
  }

  /** What `cancel_with_cleanup` makes of the deadline the turn left behind. */
  function DrainDeadline(stored: Option<Time>, now: Time): Time {
    if stored.Some? && stored.value > now + CLEANUP_GRACE then stored.value else now + CLEANUP_GRACE
  }

  lemma {:induction false} PlayNone(c: Turn, s: Loop, script: seq<Pass>)
    ensures Play(c, s, script[..0]) == Going(s)
  {
  }

  lemma {:induction false} Onward(c: Turn, s: Loop, script: seq<Pass>, i: nat)
    requires i < |script| && Play(c, s, script[..i]).Going?
    ensures Play(c, s, script[..i + 1]) == Advance(c, Play(c, s, script[..i]).s, script[i])
  {
    assert script[..i + 1][..i] == script[..i];
  }

  /** Once the loop has returned, nothing that follows matters. */
  lemma {:induction false} Settled(c: Turn, s: Loop, script: seq<Pass>, i: nat)
    requires i <= |script| && Play(c, s, script[..i]).Done?
    ensures Play(c, s, script) == Play(c, s, script[..i])
    decreases |script|
  {
    if i == |script| {
      assert script[..i] == script;
    } else {
      var front := script[..|script| - 1];
      assert front[..i] == script[..i];
      Settled(c, s, front, i);
    }
  }
}
