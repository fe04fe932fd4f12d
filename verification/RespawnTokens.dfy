/** Agent slots and respawn tasks: who holds each slot, and the one result every respawn task
    sends back. Whether a circuit allows a respawn is an input of each step. */
module RespawnTokens {
  /** `RespawnResult`: the slot and whether a new agent came up. */
  datatype Report = Report(index: nat, ok: bool)

  function Indices(rs: seq<Report>): multiset<nat> {
    if rs == [] then multiset{} else Indices(rs[..|rs| - 1]) + multiset{rs[|rs| - 1].index}
  }

  /** The bounded result channel. */
  class ResultChannel {
    const capacity: nat
    var queue: seq<Report>

    constructor (capacity: nat)
      ensures this.capacity == capacity && queue == []
    {
      this.capacity := capacity;
      queue := [];
    }

    method TrySend(r: Report) returns (sent: bool)
      modifies this
      ensures sent <==> |old(queue)| < capacity
      ensures queue == if sent then old(queue) + [r] else old(queue)
    {
      sent := |queue| < capacity;
      if sent {
        queue := queue + [r];
      }
    }
  }

  /** `RespawnGuard`: sends a result when the task ends, whatever way it ends. */
  class RespawnGuard {
    const index: nat
    const tx: ResultChannel
    var sent: bool

    constructor (index: nat, tx: ResultChannel)
      ensures this.index == index && this.tx == tx && !sent
    {
      this.index, this.tx, sent := index, tx, false;
    }

    /** Sending consumes the guard: its drop follows at once, and finds it spent unless the
        channel had no room. */
    method Send(ok: bool)
      requires !sent
      modifies this, tx
      ensures sent <==> |old(tx.queue)| < tx.capacity
      ensures |old(tx.queue)| < tx.capacity ==> tx.queue == old(tx.queue) + [Report(index, ok)]
      ensures |old(tx.queue)| >= tx.capacity ==> tx.queue == old(tx.queue)
    {
      sent := tx.TrySend(Report(index, ok));
      Drop();
    }

    method Drop()
      modifies tx
      ensures old(sent) || |old(tx.queue)| >= tx.capacity ==> tx.queue == old(tx.queue)
      ensures !old(sent) && |old(tx.queue)| < tx.capacity ==> tx.queue == old(tx.queue) + [Report(index, false)]
    {
      if !sent {
        var _ := tx.TrySend(Report(index, false));
      }
    }
  }

  /** How a respawn task ends: with a result to send, or panicked or aborted. */
  datatype TaskEnd = Finished(ok: bool) | Panicked

  /** A respawn task ends and its guard reports: with room in the channel, exactly one report,
      a failure if the task never sent one. */
  method EndTask(guard: RespawnGuard, end: TaskEnd)
    requires !guard.sent && |guard.tx.queue| < guard.tx.capacity
    modifies guard, guard.tx
    ensures guard.tx.queue == old(guard.tx.queue) + [ReportOf(guard.index, end)]
  {
    if end.Finished? {
      guard.Send(end.ok);
    } else {
      guard.Drop();
    }
  }

  function ReportOf(index: nat, end: TaskEnd): Report {
    Report(index, end.Finished? && end.ok)
  }

  // -------------------------------------------------------------- fleet

  /** The pool's slots, the agents out on prompt tasks and the pool's record of those tasks,
      the in-flight flags, the respawn tasks still running (by slot), and the results not yet
      collected. */
  datatype Fleet = Fleet(
    agents: seq<bool>,
    out: map<nat, nat>,
    taskMap: map<nat, nat>,
    nextTask: nat,
    inFlight: seq<bool>,
    running: multiset<nat>,
    channel: seq<Report>,
    spawned: nat,
    collected: nat)

  datatype Fate = Healthy | Dead(respawn: bool)

  datatype Op =
    | Claim(slot: nat)
    | PromptDone(task: nat, fate: Fate)
    | PromptPanicked(task: nat, respawn: bool)
    | Maintain(slot: nat, allowed: bool)
    | EndRespawn(slot: nat, end: TaskEnd)
    | Collect

  /** The slots a pool starts with; some may have failed to come up. */
  function Start(agents: seq<bool>): Fleet {
    Fleet(agents, map[], map[], 0, seq(|agents|, _ => false), multiset{}, [], 0, 0)
  }

  function Spawn(f: Fleet, slot: nat): Fleet
    requires slot < |f.inFlight|
  {
    f.(inFlight := f.inFlight[slot := true], running := f.running + multiset{slot}, spawned := f.spawned + 1)
  }

  /** `slot_alive`: idle, or checked out on a task. */
  predicate SlotAlive(f: Fleet, slot: nat) {
    (slot < |f.agents| && f.agents[slot]) || exists t | t in f.taskMap :: f.taskMap[t] == slot
  }

  /** The records of the tasks that are not on `slot`. */
  function Without(tasks: map<nat, nat>, slot: nat): map<nat, nat> {
    map t | t in tasks && tasks[t] != slot :: tasks[t]
  }

  function Step(f: Fleet, op: Op): Fleet
    requires |f.agents| == |f.inFlight| && forall t | t in f.taskMap :: f.taskMap[t] < |f.agents|
    requires forall t | t in f.out :: f.out[t] < |f.agents|
    requires forall i | 0 <= i < |f.channel| :: f.channel[i].index < |f.agents|
  {
    match op
    case Claim(slot) =>
      if slot < |f.agents| && f.agents[slot] then
        f.(agents := f.agents[slot := false], out := f.out[f.nextTask := slot],
           taskMap := f.taskMap[f.nextTask := slot], nextTask := f.nextTask + 1)
      else f
    case PromptDone(task, fate) =>
      // The result carries its agent: the task's record is not looked up.
      if task !in f.out then f
      else
        var slot := f.out[task];
        var g := f.(out := f.out - {task}, taskMap := Without(f.taskMap, slot));
        if fate.Healthy? then g.(agents := g.agents[slot := true])
        else if fate.respawn then Spawn(g, slot) else g
    case PromptPanicked(task, respawn) =>
      // The panic has destroyed the agent: only the record says which it was.
      if task !in f.out then f
      else if task !in f.taskMap then f.(out := f.out - {task})
      else
        var slot := f.taskMap[task];
        var g := f.(out := f.out - {task}, taskMap := f.taskMap - {task});
        if respawn then Spawn(g, slot) else g
    case Maintain(slot, allowed) =>
      if slot < |f.agents| && !SlotAlive(f, slot) && !f.inFlight[slot] && allowed then Spawn(f, slot) else f
    case EndRespawn(slot, end) =>
      if slot !in f.running then f
      else
        var g := f.(running := f.running - multiset{slot});
        if |f.channel| < |f.agents| then g.(channel := g.channel + [ReportOf(slot, end)]) else g
    case Collect =>
      if f.channel == [] then f
      else
        var r := f.channel[0];
        var g := f.(channel := f.channel[1..], inFlight := f.inFlight[r.index := false], collected := f.collected + 1);
        if r.ok then g.(agents := g.agents[r.index := true]) else g
  }

  /** What stands for each slot's respawn: a running task or an uncollected report. */
  ghost function Tokens(f: Fleet): multiset<nat> { f.running + Indices(f.channel) }

  /** Every slot is held once: an idle slot is neither on a task nor respawning, a slot on a
      task is on one task and not respawning, and a slot has a respawn token, exactly one,
      when and only when its in-flight flag is set. */
  ghost predicate Inv(f: Fleet) {
    && |f.agents| == |f.inFlight| && f.out == f.taskMap
    && (forall t | t in f.taskMap ::
          t < f.nextTask && f.taskMap[t] < |f.agents|
          && !f.agents[f.taskMap[t]] && !f.inFlight[f.taskMap[t]])
    && (forall t, u | t in f.taskMap && u in f.taskMap && t != u :: f.taskMap[t] != f.taskMap[u])
    && (forall i | 0 <= i < |f.agents| :: f.inFlight[i] ==> !f.agents[i])
    && (forall i: nat :: Tokens(f)[i] == if i < |f.agents| && f.inFlight[i] then 1 else 0)
    && f.spawned == |Tokens(f)| + f.collected
  }

  lemma {:induction false} IndicesSnoc(rs: seq<Report>, r: Report)
    ensures Indices(rs + [r]) == Indices(rs) + multiset{r.index}
  {
    assert (rs + [r])[..|rs|] == rs;
  }

  lemma {:induction false} IndicesConcat(a: seq<Report>, b: seq<Report>)
    ensures Indices(a + b) == Indices(a) + Indices(b)
  {
    if b == [] {
      assert a + b == a;
    } else {
      IndicesConcat(a, b[..|b| - 1]);
      assert (a + b)[..|a + b| - 1] == a + b[..|b| - 1] && (a + b)[|a + b| - 1] == b[|b| - 1];
    }
  }

  lemma {:induction false} IndicesHead(rs: seq<Report>)
    requires rs != []
    ensures Indices(rs) == multiset{rs[0].index} + Indices(rs[1..])
  {
    IndicesConcat([rs[0]], rs[1..]);
    IndicesSnoc([], rs[0]);
    assert [] + [rs[0]] == [rs[0]] && [rs[0]] + rs[1..] == rs;
  }

  lemma {:induction false} IndexHeld(rs: seq<Report>, i: nat)
    requires i < |rs|
    ensures rs[i].index in Indices(rs)
  {
    if i < |rs| - 1 {
      IndexHeld(rs[..|rs| - 1], i);
    }
  }

  lemma {:induction false} MultisetBound(m: multiset<nat>, n: nat)
    requires forall i: nat :: m[i] <= 1 && (m[i] > 0 ==> i < n)
    ensures |m| <= n
  {
    if n == 0 {
      assert m == multiset{};
    } else {
      var k: nat := n - 1;
      MultisetBound(m[k := 0], k);
    }
  }

  lemma {:induction false} IndicesSize(rs: seq<Report>)
    ensures |Indices(rs)| == |rs|
  {
    if rs != [] {
      IndicesSize(rs[..|rs| - 1]);
    }
  }

  /** The channel always has room for the guard of a running task: tokens never outnumber the
      slots, and a running task holds one that is not in the channel. */
  lemma {:induction false} RoomForEveryGuard(f: Fleet, slot: nat)
    requires Inv(f) && slot in f.running
    ensures slot < |f.agents| && |f.channel| < |f.agents|
  {
    MultisetBound(Tokens(f), |f.agents|);
    IndicesSize(f.channel);
    assert Tokens(f)[slot] >= 1;
    assert |f.running| >= 1;
  }

  lemma {:induction false} ChannelIndices(f: Fleet, i: nat)
    requires Inv(f) && i < |f.channel|
    ensures f.channel[i].index < |f.agents| && f.inFlight[f.channel[i].index]
  {
    IndexHeld(f.channel, i);
    assert Tokens(f)[f.channel[i].index] >= 1;
  }

  lemma {:induction false} SpawnKeepsInv(f: Fleet, slot: nat)
    requires Inv(f) && slot < |f.agents| && !f.agents[slot] && !f.inFlight[slot]
    requires forall t | t in f.taskMap :: f.taskMap[t] != slot
    ensures Inv(Spawn(f, slot))
  {
    var g := Spawn(f, slot);
    assert Tokens(g) == Tokens(f) + multiset{slot};
  }

  lemma {:induction false} EndKeepsInv(f: Fleet, slot: nat, end: TaskEnd)
    requires Inv(f) && slot in f.running
    ensures Inv(f.(running := f.running - multiset{slot}, channel := f.channel + [ReportOf(slot, end)]))
  {
    var g := f.(running := f.running - multiset{slot}, channel := f.channel + [ReportOf(slot, end)]);
    IndicesSnoc(f.channel, ReportOf(slot, end));
    assert Tokens(g) == Tokens(f);
  }

  lemma {:induction false} FreeKeepsInv(f: Fleet, r: Report, rest: seq<Report>, g: Fleet)
    requires Inv(f) && f.channel == [r] + rest && r.index < |f.agents|
    requires g == f.(channel := rest, inFlight := f.inFlight[r.index := false], collected := f.collected + 1)
    ensures Inv(g)
  {
    IndicesHead(f.channel);
    assert f.channel[1..] == rest;
    assert Tokens(g) + multiset{r.index} == Tokens(f);
    assert Tokens(f)[r.index] >= 1;
    assert |Tokens(f)| == |Tokens(g)| + 1;
  }

  lemma {:induction false} IdleKeepsInv(f: Fleet, slot: nat)
    requires Inv(f) && slot < |f.agents| && !f.inFlight[slot]
    requires forall t | t in f.taskMap :: f.taskMap[t] != slot
    ensures Inv(f.(agents := f.agents[slot := true]))
  {
    assert Tokens(f.(agents := f.agents[slot := true])) == Tokens(f);
  }

  lemma {:induction false} ForgetKeepsInv(f: Fleet, tasks: map<nat, nat>)
    requires Inv(f) && forall t | t in tasks :: t in f.taskMap && tasks[t] == f.taskMap[t]
    ensures Inv(f.(out := tasks, taskMap := tasks))
  {
    assert Tokens(f.(out := tasks, taskMap := tasks)) == Tokens(f);
  }

  lemma {:induction false} CollectKeepsInv(f: Fleet)
    requires Inv(f) && f.channel != [] && f.channel[0].index < |f.agents|
    requires forall i | 0 <= i < |f.channel| :: f.channel[i].index < |f.agents|
    ensures Inv(Step(f, Collect))
  {
    var r := f.channel[0];
    var g := f.(channel := f.channel[1..], inFlight := f.inFlight[r.index := false], collected := f.collected + 1);
    ChannelIndices(f, 0);
    FreeKeepsInv(f, r, f.channel[1..], g);
    if r.ok {
      IdleKeepsInv(g, r.index);
    }
  }

  /** Dropping the records of a result's slot drops the record of its task and no other. */
  lemma {:induction false} OneRecord(f: Fleet, task: nat)
    requires Inv(f) && task in f.out
    ensures Without(f.taskMap, f.out[task]) == f.taskMap - {task}
    ensures |f.taskMap| == |Without(f.taskMap, f.out[task])| + 1
  {
    var rest := f.taskMap - {task};
    assert rest[task := f.taskMap[task]] == f.taskMap;
    assert f.taskMap.Keys == rest.Keys + {task};
  }

  lemma {:induction false} PromptDoneKeepsInv(f: Fleet, task: nat, fate: Fate)
    requires Inv(f) && task in f.out
    requires forall i | 0 <= i < |f.channel| :: f.channel[i].index < |f.agents|
    ensures Inv(Step(f, PromptDone(task, fate)))
  {
    hide Tokens, Indices, Without, Spawn;
    var slot := f.out[task];
    var g := f.(out := f.out - {task}, taskMap := Without(f.taskMap, slot));
    OneRecord(f, task);
    ForgetKeepsInv(f, g.taskMap);
    if fate.Healthy? {
      IdleKeepsInv(g, slot);
    } else if fate.respawn {
      SpawnKeepsInv(g, slot);
    }
  }

  lemma {:induction false} PromptPanickedKeepsInv(f: Fleet, task: nat, respawn: bool)
    requires Inv(f) && task in f.out
    requires forall i | 0 <= i < |f.channel| :: f.channel[i].index < |f.agents|
    ensures Inv(Step(f, PromptPanicked(task, respawn)))
  {
    ForgetKeepsInv(f, f.taskMap - {task});
    if respawn {
      SpawnKeepsInv(f.(out := f.out - {task}, taskMap := f.taskMap - {task}), f.taskMap[task]);
    }
  }

  lemma {:induction false} ClaimKeepsInv(f: Fleet, slot: nat)
    requires Inv(f) && slot < |f.agents| && f.agents[slot]
    requires forall i | 0 <= i < |f.channel| :: f.channel[i].index < |f.agents|
    ensures Inv(Step(f, Claim(slot)))
  {
    hide Indices, SlotAlive, Spawn, ReportOf;
    assert Tokens(Step(f, Claim(slot))) == Tokens(f);
  }

  /** Every step is defined and keeps the invariant. */
  lemma {:induction false} StepKeepsInv(f: Fleet, op: Op)
    requires Inv(f)
    ensures forall i | 0 <= i < |f.channel| :: f.channel[i].index < |f.agents|
    ensures Inv(Step(f, op)) && |Step(f, op).agents| == |f.agents|
  {
    hide Tokens, Indices;
    forall i | 0 <= i < |f.channel| ensures f.channel[i].index < |f.agents| { ChannelIndices(f, i); }
    match op
    case Claim(slot) =>
      if slot < |f.agents| && f.agents[slot] { ClaimKeepsInv(f, slot); }
    case PromptDone(task, fate) =>
      if task in f.out { PromptDoneKeepsInv(f, task, fate); }
    case PromptPanicked(task, respawn) =>
      if task in f.out { PromptPanickedKeepsInv(f, task, respawn); }
    case Maintain(slot, allowed) =>
      if slot < |f.agents| && !SlotAlive(f, slot) && !f.inFlight[slot] && allowed { SpawnKeepsInv(f, slot); }
    case EndRespawn(slot, end) =>
      if slot in f.running {
        RoomForEveryGuard(f, slot);
        EndKeepsInv(f, slot, end);
      }
    case Collect =>
      if f.channel != [] { CollectKeepsInv(f); }
  }

  function Run(agents: seq<bool>, ops: seq<Op>): (f: Fleet)
    ensures Inv(f) && |f.agents| == |agents|
  {
    if ops == [] then Start(agents)
    else
      var f := Run(agents, ops[..|ops| - 1]);
      StepKeepsInv(f, ops[|ops| - 1]);
      Step(f, ops[|ops| - 1])
  }

  datatype Holder = Idle | CheckedOut | Respawning | Empty

  /** In every run each slot has exactly one holder, whoever looks at it. */
  lemma {:induction false} OneHolder(agents: seq<bool>, ops: seq<Op>, slot: nat) returns (h: Holder)
    requires slot < |agents|
    ensures var f := Run(agents, ops);
            && (f.agents[slot] <==> h == Idle)
            && ((exists t | t in f.taskMap :: f.taskMap[t] == slot) <==> h == CheckedOut)
            && (f.inFlight[slot] <==> h == Respawning)
            && (!SlotAlive(f, slot) && !f.inFlight[slot] <==> h == Empty)
  {
    var f := Run(agents, ops);
    h := if f.agents[slot] then Idle
         else if f.inFlight[slot] then Respawning
         else if exists t | t in f.taskMap :: f.taskMap[t] == slot then CheckedOut
         else Empty;
  }

  /** Tokens in numbers: every respawn task spawned is still running, has its report in the
      channel, or has had it collected. */
  lemma {:induction false} TokenLedger(f: Fleet)
    requires Inv(f)
    ensures f.spawned == |f.running| + |f.channel| + f.collected
  {
    IndicesSize(f.channel);
    assert |Tokens(f)| == |f.running| + |Indices(f.channel)|;
  }

  /** When a running respawn task ends, however it ends, the channel has room and takes
      exactly one report of it; the slot stays in flight until that is collected. */
  lemma {:induction false} EndedTaskReports(f: Fleet, slot: nat, end: TaskEnd, g: Fleet)
    requires Inv(f) && slot in f.running
    requires forall i | 0 <= i < |f.channel| :: f.channel[i].index < |f.agents|
    requires g == Step(f, EndRespawn(slot, end))
    ensures |f.channel| < |f.agents| && g.channel == f.channel + [ReportOf(slot, end)]
    ensures g.running == f.running - multiset{slot} && g.inFlight == f.inFlight
  {
    RoomForEveryGuard(f, slot);
  }

  /** In every run a collected agent returns to a slot that is vacant. */
  lemma {:induction false} CollectFindsVacantSlot(agents: seq<bool>, ops: seq<Op>)
    ensures var f := Run(agents, ops);
            f.channel != [] ==>
              var slot := f.channel[0].index;
              slot < |agents| && !f.agents[slot] && forall t | t in f.taskMap :: f.taskMap[t] != slot
  {
    var f := Run(agents, ops);
    if f.channel != [] {
      ChannelIndices(f, 0);
    }
  }

  /** The step brings an agent to slot `i`: the agent of a healthy prompt result comes home,
      or a respawn that came up is collected. */
  predicate Fills(f: Fleet, op: Op, i: nat) {
    || (op.PromptDone? && op.fate.Healthy? && op.task in f.out && f.out[op.task] == i)
    || (op.Collect? && f.channel != [] && f.channel[0] == Report(i, true))
  }

  /** The step starts a respawn of slot `i`: its agent came back dead or was lost in a panic
      and the circuit permits one, or maintenance found the slot vacant. */
  predicate Respawns(f: Fleet, op: Op, i: nat) {
    || (op.PromptDone? && op.fate == Dead(true) && op.task in f.out && f.out[op.task] == i)
    || (op.PromptPanicked? && op.respawn && op.task in f.out && op.task in f.taskMap && f.taskMap[op.task] == i)
    || (op == Maintain(i, true) && i < |f.agents| && i < |f.inFlight| && !SlotAlive(f, i) && !f.inFlight[i])
  }

  predicate Mapped(tasks: map<nat, nat>, i: nat) { exists t | t in tasks :: tasks[t] == i }

  predicate OnTask(f: Fleet, i: nat) { Mapped(f.taskMap, i) }

  /** The step takes slot `i` off its task: the task finished or panicked. */
  predicate Returns(f: Fleet, op: Op, i: nat) {
    || (op.PromptDone? && op.task in f.out && f.out[op.task] == i)
    || (op.PromptPanicked? && op.task in f.out && f.out[op.task] == i)
  }

  /** In every run the next step leaves a slot on a task exactly when it was and the task goes
      on, or the slot was idle and is claimed. */
  lemma {:induction false} OnTaskExactlyWhen(agents: seq<bool>, ops: seq<Op>, op: Op, i: nat)
    requires i < |agents|
    ensures var f, g := Run(agents, ops), Run(agents, ops + [op]);
            OnTask(g, i) <==> (OnTask(f, i) && !Returns(f, op, i)) || (op == Claim(i) && f.agents[i])
  {
    var f := Run(agents, ops);
    assert (ops + [op])[..|ops|] == ops;
    StepKeepsInv(f, op);
    InvRanges(f);
    hide Inv, Step, OnTask, Returns;
    TaskAfter(f, op, i);
  }

  lemma {:induction false} MappedAdded(tasks: map<nat, nat>, task: nat, slot: nat, i: nat)
    requires task !in tasks
    ensures Mapped(tasks[task := slot], i) <==> Mapped(tasks, i) || slot == i
  {
    var more := tasks[task := slot];
    assert more[task] == slot;
    assert forall t | t in tasks :: t in more && more[t] == tasks[t];
  }

  lemma {:induction false} MappedWithout(tasks: map<nat, nat>, slot: nat, i: nat)
    ensures Mapped(Without(tasks, slot), i) <==> Mapped(tasks, i) && slot != i
  {
    assert forall t | t in tasks && tasks[t] != slot :: t in Without(tasks, slot);
  }

  lemma {:induction false} MappedDropped(tasks: map<nat, nat>, task: nat, i: nat)
    requires task in tasks && forall t | t in tasks && t != task :: tasks[t] != tasks[task]
    ensures Mapped(tasks - {task}, i) <==> Mapped(tasks, i) && tasks[task] != i
  {
    assert forall t | t in tasks && t != task :: t in tasks - {task};
  }

  lemma {:induction false} TaskAfter(f: Fleet, op: Op, i: nat)
    requires Inv(f) && Ranges(f) && i < |f.agents|
    ensures OnTask(Step(f, op), i) <==> (OnTask(f, i) && !Returns(f, op, i)) || (op == Claim(i) && f.agents[i])
  {
    hide Tokens, Indices, SlotAlive, ReportOf, Without, Mapped;
    match op
    case Claim(slot) =>
      if slot < |f.agents| && f.agents[slot] { MappedAdded(f.taskMap, f.nextTask, slot, i); }
    case PromptDone(task, _) =>
      if task in f.out { MappedWithout(f.taskMap, f.out[task], i); }
    case PromptPanicked(task, _) =>
      if task in f.out { MappedDropped(f.taskMap, task, i); }
    case _ =>
  }

  /** In every run the next step leaves a slot idle exactly when it was and is not claimed,
      or the step fills it; and leaves it in flight exactly when it was and its report is not
      collected, or the step respawns it. */
  lemma {:induction false} SlotAfterExactlyWhen(agents: seq<bool>, ops: seq<Op>, op: Op, i: nat)
    requires i < |agents|
    ensures var f, g := Run(agents, ops), Run(agents, ops + [op]);
            && (g.agents[i] <==> (f.agents[i] && op != Claim(i)) || Fills(f, op, i))
            && (g.inFlight[i] <==> (f.inFlight[i] && !(op.Collect? && f.channel != [] && f.channel[0].index == i))
                                   || Respawns(f, op, i))
  {
    var f := Run(agents, ops);
    assert (ops + [op])[..|ops|] == ops;
    StepKeepsInv(f, op);
    hide Inv, Step, Respawns, Fills;
    assert Ranges(f) by { InvRanges(f); }
    SlotAfter(f, op, i);
    FlightAfter(f, op, i);
  }

  lemma {:induction false} InvRanges(f: Fleet)
    requires Inv(f) && forall k | 0 <= k < |f.channel| :: f.channel[k].index < |f.agents|
    ensures Ranges(f)
  {
  }

  /** The parts of the invariant a slot's next state depends on. */
  ghost predicate Ranges(f: Fleet) {
    && |f.agents| == |f.inFlight| && f.out == f.taskMap
    && (forall t | t in f.taskMap :: f.taskMap[t] < |f.agents|)
    && (forall k | 0 <= k < |f.channel| :: f.channel[k].index < |f.agents|)
  }

  lemma {:induction false} SlotAfter(f: Fleet, op: Op, i: nat)
    requires Ranges(f) && i < |f.agents|
    ensures Step(f, op).agents[i] <==> (f.agents[i] && op != Claim(i)) || Fills(f, op, i)
  {
    hide Without, SlotAlive, ReportOf;
  }

  lemma {:induction false} FlightAfter(f: Fleet, op: Op, i: nat)
    requires Ranges(f) && i < |f.agents|
    ensures Step(f, op).inFlight[i] <==>
            (f.inFlight[i] && !(op.Collect? && f.channel != [] && f.channel[0].index == i)) || Respawns(f, op, i)
  {
    hide Without, SlotAlive, ReportOf;
  }

  /** In every run a finished prompt finds just one record of its agent, the record of its
      own task; the source asserts as much. */
  lemma {:induction false} ResultHasOneRecord(agents: seq<bool>, ops: seq<Op>, task: nat)
    ensures var f := Run(agents, ops);
            task in f.out ==>
              && task in f.taskMap && f.taskMap[task] == f.out[task]
              && |f.taskMap| == |Without(f.taskMap, f.out[task])| + 1
  {
    var f := Run(agents, ops);
    if task in f.out {
      OneRecord(f, task);
    }
  }
}
