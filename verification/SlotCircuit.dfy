/** The per-slot circuit breaker and what it permits over a whole run. Times are in
    milliseconds of a clock that never goes back. */
module SlotCircuit {
  import opened Clock
  import opened Text

  const THRESHOLD: nat := 3
  const WINDOW: nat := 60_000
  const COOLDOWN: nat := 300_000
  const BASE_DELAY: nat := 1_000
  const MAX_DELAY: nat := 30_000

  datatype Verdict = Respawn(delay: real) | CircuitOpen | HalfOpenProbe

  /** The crash times still inside the window at `now`. */
  function Recent(ts: seq<Time>, now: Time): seq<Time> {
    if ts == [] then []
    else Recent(ts[..|ts| - 1], now) + if now - ts[|ts| - 1] < WINDOW then [ts[|ts| - 1]] else []
  }

  /** `1 << n` */
  function PowerOfTwo(n: nat): nat {
    if n == 0 then 1 else 2 * PowerOfTwo(n - 1)
  }

  datatype Circuit = Circuit(crashes: seq<Time>, open: Option<Time>)

  /** What the breaker answered to one call. */
  datatype Answer =
    | Respawned(at: Time)  // a crash, respawned after a backoff
    | Probed(at: Time)     // the one attempt after the cooldown
    | Refilled(at: Time)   // an empty slot refilled with no circuit open
    | Opened(at: Time)     // a crash or a failed spawn that opened the circuit
    | Refused(at: Time)    // a crash or a refill while the circuit was open

  /** A probe allowed: the history is seeded so that the next crash in the window reopens. */
  function Probing(now: Time): Circuit { Circuit([now, now], None) }

  function CrashStep(c: Circuit, now: Time): (Circuit, Answer) {
    if c.open.Some? then
      if now >= c.open.value then (Probing(now), Probed(now)) else (c, Refused(now))
    else
      var recent := Recent(c.crashes + [now], now);
      if |recent| >= THRESHOLD then (Circuit(recent, Some(now + COOLDOWN)), Opened(now))
      else (Circuit(recent, None), Respawned(now))
  }

  function SpawnFailedStep(c: Circuit, now: Time): (Circuit, Answer) {
    (c.(open := Some(now + COOLDOWN)), Opened(now))
  }

  function RefillStep(c: Circuit, now: Time): (Circuit, Answer) {
    if c.open.None? then (c, Refilled(now))
    else if now >= c.open.value then (Probing(now), Probed(now))
    else (c, Refused(now))
  }

  class SlotBreaker {
    var crashTimes: seq<Time>
    var openUntil: Option<Time>
    var respawnInFlight: bool

    function State(): Circuit
      reads this
    {
      Circuit(crashTimes, openUntil)
    }

    constructor ()
      ensures State() == Circuit([], None) && !respawnInFlight
    {
      crashTimes, openUntil, respawnInFlight := [], None, false;
    }

    method SeedForProbe(now: Time)
      modifies this`crashTimes, this`openUntil
      ensures State() == Probing(now)
    {
      crashTimes := [];
      for i := 0 to THRESHOLD - 1
        invariant crashTimes == seq(i, _ => now)
      {
        crashTimes := crashTimes + [now];
      }
      assert crashTimes == [now, now];
      openUntil := None;
    }

    /** `record_crash`. The backoff is one second after a first crash in the window and two
        after a second, give or take a fifth: the 30-second ceiling is out of reach. */
    method RecordCrash(now: Time, jitter: real) returns (v: Verdict)
      requires 0.0 <= jitter < 1.0
      modifies this`crashTimes, this`openUntil
      ensures var (c, a) := CrashStep(old(State()), now);
              State() == c
              && (v.Respawn? <==> a.Respawned?) && (v.HalfOpenProbe? <==> a.Probed?)
              && (v.CircuitOpen? <==> a.Opened? || a.Refused?)
      ensures v.Respawn? ==>
                var base := if Recent(old(crashTimes), now) == [] then 1000.0 else 2000.0;
                base * 0.8 <= v.delay < base * 1.2
    {
      if openUntil.Some? {
        if now >= openUntil.value {
          SeedForProbe(now);
          return HalfOpenProbe;
        } else {
          return CircuitOpen;
        }
      }
      crashTimes := Recent(crashTimes + [now], now);
      var recent := |crashTimes|;
      if recent >= THRESHOLD {
        openUntil := Some(now + COOLDOWN);
        return CircuitOpen;
      }
      assert recent == |Recent(old(crashTimes), now)| + 1 by {
        RecentSnoc(old(crashTimes), now, now);
      }
      var doublings := if recent - 1 < 5 then recent - 1 else 5;
      var base := BASE_DELAY * PowerOfTwo(doublings);
      var capped := if base < MAX_DELAY then base else MAX_DELAY;
      assert PowerOfTwo(0) == 1 && PowerOfTwo(1) == 2;
      assert capped == if recent == 1 then 1_000 else 2_000;
      var factor := 0.8 + jitter * 0.4;
      v := Respawn(capped as real * factor);
    }

    method MarkSpawnFailed(now: Time)
      modifies this`openUntil
      ensures State() == SpawnFailedStep(old(State()), now).0
    {
      openUntil := Some(now + COOLDOWN);
    }

    method CanRefill(now: Time) returns (allowed: bool)
      modifies this`crashTimes, this`openUntil
      ensures State() == RefillStep(old(State()), now).0
      ensures allowed <==> !RefillStep(old(State()), now).1.Refused?
    {
      if openUntil.Some? {
        if now >= openUntil.value {
          SeedForProbe(now);
          return true;
        }
        return false;
      }
      return true;
    }
  }

  // ---------------------------------------------------------------- runs

  datatype Op = Crash(at: Time) | SpawnFailed(at: Time) | Refill(at: Time)

  datatype History = History(c: Circuit, log: seq<Answer>)

  function Answered(c: Circuit, op: Op): (Circuit, Answer) {
    match op
    case Crash(at) => CrashStep(c, at)
    case SpawnFailed(at) => SpawnFailedStep(c, at)
    case Refill(at) => RefillStep(c, at)
  }

  function Run(ops: seq<Op>): (h: History)
    ensures |h.log| == |ops|
  {
    if ops == [] then History(Circuit([], None), [])
    else
      var h := Run(ops[..|ops| - 1]);
      var (c, a) := Answered(h.c, ops[|ops| - 1]);
      History(c, h.log + [a])
  }

  /** The clock never goes back. */
  ghost predicate Timely(ops: seq<Op>) {
    forall i, j | 0 <= i < j < |ops| :: ops[i].at <= ops[j].at
  }

  /** Respawns inside the window at `now`, a probe counting for two. */
  function Permits(log: seq<Answer>, now: Time): nat {
    if log == [] then 0
    else
      var a := log[|log| - 1];
      Permits(log[..|log| - 1], now)
      + if now - a.at >= WINDOW then 0 else if a.Respawned? then 1 else if a.Probed? then 2 else 0
  }

  lemma {:induction false} RecentAgain(ts: seq<Time>, now: Time, later: Time)
    requires now <= later
    ensures Recent(Recent(ts, now), later) == Recent(ts, later)
  {
    if ts != [] {
      var (front, t) := (ts[..|ts| - 1], ts[|ts| - 1]);
      RecentAgain(front, now, later);
      if now - t < WINDOW {
        var kept := Recent(front, now) + [t];
        assert kept[..|kept| - 1] == Recent(front, now);
      } else {
        assert Recent(ts, now) == Recent(front, now);
        assert Recent(ts, later) == Recent(front, later);
      }
    }
  }

  lemma {:induction false} RecentSnoc(ts: seq<Time>, t: Time, now: Time)
    ensures Recent(ts + [t], now) == Recent(ts, now) + if now - t < WINDOW then [t] else []
  {
    assert (ts + [t])[..|ts|] == ts;
  }

  lemma {:induction false} PermitsSnoc(log: seq<Answer>, a: Answer, now: Time)
    ensures Permits(log + [a], now)
         == Permits(log, now)
            + if now - a.at >= WINDOW then 0 else if a.Respawned? then 1 else if a.Probed? then 2 else 0
  {
    assert (log + [a])[..|log|] == log;
  }

  /** While the circuit is closed the crash history is the permits still in the window;
      while it is open every permit is a cooldown older than its end. */
  ghost predicate Covered(h: History, clock: Time) {
    && (forall i | 0 <= i < |h.log| :: h.log[i].at <= clock)
    && (h.c.open.Some? ==>
          h.c.open.value <= clock + COOLDOWN
          && forall i | 0 <= i < |h.log| :: !h.log[i].Refused? ==> h.log[i].at + COOLDOWN <= h.c.open.value)
    && (h.c.open.None? ==>
          (forall i | 0 <= i < |h.log| && h.log[i].Opened? :: h.log[i].at + COOLDOWN <= clock)
          && forall now | now >= clock :: Permits(h.log, now) == |Recent(h.c.crashes, now)|)
  }

  lemma {:induction false} NoPermits(log: seq<Answer>, now: Time)
    requires forall i | 0 <= i < |log| && !log[i].Refused? :: now - log[i].at >= WINDOW
    ensures Permits(log, now) == 0
  {
    if log != [] {
      NoPermits(log[..|log| - 1], now);
    }
  }

  /** A crash with the circuit closed, on the crash history `kept` it leaves. */
  lemma {:induction false} CrashPermits(h: History, clock: Time, now: Time, kept: seq<Time>, later: Time)
    requires Covered(h, clock) && clock <= now <= later && h.c.open.None?
    requires kept == Recent(h.c.crashes + [now], now)
    ensures Permits(h.log + [Respawned(now)], later) == |Recent(kept, later)|
    ensures later == now ==> Recent(kept, later) == kept && Permits(h.log, now) + 1 == |kept|
  {
    RecentAgain(h.c.crashes + [now], now, later);
    RecentSnoc(h.c.crashes, now, later);
    PermitsSnoc(h.log, Respawned(now), later);
  }

  /** A crash that leaves the circuit closed. */
  lemma {:induction false} RespawnCovered(h: History, clock: Time, now: Time, kept: seq<Time>)
    requires Covered(h, clock) && clock <= now && h.c.open.None?
    requires kept == Recent(h.c.crashes + [now], now)
    ensures Covered(History(Circuit(kept, None), h.log + [Respawned(now)]), now)
  {
    forall later | later >= now
      ensures Permits(h.log + [Respawned(now)], later) == |Recent(kept, later)|
    {
      CrashPermits(h, clock, now, kept, later);
    }
  }

  /** A crash with the circuit closed opens it exactly when it finds two permits or more in
      the window. */
  lemma {:induction false} CrashCovered(h: History, clock: Time, now: Time)
    requires Covered(h, clock) && clock <= now && h.c.open.None?
    ensures var (c, a) := CrashStep(h.c, now); Covered(History(c, h.log + [a]), now)
    ensures CrashStep(h.c, now).1 == if Permits(h.log, now) >= 2 then Opened(now) else Respawned(now)
  {
    var kept := Recent(h.c.crashes + [now], now);
    CrashPermits(h, clock, now, kept, now);
    if |kept| >= THRESHOLD {
      assert CrashStep(h.c, now) == (Circuit(kept, Some(now + COOLDOWN)), Opened(now));
    } else {
      assert CrashStep(h.c, now) == (Circuit(kept, None), Respawned(now));
      RespawnCovered(h, clock, now, kept);
    }
  }

  lemma {:induction false} ProbeCovered(h: History, clock: Time, now: Time)
    requires Covered(h, clock) && clock <= now && h.c.open.Some? && h.c.open.value <= now
    ensures Covered(History(Probing(now), h.log + [Probed(now)]), now)
  {
    forall later | later >= now
      ensures Permits(h.log + [Probed(now)], later) == |Recent([now, now], later)|
    {
      NoPermits(h.log, later);
      PermitsSnoc(h.log, Probed(now), later);
      RecentSnoc([now], now, later);
      RecentSnoc([], now, later);
      assert [now] + [now] == [now, now] && [] + [now] == [now];
    }
  }

  lemma {:induction false} RefilledCovered(h: History, clock: Time, now: Time)
    requires Covered(h, clock) && clock <= now && h.c.open.None?
    ensures Covered(History(h.c, h.log + [Refilled(now)]), now)
  {
    forall later | later >= now
      ensures Permits(h.log + [Refilled(now)], later) == |Recent(h.c.crashes, later)|
    {
      PermitsSnoc(h.log, Refilled(now), later);
    }
  }

  lemma {:induction false} AnswerCovered(h: History, clock: Time, op: Op)
    requires Covered(h, clock) && clock <= op.at
    ensures var (c, a) := Answered(h.c, op); Covered(History(c, h.log + [a]), op.at)
  {
    if h.c.open.None? {
      match op
      case Crash(at) => CrashCovered(h, clock, at);
      case SpawnFailed(at) =>
      case Refill(at) => RefilledCovered(h, clock, at);
    } else if h.c.open.value <= op.at && !op.SpawnFailed? {
      ProbeCovered(h, clock, op.at);
    }
  }

  lemma {:induction false} RunCovered(ops: seq<Op>, clock: Time)
    requires Timely(ops) && forall i | 0 <= i < |ops| :: ops[i].at <= clock
    ensures Covered(Run(ops), clock)
  {
    if ops == [] {
    } else {
      var (front, op) := (ops[..|ops| - 1], ops[|ops| - 1]);
      RunCovered(front, op.at);
      AnswerCovered(Run(front), op.at, op);
      LaterCovered(Run(ops), op.at, clock);
    }
  }

  lemma {:induction false} LaterCovered(h: History, clock: Time, later: Time)
    requires Covered(h, clock) && clock <= later
    ensures Covered(h, later)
  {
  }

  lemma {:induction false} LogPrefix(ops: seq<Op>, n: nat)
    requires n <= |ops|
    ensures Run(ops[..n]).log == Run(ops).log[..n]
    ensures n < |ops| ==> Run(ops).log[n] == Answered(Run(ops[..n]).c, ops[n]).1 && Run(ops).log[n].at == ops[n].at
  {
    if n == |ops| {
      assert ops[..n] == ops;
    } else {
      var front := ops[..|ops| - 1];
      assert front[..n] == ops[..n];
      LogPrefix(front, n);
    }
  }

  lemma {:induction false} PermitsGrow(log: seq<Answer>, n: nat, now: Time)
    requires n <= |log|
    ensures Permits(log[..n], now) <= Permits(log, now)
  {
    if n == |log| {
      assert log[..n] == log;
    } else {
      assert log[..|log| - 1][..n] == log[..n];
      PermitsGrow(log[..|log| - 1], n, now);
    }
  }

  lemma {:induction false} CountedBy(log: seq<Answer>, i: nat, n: nat, now: Time)
    requires i < n <= |log| && now - log[i].at < WINDOW
    ensures log[i].Respawned? ==> Permits(log[..i], now) + 1 <= Permits(log[..n], now)
    ensures log[i].Probed? ==> Permits(log[..i], now) + 2 <= Permits(log[..n], now)
  {
    assert log[..i + 1] == log[..i] + [log[i]];
    PermitsSnoc(log[..i], log[i], now);
    assert log[..n][..i + 1] == log[..i + 1];
    PermitsGrow(log[..n], i + 1, now);
  }

  lemma {:induction false} CoveredBefore(ops: seq<Op>, k: nat)
    requires Timely(ops) && k < |ops|
    ensures Covered(Run(ops[..k]), ops[k].at)
    ensures Run(ops[..k]).log == Run(ops).log[..k]
    ensures Run(ops).log[k] == Answered(Run(ops[..k]).c, ops[k]).1 && Run(ops).log[k].at == ops[k].at
    ensures forall i | 0 <= i < k :: Run(ops).log[i] == Run(ops[..k]).log[i]
  {
    RunCovered(ops[..k], ops[k].at);
    LogPrefix(ops, k);
  }

  /** The time of the latest opening, unless a probe has followed it. */
  function Pending(log: seq<Answer>): Option<Time> {
    if log == [] then None
    else match log[|log| - 1]
      case Opened(at) => Some(at)
      case Probed(_) => None
      case _ => Pending(log[..|log| - 1])
  }

  lemma {:induction false} OpenIsPending(ops: seq<Op>)
    ensures var h := Run(ops);
            h.c.open == match Pending(h.log) case None => None case Some(at) => Some(at + COOLDOWN)
  {
    if ops != [] {
      hide Recent;
      OpenIsPending(ops[..|ops| - 1]);
      var h := Run(ops);
      assert h.log[..|h.log| - 1] == Run(ops[..|ops| - 1]).log;
    }
  }

  /** The one answer to an operation at `now` after the answers `log`. */
  function Due(log: seq<Answer>, op: Op): Answer {
    if op.SpawnFailed? then Opened(op.at)
    else match Pending(log)
      case Some(at) => if op.at - at >= COOLDOWN then Probed(op.at) else Refused(op.at)
      case None =>
        if op.Refill? then Refilled(op.at)
        else if Permits(log, op.at) >= 2 then Opened(op.at)
        else Respawned(op.at)
  }

  /** In every run each answer is determined by the answers before it. With an opening
      pending, a crash or a refill is a probe once the cooldown has passed and refused until
      then. With none, a refill is allowed, and a crash is respawned exactly when fewer than
      two permits, a probe counting for two, lie in the window. */
  lemma {:induction false} AnswerIsDue(ops: seq<Op>, k: nat)
    requires Timely(ops) && k < |ops|
    ensures Run(ops).log[k] == Due(Run(ops).log[..k], ops[k])
  {
    CoveredBefore(ops, k);
    OpenIsPending(ops[..k]);
    var h := Run(ops[..k]);
    if ops[k].Crash? && h.c.open.None? {
      CrashCovered(h, ops[k].at, ops[k].at);
    }
  }

  /** In every run, any three respawns after a backoff span at least the window: no window
      shorter than 60 seconds holds more than two. */
  lemma {:induction false} RespawnsAreRare(ops: seq<Op>, i: nat, j: nat, k: nat)
    requires Timely(ops) && i < j < k < |ops|
    requires Run(ops).log[i].Respawned? && Run(ops).log[j].Respawned? && Run(ops).log[k].Respawned?
    ensures Run(ops).log[k].at - Run(ops).log[i].at >= WINDOW
  {
    var (log, now) := (Run(ops).log, Run(ops).log[k].at);
    CoveredBefore(ops, k);
    CrashCovered(Run(ops[..k]), now, now);
    PermitsSnoc(log[..k], log[k], now);
    LogPrefix(ops, i);
    LogPrefix(ops, j);
    if now - log[i].at < WINDOW {
      assert log[i].at <= log[j].at;
      CountedBy(log, j, k, now);
      CountedBy(log, i, j, now);
    }
  }

  /** In every run, nothing is permitted within the cooldown of an opening: no respawn, no
      probe and no refill. */
  lemma {:induction false} CooldownIsKept(ops: seq<Op>, i: nat, k: nat)
    requires Timely(ops) && i < k < |ops|
    requires Run(ops).log[i].Opened?
    requires var a := Run(ops).log[k]; a.Respawned? || a.Probed? || a.Refilled?
    ensures Run(ops).log[k].at - Run(ops).log[i].at >= COOLDOWN
  {
    CoveredBefore(ops, k);
    assert Run(ops[..k]).log[i].Opened?;
  }

  lemma {:induction false} CrashOnProbe(h: History, now: Time, i: nat)
    requires Covered(h, now) && i < |h.log| && h.log[i].Probed? && now - h.log[i].at < WINDOW
    ensures var (c, a) := CrashStep(h.c, now);
            (a.Opened? || a.Refused?) && c.open.Some? && now < c.open.value
  {
    if h.c.open.None? {
      CountedBy(h.log, i, |h.log|, now);
      assert h.log[..|h.log|] == h.log;
      CrashCovered(h, now, now);
    }
  }

  lemma {:induction false} RunNext(ops: seq<Op>, k: nat)
    requires k < |ops|
    ensures Run(ops[..k + 1]).c == Answered(Run(ops[..k]).c, ops[k]).0
  {
    assert ops[..k + 1][..k] == ops[..k];
  }

  /** In every run, a crash less than the window after a probe finds the circuit open or
      opens it again. */
  lemma {:induction false} CrashAfterProbeReopens(ops: seq<Op>, i: nat, k: nat)
    requires Timely(ops) && i < k < |ops|
    requires Run(ops).log[i].Probed? && ops[k].Crash? && ops[k].at - Run(ops).log[i].at < WINDOW
    ensures Run(ops).log[k].Opened? || Run(ops).log[k].Refused?
    ensures Run(ops[..k + 1]).c.open.Some? && ops[k].at < Run(ops[..k + 1]).c.open.value
  {
    CoveredBefore(ops, k);
    CrashOnProbe(Run(ops[..k]), ops[k].at, i);
    RunNext(ops, k);
  }
}
