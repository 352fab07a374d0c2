/**
 The whole watch manager: every interleaving of starts, token swaps, worker steps, cancellations,
 Close, refused writes, and restarts of the process.
 */
module WatchSystem {
  import opened Base
  import opened Domain
  import opened Store
  import opened Review
  import opened WatchCore
  import opened WatchInvariant
  import opened WatchSections
  import opened WatchSteps
  import opened WatchLifecycle
  import opened WatchWorker

  datatype Sys = Sys(core: Core, workers: map<string, Worker>, clock: Time, boot: Time)

  datatype Event =
    | Advance(to: Time)
    | StartCall(input: StartInput, trigger: Option<int>, io: bool)
    | WorkerMove(id: string, env: Env)
    | CancelByID(login: string, id: string, io: bool)
    | CancelLatest(key: WatchKey, io: bool)
    | CloseCall(keys: seq<WatchKey>, accepted: set<WatchKey>)
    | ReleaseContext(id: string)
    | Restart(to: Time)

  function Init(now: Time): Sys {
    Sys(EmptyCore([]), map[], now, now)
  }

  function MoveWorker(cfg: Config, s: Sys, id: string, env: Env): Sys
    requires id in s.workers
  {
    var k := s.workers[id];
    match k.phase
    case Ready => s.(workers := s.workers[id := k.(phase := BeginPoll(s.core, cfg, id, s.clock))])
    case Fetching => s.(workers := s.workers[id := k.(phase := AfterFetch(env.result, s.clock, id in s.core.done))])
    case Fetched(now, data) => s.(workers := s.workers[id := k.(phase := AfterTriggerRead(now, data, env.trigger))])
    case Marking(now, review, entry) =>
      s.(workers := s.workers[id := k.(phase := AfterMark(now, review, entry, env.marked))])
    case Waiting =>
      if env.cancelledFirst && id in s.core.done then s.(workers := s.workers[id := k.(phase := Exited)])
      else if TickDue(cfg, k, s.clock) then s.(workers := s.workers[id := k.(phase := Ready, polls := k.polls + 1)])
      else s
    case Exited => s
    case _ =>
      var (c, stop) := LockedStep(s.core, cfg, id, k.phase, s.clock, env.io);
      s.(core := c, workers := s.workers[id := AfterPoll(k, stop, s.clock)])
  }

  /** One atomic step; an event that is not enabled changes nothing. */
  function Step(cfg: Config, s: Sys, e: Event): Sys {
    match e
    case Advance(to) => if to >= s.clock then s.(clock := to) else s
    case StartCall(input, trigger, io) =>
      if !ValidStart(input) then s
      else
        var (c, r) := StartLocked(s.core, input, trigger, s.clock, io);
        if r.Running? && !r.reused
        then s.(core := c, workers := s.workers[r.snapshot.watchID := Worker(Ready, 1, None)])
        else s.(core := c)
    case WorkerMove(id, env) => if id in s.workers then MoveWorker(cfg, s, id, env) else s
    case CancelByID(login, id, io) => s.(core := CancelByIDLocked(s.core, login, id, s.clock, io).0)
    case CancelLatest(key, io) => s.(core := CancelLatestLocked(s.core, key, s.clock, io).0)
    case CloseCall(keys, accepted) =>
      if forall k :: k in s.core.active ==> k in keys
      then s.(core := CloseLocked(s.core, keys, s.clock, accepted))
      else s
    case ReleaseContext(id) =>
      if s.core.closed && id in s.core.watches && s.core.watches[id].terminal
      then s.(core := s.core.(done := s.core.done + {id}))
      else s
    case Restart(to) =>
      if to > s.clock then Sys(EmptyCore(Recover(s.core.rows, to, STALE_ON_OPEN)), map[], to, to) else s
  }

  /** The database takes every write of this event. */
  predicate Accepts(e: Event) {
    match e
    case StartCall(_, _, io) => io
    case WorkerMove(_, env) => env.io
    case CancelByID(_, _, io) => io
    case CancelLatest(_, io) => io
    case CloseCall(keys, accepted) => forall k :: k in keys ==> k in accepted
    case _ => true
  }

  function Run(cfg: Config, s: Sys, events: seq<Event>): Sys {
    if events == [] then s else Step(cfg, Run(cfg, s, events[..|events| - 1]), events[|events| - 1])
  }

  // ===== the invariant of the whole system =====

  ghost function Span(cfg: Config, n: int): Time {
    n * cfg.pollInterval
  }

  lemma SpanMonotone(cfg: Config, m: int, n: int)
    requires ValidConfig(cfg) && m <= n
    ensures Span(cfg, m) <= Span(cfg, n)
  {
  }

  lemma SpanNext(cfg: Config, n: int)
    ensures Span(cfg, n + 1) == Span(cfg, n) + cfg.pollInterval
  {
  }

  /** Times, statuses and reasons that a phase carries. */
  ghost predicate PhaseOk(phase: Phase, startedAt: Time, clock: Time) {
    match phase
    case Fetched(now, _) => startedAt <= now <= clock
    case Marking(now, review, _) => startedAt <= now <= clock && DoneStatus(review).Some?
    case Committing(now, _, _) => startedAt <= now <= clock
    case CommittingLow(now, _, _) => startedAt <= now <= clock
    case UpstreamFailing(now, _) => startedAt <= now <= clock
    case Ending(now, status, reason, _, _, hint) =>
      && startedAt <= now <= clock
      && (status == Timeout || status == RateLimited || status == Failed)
      && (status == Failed <==> reason.Some?)
      && (reason == Some(AuthExpired) <==> hint.Some?)
    case _ => true
  }

  /** Past the duration check of its poll. */
  ghost predicate Checked(phase: Phase) {
    !phase.Ready? && !phase.Exited? && (phase.Ending? ==> phase.counted)
  }

  /** The poll is over. */
  ghost predicate Between(phase: Phase) {
    phase.Waiting? || phase.Exited?
  }

  ghost predicate Timely(cfg: Config, w: Watch, k: Worker, clock: Time) {
    && w.startedAt + Span(cfg, k.polls - 1) <= clock
    && (k.tickerAt.Some? ==> w.startedAt <= k.tickerAt.value)
    && (k.phase.Waiting? ==> k.tickerAt.Some?)
    && (Checked(k.phase) ==> Span(cfg, k.polls - 1) < cfg.maxWatchDuration)
    && (k.polls >= 2 ==> Span(cfg, k.polls - 2) < cfg.maxWatchDuration)
    && w.pollsDone <= (if Between(k.phase) then k.polls else k.polls - 1)
    && (w.pollsDone > 0 ==> Span(cfg, w.pollsDone - 1) < cfg.maxWatchDuration)
  }

  /** A worker has returned only if its watch ended. */
  ghost predicate Fine(cfg: Config, w: Watch, k: Worker, clock: Time) {
    && k.polls >= 1
    && (k.phase.Exited? ==> w.terminal)
    && PhaseOk(k.phase, w.startedAt, clock)
    && Timely(cfg, w, k, clock)
  }

  ghost predicate WorkerFine(cfg: Config, s: Sys, id: string) {
    id in s.core.watches ==> id in s.workers && Fine(cfg, s.core.watches[id], s.workers[id], s.clock)
  }

  /** An ID minted by this process, or before it started. */
  ghost predicate Minted(id: string, boot: Time, clock: Time, idSeq: nat) {
    exists t: Time, n: nat :: id == WatchID(t, n) && t <= clock && (t < boot || n <= idSeq)
  }

  ghost predicate RowMinted(s: Sys, i: int) {
    0 <= i < |s.core.rows| ==> Minted(s.core.rows[i].id, s.boot, s.clock, s.core.idSeq)
  }

  ghost predicate SysInv(cfg: Config, s: Sys) {
    && Inv(s.core, cfg)
    && Stamped(s.core, s.clock)
    && s.workers.Keys == s.core.watches.Keys
    && (forall id {:trigger WorkerFine(cfg, s, id)} :: WorkerFine(cfg, s, id))
    && (forall i {:trigger RowMinted(s, i)} :: RowMinted(s, i))
    && s.boot <= s.clock
  }
}
