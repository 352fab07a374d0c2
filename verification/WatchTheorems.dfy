/** What holds in every run of the watch manager. */
module WatchTheorems {
  import opened Base
  import opened Domain
  import opened Store
  import opened Review
  import opened WatchCore
  import opened WatchInvariant
  import opened WatchSections
  import opened WatchSteps
  import opened WatchLifecycle
  import opened WatchWorker
  import opened WatchSystem
  import opened WatchSafety

  // ----- the induction -----

  lemma InitInv(cfg: Config, now: Time)
    ensures SysInv(cfg, Init(now))
  {
  }

  lemma RestartKeeps(cfg: Config, s: Sys, to: Time)
    requires SysInv(cfg, s) && s.clock < to
    ensures SysInv(cfg, Step(cfg, s, Restart(to)))
  {
    var rows, rows2 := s.core.rows, Recover(s.core.rows, to, STALE_ON_OPEN);
    var s2 := Step(cfg, s, Restart(to));
    ToSecondMonotone(s.clock, to);
    forall i, j ensures RowsApart(rows2, i, j) { assert RowsApart(rows, i, j); }
    forall i ensures RowShaped(rows2, i) { assert RowShaped(rows, i); }
    forall i ensures RowBefore(rows2, i, to) { assert RowBefore(rows, i, s.clock); }
    forall i ensures RowMinted(s2, i) {
      assert RowMinted(s, i);
      if 0 <= i < |rows| {
        var t: Time, n: nat :| rows[i].id == WatchID(t, n) && t <= s.clock;
        assert rows2[i].id == WatchID(t, n) && t <= to && t < to;
      }
    }
  }

  lemma StepKeeps(cfg: Config, s: Sys, e: Event)
    requires SysInv(cfg, s) && ValidConfig(cfg)
    ensures SysInv(cfg, Step(cfg, s, e))
    ensures !e.Restart? ==> Advances(s.core, Step(cfg, s, e).core)
    ensures Accepts(e) ==> Step(cfg, s, e).core.lost <= s.core.lost
  {
    AdvancesReflexive(s.core);
    match e {
      case Advance(to) => if to >= s.clock { AdvanceKeeps(cfg, s, to); }
      case StartCall(input, trigger, io) => StartKeeps(cfg, s, input, trigger, io);
      case WorkerMove(id, env) => if id in s.workers { WorkerMoveKeeps(cfg, s, id, env); }
      case CancelByID(_, _, _) => CancelKeeps(cfg, s, e);
      case CancelLatest(_, _) => CancelKeeps(cfg, s, e);
      case CloseCall(keys, accepted) =>
        if forall k :: k in s.core.active ==> k in keys { CloseKeeps(cfg, s, keys, accepted); }
      case ReleaseContext(id) =>
        if s.core.closed && id in s.core.watches && s.core.watches[id].terminal { ReleaseKeeps(cfg, s, id); }
      case Restart(to) => if to > s.clock { RestartKeeps(cfg, s, to); }
    }
  }

  lemma {:induction false} RunKeeps(cfg: Config, s: Sys, events: seq<Event>)
    requires SysInv(cfg, s) && ValidConfig(cfg)
    ensures SysInv(cfg, Run(cfg, s, events))
  {
    if events != [] {
      RunKeeps(cfg, s, events[..|events| - 1]);
      StepKeeps(cfg, Run(cfg, s, events[..|events| - 1]), events[|events| - 1]);
    }
  }

  /** The state after any sequence of events since the database was first created. */
  ghost function Reached(cfg: Config, start: Time, events: seq<Event>): Sys {
    Run(cfg, Init(start), events)
  }

  lemma ReachedInv(cfg: Config, start: Time, events: seq<Event>)
    requires ValidConfig(cfg)
    ensures SysInv(cfg, Reached(cfg, start, events))
  {
    InitInv(cfg, start);
    RunKeeps(cfg, Init(start), events);
  }

  // ----- one process: nothing is undone -----

  ghost predicate SameProcess(events: seq<Event>) {
    forall i :: 0 <= i < |events| ==> !events[i].Restart?
  }

  lemma {:induction false} RunAdvances(cfg: Config, s: Sys, events: seq<Event>)
    requires SysInv(cfg, s) && ValidConfig(cfg) && SameProcess(events)
    ensures Advances(s.core, Run(cfg, s, events).core)
  {
    if events == [] {
      AdvancesReflexive(s.core);
    } else {
      var before := events[..|events| - 1];
      RunKeeps(cfg, s, before);
      RunAdvances(cfg, s, before);
      StepKeeps(cfg, Run(cfg, s, before), events[|events| - 1]);
      AdvancesTransitive(s.core, Run(cfg, s, before).core, Run(cfg, s, events).core);
    }
  }

  /** An ended watch never changes again, and a link to a trigger row is never replaced. */
  lemma EndedForever(cfg: Config, start: Time, past: seq<Event>, future: seq<Event>, id: string)
    requires ValidConfig(cfg) && SameProcess(future) && id in Reached(cfg, start, past).core.watches
    ensures var w := Reached(cfg, start, past).core.watches[id];
      var later := Run(cfg, Reached(cfg, start, past), future).core;
      && id in later.watches
      && (w.terminal ==> later.watches[id] == w)
      && (w.triggerLogID.Some? ==> later.watches[id].triggerLogID == w.triggerLogID)
  {
    ReachedInv(cfg, start, past);
    RunAdvances(cfg, Reached(cfg, start, past), future);
    assert FollowsAt(Reached(cfg, start, past).core, Run(cfg, Reached(cfg, start, past), future).core, id);
  }

  // ----- the active map -----

  /** In every interleaving the active map is exactly the map from key to ID of the live watches. */
  lemma ActiveIsLive(cfg: Config, start: Time, events: seq<Event>, k: WatchKey, id: string)
    requires ValidConfig(cfg)
    ensures var c := Reached(cfg, start, events).core;
      (k in c.active && c.active[k] == id) <==> (Live(c, id) && c.watches[id].key == k)
  {
    ReachedInv(cfg, start, events);
    var c := Reached(cfg, start, events).core;
    assert KeyIndexed(c, k) && WatchIndexed(c, id);
  }

  /** After Close nothing is active again in this process. */
  lemma ClosedForever(cfg: Config, start: Time, past: seq<Event>, future: seq<Event>)
    requires ValidConfig(cfg) && SameProcess(future) && Reached(cfg, start, past).core.closed
    ensures Run(cfg, Reached(cfg, start, past), future).core.active == map[]
  {
    ReachedInv(cfg, start, past);
    RunKeeps(cfg, Reached(cfg, start, past), future);
    RunAdvances(cfg, Reached(cfg, start, past), future);
  }

  // ----- workers -----

  /** Every watch has one worker, and a worker has returned only if its watch ended. */
  lemma NoOrphans(cfg: Config, start: Time, events: seq<Event>, id: string)
    requires ValidConfig(cfg)
    ensures var s := Reached(cfg, start, events);
      && s.workers.Keys == s.core.watches.Keys
      && (Live(s.core, id) ==> !s.workers[id].phase.Exited?)
      && (id in s.core.done ==> !Live(s.core, id))
  {
    ReachedInv(cfg, start, events);
    var s := Reached(cfg, start, events);
    assert WorkerFine(cfg, s, id) && ReleasedAt(s.core, id);
  }

  // ----- memory and table -----

  /**
   A live watch has an active row under its own key, a watch whose last write was taken is exactly its
   row, and a row is active exactly if its watch is live or ended with its last write refused.
   */
  lemma TableFollowsMemory(cfg: Config, start: Time, events: seq<Event>, id: string, i: nat)
    requires ValidConfig(cfg)
    ensures var c := Reached(cfg, start, events).core;
      var n := Find(c.rows, id);
      && (Live(c, id) ==> n < |c.rows| && c.rows[n].isActive && c.rows[n].key == c.watches[id].key)
      && (id in c.watches && id !in c.lost ==> n < |c.rows| && c.rows[n] == Stored(EntryOf(c.watches[id])))
      && (i < |c.rows| ==> (c.rows[i].isActive <==> Live(c, c.rows[i].id) || c.rows[i].id in c.lost))
  {
    ReachedInv(cfg, start, events);
    var c := Reached(cfg, start, events).core;
    assert RowMatches(c, id) && Accounted(c, i);
    if i < |c.rows| { assert RowMatches(c, c.rows[i].id) && RowsApart(c.rows, i, Find(c.rows, c.rows[i].id)); }
  }

  ghost predicate AllAccept(events: seq<Event>) {
    forall i :: 0 <= i < |events| ==> Accepts(events[i])
  }

  lemma {:induction false} NothingLost(cfg: Config, s: Sys, events: seq<Event>)
    requires SysInv(cfg, s) && ValidConfig(cfg) && s.core.lost == {} && AllAccept(events)
    ensures Run(cfg, s, events).core.lost == {}
  {
    if events != [] {
      var before := events[..|events| - 1];
      NothingLost(cfg, s, before);
      RunKeeps(cfg, s, before);
      StepKeeps(cfg, Run(cfg, s, before), events[|events| - 1]);
    }
  }

  /**
   When no write fails, across any number of restarts, the active rows are exactly the active map,
   and every valid Start on an open manager succeeds: the unique index never rejects one.
   */
  lemma NoFaultRun(cfg: Config, start: Time, events: seq<Event>, k: WatchKey, id: string, input: StartInput,
          trigger: Option<int>)
    requires ValidConfig(cfg) && AllAccept(events)
    ensures var s := Reached(cfg, start, events);
      var c := s.core;
      && (k in c.active && c.active[k] == id <==>
          exists i :: 0 <= i < |c.rows| && c.rows[i].isActive && c.rows[i].id == id && c.rows[i].key == k)
      && (ValidStart(input) && !c.closed ==> StartLocked(c, input, trigger, s.clock, true).1.Running?)
  {
    ReachedInv(cfg, start, events);
    InitInv(cfg, start);
    NothingLost(cfg, Init(start), events);
    var s := Reached(cfg, start, events);
    var c := s.core;
    assert KeyIndexed(c, k) && RowMatches(c, id) && WatchIndexed(c, id);
    forall i | 0 <= i < |c.rows| && c.rows[i].isActive && c.rows[i].id == id && c.rows[i].key == k
      ensures k in c.active && c.active[k] == id
    {
      assert Accounted(c, i) && RowsApart(c.rows, i, Find(c.rows, id));
    }
    if ValidStart(input) && !c.closed { StartSucceeds(cfg, s, input, trigger); }
  }

  lemma StartSucceeds(cfg: Config, s: Sys, input: StartInput, trigger: Option<int>)
    requires SysInv(cfg, s) && ValidConfig(cfg) && s.core.lost == {} && ValidStart(input) && !s.core.closed
    ensures StartLocked(s.core, input, trigger, s.clock, true).1.Running?
  {
    var c := s.core;
    assert KeyIndexed(c, input.key);
    if input.key in c.active {
      assert StampedAt(c, s.clock, c.active[input.key]);
      ReuseSteps(c, cfg, c.active[input.key], input.token, trigger, s.clock, true);
    } else {
      assert c.(active := c.active - {input.key}) == c;
      NextIDFresh(cfg, s);
      StartNewSteps(c, cfg, input, trigger, s.clock, true);
      if KeyTaken(c.rows, input.key, |c.rows|) { StartBlockedByLostWatch(c, cfg, input.key); }
    }
  }

  // ----- the cached latest watch -----

  /** The ID cached as a key's latest watch is the row the table's own order selects. */
  lemma CachedLatestAgrees(cfg: Config, start: Time, events: seq<Event>, k: WatchKey)
    requires ValidConfig(cfg) && k in Reached(cfg, start, events).core.latest
    ensures var c := Reached(cfg, start, events).core;
      LatestRow(c.rows, k) == Some(Find(c.rows, c.latest[k])) && c.rows[Find(c.rows, c.latest[k])].id == c.latest[k]
  {
    ReachedInv(cfg, start, events);
    var c := Reached(cfg, start, events).core;
    var id := c.latest[k];
    assert KeyIndexed(c, k) && RowMatches(c, id) && Dominates(c, k);
    var i := Find(c.rows, id);
    forall j | 0 <= j < |c.rows| && c.rows[j].key == k && j != i ensures Newer(c.rows, i, j) {
      assert OlderRow(c.rows, j, i, k, c.watches[id].startedAt);
    }
    LatestRowUnique(c.rows, k, i);
  }

  // ----- crash and restart -----

  lemma StepKeepsFinished(cfg: Config, s: Sys, e: Event, i: nat)
    requires SysInv(cfg, s) && ValidConfig(cfg) && i < |s.core.rows| && !s.core.rows[i].isActive
    ensures var rows := Step(cfg, s, e).core.rows; i < |rows| && rows[i] == s.core.rows[i]
  {
    if !e.Restart? {
      StepKeeps(cfg, s, e);
      assert RowFollows(s.core, Step(cfg, s, e).core, i);
    }
  }

  /** A row that is no longer active is never written again, by any step or any number of restarts. */
  lemma {:induction false} FinishedRowsStay(cfg: Config, s: Sys, events: seq<Event>, i: nat)
    requires SysInv(cfg, s) && ValidConfig(cfg) && i < |s.core.rows| && !s.core.rows[i].isActive
    ensures var rows := Run(cfg, s, events).core.rows; i < |rows| && rows[i] == s.core.rows[i]
  {
    if events != [] {
      var before := events[..|events| - 1];
      FinishedRowsStay(cfg, s, before, i);
      RunKeeps(cfg, s, before);
      StepKeepsFinished(cfg, Run(cfg, s, before), events[|events| - 1], i);
    }
  }

  /**
   A crash after any event: the reopened table has no active row, the rows that were active are well
   shaped STALE rows, the others are untouched, and what later steps and restarts do never changes them.
   */
  lemma CrashRecovery(cfg: Config, start: Time, past: seq<Event>, to: Time, future: seq<Event>, i: nat)
    requires ValidConfig(cfg) && Reached(cfg, start, past).clock < to
    requires i < |Reached(cfg, start, past).core.rows|
    ensures var rows := Reached(cfg, start, past).core.rows;
      var restarted := Step(cfg, Reached(cfg, start, past), Restart(to));
      var later := Run(cfg, restarted, future).core.rows;
      && |restarted.core.rows| == |rows| && !restarted.core.rows[i].isActive
      && (if rows[i].isActive then WellShapedStale(restarted.core.rows[i]) else restarted.core.rows[i] == rows[i])
      && i < |later| && later[i] == restarted.core.rows[i]
  {
    ReachedInv(cfg, start, past);
    var s := Reached(cfg, start, past);
    RestartKeeps(cfg, s, to);
    RecoveryIsFinal(s.core.rows, to, to, i);
    FinishedRowsStay(cfg, Step(cfg, s, Restart(to)), future, i);
  }

  // ----- shapes, counters, notifications -----

  /** Every reachable watch is well shaped. */
  lemma ReachedShapes(cfg: Config, start: Time, events: seq<Event>, id: string)
    requires ValidConfig(cfg) && id in Reached(cfg, start, events).core.watches
    ensures WellShaped(Reached(cfg, start, events).core.watches[id], cfg)
  {
    ReachedInv(cfg, start, events);
    assert ShapedAt(Reached(cfg, start, events).core, cfg, id);
  }

  /**
   The failure counter is the number of upstream failures since the last ok commit, token swap or
   start, and stays below the threshold while the watch is live.
   */
  lemma FailuresAreCounted(cfg: Config, start: Time, events: seq<Event>, id: string)
    requires ValidConfig(cfg) && id in Reached(cfg, start, events).core.watches
    ensures var c := Reached(cfg, start, events).core;
      && c.watches[id].upstreamFailureCount == FailuresSince(c.hist, id)
      && (Live(c, id) ==> FailuresSince(c.hist, id) < cfg.upstreamFailureThreshold)
  {
    ReachedInv(cfg, start, events);
    var c := Reached(cfg, start, events).core;
    assert RecordedFor(c, id) && WatchIndexed(c, id) && ShapedAt(c, cfg, id);
  }

  /** One notification per saved status change, and one at the end unless Close ended the watch. */
  lemma NotificationsConserved(cfg: Config, start: Time, events: seq<Event>, id: string)
    requires ValidConfig(cfg) && id in Reached(cfg, start, events).core.watches
    ensures var c := Reached(cfg, start, events).core;
      Times(c.sent, ResourceURI(id)) ==
      Changes(c.hist, id) + (if c.watches[id].terminal && !EndedByClose(c, id) then 1 else 0)
  {
    ReachedInv(cfg, start, events);
    var c := Reached(cfg, start, events).core;
    assert RecordedFor(c, id) && WatchIndexed(c, id);
  }

  // ----- termination -----

  /** The number of poll intervals that fit into the maximum duration, rounded up. */
  function PollLimit(cfg: Config): int
    requires ValidConfig(cfg)
  {
    (cfg.maxWatchDuration + cfg.pollInterval - 1) / cfg.pollInterval
  }

  lemma SpanBelow(cfg: Config, n: nat)
    requires ValidConfig(cfg) && n > 0 && Span(cfg, n - 1) < cfg.maxWatchDuration
    ensures n <= PollLimit(cfg)
  {
    var i, q := cfg.pollInterval, PollLimit(cfg);
    SpanNext(cfg, n - 1);
    if n >= q + 1 {
      SpanMonotone(cfg, q + 1, n);
      SpanNext(cfg, q);
    }
  }

  /** No watch is ever polled more often than the poll interval fits into its maximum duration. */
  lemma PollsAreBounded(cfg: Config, start: Time, events: seq<Event>, id: string)
    requires ValidConfig(cfg) && id in Reached(cfg, start, events).core.watches
    ensures Reached(cfg, start, events).core.watches[id].pollsDone <= PollLimit(cfg)
  {
    ReachedInv(cfg, start, events);
    var s := Reached(cfg, start, events);
    assert WorkerFine(cfg, s, id);
    if s.core.watches[id].pollsDone > 0 { SpanBelow(cfg, s.core.watches[id].pollsDone); }
  }

  function PhaseRank(phase: Phase): nat {
    match phase
    case Ready => 6
    case Fetching => 5
    case Fetched(_, _) => 4
    case Marking(_, _, _) => 3
    case Waiting => 1
    case Exited => 0
    case _ => 2
  }

  /** How many more steps a worker can take. */
  function Rank(cfg: Config, k: Worker): int
    requires ValidConfig(cfg)
  {
    (PollLimit(cfg) + 1 - k.polls) * 8 + PhaseRank(k.phase)
  }

  lemma RankBounded(cfg: Config, w: Watch, k: Worker, clock: Time)
    requires ValidConfig(cfg) && Fine(cfg, w, k, clock)
    ensures 0 <= Rank(cfg, k) <= 8 * PollLimit(cfg) + 6
  {
    if k.polls >= 2 { SpanBelow(cfg, k.polls - 1); }
  }

  lemma MoveDecreases(cfg: Config, s: Sys, id: string, env: Env)
    requires ValidConfig(cfg) && id in s.workers
    ensures var s2 := MoveWorker(cfg, s, id, env);
      && s2.workers.Keys == s.workers.Keys
      && (s2.workers[id] == s.workers[id] || Rank(cfg, s2.workers[id]) < Rank(cfg, s.workers[id]))
      && (forall x :: x in s.workers && x != id ==> s2.workers[x] == s.workers[x])
  {
  }

  /** The steps in which this worker moved. */
  ghost function Moves(cfg: Config, s: Sys, events: seq<Event>, id: string): nat {
    if events == [] then 0
    else
      var before := Run(cfg, s, events[..|events| - 1]);
      var after := Run(cfg, s, events);
      Moves(cfg, s, events[..|events| - 1], id) +
      if id in before.workers && id in after.workers && after.workers[id] != before.workers[id] then 1 else 0
  }

  lemma StepMoves(cfg: Config, s: Sys, e: Event, id: string)
    requires SysInv(cfg, s) && ValidConfig(cfg) && id in s.workers && !e.Restart?
    ensures var s2 := Step(cfg, s, e);
      id in s2.workers && (s2.workers[id] == s.workers[id] || Rank(cfg, s2.workers[id]) < Rank(cfg, s.workers[id]))
  {
    if e.WorkerMove? && e.id in s.workers {
      MoveDecreases(cfg, s, e.id, e.env);
    } else if e.StartCall? && ValidStart(e.input) {
      StartsElsewhere(cfg, s, e.input, e.trigger, e.io, id);
    }
  }

  lemma StartsElsewhere(cfg: Config, s: Sys, input: StartInput, trigger: Option<int>, io: bool, id: string)
    requires SysInv(cfg, s) && ValidConfig(cfg) && id in s.workers
    ensures var r := StartLocked(s.core, input, trigger, s.clock, io).1;
      r.Running? && !r.reused ==> r.snapshot.watchID != id
  {
    NextIDFresh(cfg, s);
  }

  lemma {:induction false} MovesRank(cfg: Config, s: Sys, events: seq<Event>, id: string)
    requires SysInv(cfg, s) && ValidConfig(cfg) && SameProcess(events) && id in s.workers
    ensures id in Run(cfg, s, events).workers
    ensures Moves(cfg, s, events, id) + Rank(cfg, Run(cfg, s, events).workers[id]) <= Rank(cfg, s.workers[id])
  {
    if events != [] {
      var before := events[..|events| - 1];
      MovesRank(cfg, s, before, id);
      RunKeeps(cfg, s, before);
      StepMoves(cfg, Run(cfg, s, before), events[|events| - 1], id);
    }
  }

  /** A worker stops: from any reachable state on, it can move only a bounded number of times. */
  lemma WorkersStop(cfg: Config, start: Time, past: seq<Event>, future: seq<Event>, id: string)
    requires ValidConfig(cfg) && SameProcess(future) && id in Reached(cfg, start, past).workers
    ensures Moves(cfg, Reached(cfg, start, past), future, id) <= 8 * PollLimit(cfg) + 6
  {
    ReachedInv(cfg, start, past);
    var s := Reached(cfg, start, past);
    RunKeeps(cfg, s, future);
    var s2 := Run(cfg, s, future);
    MovesRank(cfg, s, future, id);
    assert WorkerFine(cfg, s, id) && WorkerFine(cfg, s2, id);
    RankBounded(cfg, s.core.watches[id], s.workers[id], s.clock);
    RankBounded(cfg, s2.core.watches[id], s2.workers[id], s2.clock);
  }

  ghost predicate CanMove(cfg: Config, s: Sys, id: string) {
    exists to: Time, env: Env {:trigger WorkerMove(id, env), Advance(to)} ::
      to >= s.clock && id in s.workers &&
      var s2 := Step(cfg, Step(cfg, s, Advance(to)), WorkerMove(id, env));
      id in s2.workers && s2.workers[id] != s.workers[id]
  }

  /**
   No worker is ever stuck: until it has returned it can move, sooner or later. As it moves only a
   bounded number of times and returns only from an ended watch, every watch comes to an end.
   */
  lemma NeverStuck(cfg: Config, start: Time, events: seq<Event>, id: string)
    requires ValidConfig(cfg) && id in Reached(cfg, start, events).core.watches
    ensures var s := Reached(cfg, start, events);
      && id in s.workers
      && (CanMove(cfg, s, id) <==> !s.workers[id].phase.Exited?)
      && (!CanMove(cfg, s, id) ==> s.core.watches[id].terminal)
  {
    ReachedInv(cfg, start, events);
    var s := Reached(cfg, start, events);
    assert WorkerFine(cfg, s, id);
    if !s.workers[id].phase.Exited? {
      var k := s.workers[id];
      var due := if k.tickerAt.Some? then k.tickerAt.value + k.polls * cfg.pollInterval else s.clock;
      var to := if due > s.clock then due else s.clock;
      MovesWhenDue(cfg, s, id, to);
    }
  }

  lemma MovesWhenDue(cfg: Config, s: Sys, id: string, to: Time)
    requires ValidConfig(cfg) && id in s.workers && !s.workers[id].phase.Exited? && to >= s.clock
    requires s.workers[id].phase.Waiting? ==> TickDue(cfg, s.workers[id], to)
    ensures CanMove(cfg, s, id)
  {
    var env := Env(Panic(""), None, false, false, false);
    var s2 := Step(cfg, s, Advance(to));
    MoveChanges(cfg, s2, id, env);
    assert Step(cfg, s2, WorkerMove(id, env)).workers[id] != s.workers[id];
  }

  lemma MoveChanges(cfg: Config, s: Sys, id: string, env: Env)
    requires ValidConfig(cfg) && id in s.workers && !s.workers[id].phase.Exited?
        && env == Env(Panic(""), None, false, false, false)
    requires s.workers[id].phase.Waiting? ==> TickDue(cfg, s.workers[id], s.clock)
    ensures id in MoveWorker(cfg, s, id, env).workers && MoveWorker(cfg, s, id, env).workers[id] != s.workers[id]
  {
    MoveDecreases(cfg, s, id, env);
  }

  // ----- one poll without interruption -----

  /** A worker's steps outside the mutex, with nothing in between. */
  ghost function Alone(cfg: Config, s: Sys, id: string, env: Env): Sys
    requires id in s.workers
    decreases if id in s.workers then PhaseRank(s.workers[id].phase) else 0
  {
    var phase := s.workers[id].phase;
    if phase.Fetching? || phase.Fetched? || phase.Marking? then Alone(cfg, MoveWorker(cfg, s, id, env), id, env) else s
  }

  /** Then the critical section it arrives at is the one of FetchPhase, and nothing else has changed. */
  lemma UninterruptedPoll(cfg: Config, s: Sys, id: string, env: Env)
    requires id in s.workers && s.workers[id].phase.Fetching?
    ensures Alone(cfg, s, id, env) == s.(workers := s.workers[id :=
              s.workers[id].(phase := FetchPhase(s.core, id, env.result, s.clock, env.trigger, env.marked))])
  {
    var s1 := MoveWorker(cfg, s, id, env);
    if s1.workers[id].phase.Fetched? {
      var s2 := MoveWorker(cfg, s1, id, env);
      if s2.workers[id].phase.Marking? {
        var s3 := MoveWorker(cfg, s2, id, env);
        assert Alone(cfg, s3, id, env) == s3 && Alone(cfg, s2, id, env) == s3 && Alone(cfg, s1, id, env) == s3;
      } else {
        assert Alone(cfg, s2, id, env) == s2 && Alone(cfg, s1, id, env) == s2;
      }
    }
  }

  // ----- what is read back -----

  /** What the table keeps of a snapshot: whole seconds, and nothing about the worker. */
  ghost function Faded(s: Snapshot): Snapshot {
    s.(workerRunning := false, pollsDone := 0, lastPolledAt := None, startedAt := ToSecond(s.startedAt),
       updatedAt := ToSecond(s.updatedAt), completedAt := OptToSecond(s.completedAt), staleAt := OptToSecond(s.staleAt),
       rateLimitResetAt := OptToSecond(s.rateLimitResetAt))
  }

  /**
   In every run, what is read from a watch's row is its snapshot without what the table cannot hold, unless
   its last write was lost.
   */
  lemma RowReadsBack(cfg: Config, start: Time, events: seq<Event>, id: string)
    requires ValidConfig(cfg) && id in Reached(cfg, start, events).core.watches
        && id !in Reached(cfg, start, events).core.lost
    ensures var c := Reached(cfg, start, events).core;
      Find(c.rows, id) < |c.rows| && SnapshotOfEntry(c.rows[Find(c.rows, id)]) == Faded(SnapshotOf(c.watches[id]))
  {
    TableFollowsMemory(cfg, start, events, id, 0);
  }
}
