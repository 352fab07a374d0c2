/**
 The manager objects move along the runs of the whole system: every call is one or more of its events,
 so after any sequence of calls each theorem about reached states holds of the objects.
 */
module ManagerRuns {
  import opened Base
  import opened Domain
  import opened Store
  import opened Database
  import opened Review
  import opened WatchCore
  import opened WatchInvariant
  import opened WatchSections
  import opened WatchLifecycle
  import opened WatchWorker
  import opened WatchSystem
  import opened WatchSafety
  import opened WatchTheorems
  import opened WatchFaults
  import opened ManagerHelpers
  import opened PollAnswers
  import opened CallAnswers
  import opened WatchManager

  /** The manager is in the state that these events lead to. */
  ghost predicate Tracks(m: Manager, start: Time, events: seq<Event>)
    reads m, m.watchesByID.Values, m.db
  {
    && ValidConfig(m.cfg) && m.Valid() && m.Numbered() && TriggerIDs(m.db.triggers)
    && m.Abs() == Reached(m.cfg, start, events).core
  }

  /** The clock of a state. */
  ghost function Clock(m: Manager, start: Time, events: seq<Event>): Time {
    Reached(m.cfg, start, events).clock
  }

  /** In particular the invariant holds of the objects. */
  lemma TracksInv(m: Manager, start: Time, events: seq<Event>)
    requires Tracks(m, start, events)
    ensures Inv(m.Abs(), m.cfg)
  {
    ReachedInv(m.cfg, start, events);
  }

  // ----- where a run begins -----

  /** The first process: a manager on a new database. */
  method OpenFirst(cfg: Config, ghost start: Time, now: Time) returns (m: Manager)
    requires ValidConfig(cfg) && now == start
    ensures fresh(m) && fresh(m.db) && m.cfg == cfg && m.watchesByID == map[]
    ensures Tracks(m, start, [])
  {
    var db := new DB([], [], now);
    m := new Manager(cfg, db);
    assert db.watches == [];
  }

  /** A restart after any events: the tables are opened again, and a new manager follows the run from there. */
  method Reopen(before: Manager, ghost start: Time, ghost events: seq<Event>, now: Time)
    returns (m: Manager, ghost events2: seq<Event>)
    requires Tracks(before, start, events) && now > Clock(before, start, events)
    ensures fresh(m) && fresh(m.db) && m.cfg == before.cfg && m.watchesByID == map[]
    ensures Tracks(m, start, events2) && events2 == events + [Restart(now)]
  {
    var db := new DB(before.db.triggers, before.db.watches, now);
    m := new Manager(before.cfg, db);
    events2 := events + [Restart(now)];
    ReachedNext(m.cfg, start, events, Restart(now));
  }

  // ----- polls as events -----

  lemma AloneRun(cfg: Config, start: Time, events: seq<Event>, id: string, env: Env) returns (more: seq<Event>)
    requires id in Reached(cfg, start, events).workers
    ensures Reached(cfg, start, events + more) == Alone(cfg, Reached(cfg, start, events), id, env)
    decreases PhaseRank(Reached(cfg, start, events).workers[id].phase)
  {
    var s := Reached(cfg, start, events);
    var phase := s.workers[id].phase;
    if phase.Fetching? || phase.Fetched? || phase.Marking? {
      ReachedNext(cfg, start, events, WorkerMove(id, env));
      var rest := AloneRun(cfg, start, events + [WorkerMove(id, env)], id, env);
      more := [WorkerMove(id, env)] + rest;
      assert events + more == events + [WorkerMove(id, env)] + rest;
    } else {
      more := [];
      assert events + more == events;
    }
  }

  /** Where one poll gets to outside the mutex. */
  ghost function PhaseOf(c: Core, cfg: Config, id: string, started: Time, fetched: Time, env: Env): Phase {
    PollPhase(c, cfg, id, started, env.result, fetched, env.trigger, env.marked)
  }

  lemma PollToLock(cfg: Config, start: Time, events: seq<Event>, id: string, fetched: Time, env: Env)
    returns (more: seq<Event>)
    requires var s := Reached(cfg, start, events); id in s.workers && s.workers[id].phase.Ready? && fetched >= s.clock
    ensures var s, s2 := Reached(cfg, start, events), Reached(cfg, start, events + more);
      && s2.core == s.core && s2.clock == fetched && id in s2.workers
      && s2.workers[id].phase == PhaseOf(s.core, cfg, id, s.clock, fetched, env)
  {
    var begin := [WorkerMove(id, env)];
    ReachedNext(cfg, start, events, WorkerMove(id, env));
    ReachedNext(cfg, start, events + begin, Advance(fetched));
    var s2 := Reached(cfg, start, events + begin + [Advance(fetched)]);
    var rest := AloneRun(cfg, start, events + begin + [Advance(fetched)], id, env);
    if s2.workers[id].phase.Fetching? { UninterruptedPoll(cfg, s2, id, env); }
    more := begin + [Advance(fetched)] + rest;
    assert events + more == events + begin + [Advance(fetched)] + rest;
  }

  /** One poll without interruption is a run from a worker about to poll. */
  lemma PollRun(cfg: Config, start: Time, events: seq<Event>, id: string, fetched: Time, env: Env)
    returns (more: seq<Event>)
    requires var s := Reached(cfg, start, events); id in s.workers && s.workers[id].phase.Ready? && fetched >= s.clock
    ensures var s, s2 := Reached(cfg, start, events), Reached(cfg, start, events + more);
      var p := PhaseOf(s.core, cfg, id, s.clock, fetched, env);
      && s2.clock == fetched
      && (p.Exited? ==> s2.core == s.core)
      && (Locks(p) ==> s2.core == LockedStep(s.core, cfg, id, p, fetched, env.io).0)
  {
    var s := Reached(cfg, start, events);
    more := PollToLock(cfg, start, events, id, fetched, env);
    if Locks(PhaseOf(s.core, cfg, id, s.clock, fetched, env)) {
      ReachedNext(cfg, start, events + more, WorkerMove(id, env));
      LockedMoveForm(cfg, Reached(cfg, start, events + more), id, env);
      assert events + (more + [WorkerMove(id, env)]) == events + more + [WorkerMove(id, env)];
      more := more + [WorkerMove(id, env)];
    }
  }

  // ----- calls -----

  ghost function LinkedRow(m: Manager, key: WatchKey): Option<int>
    requires TriggerIDs(m.db.triggers)
    reads m, m.db
  {
    var entry := LatestTrigger(m.db.triggers, PullRequest(key.owner, key.repo, key.pr));
    if entry.Some? then Some(entry.value.id) else None
  }

  /** Start on good input: an event of the run, or nothing if the trigger row cannot be read. */
  method StartTracked(m: Manager, ghost start: Time, ghost events: seq<Event>, input: StartInput, read: bool, now: Time,
          io: bool)
    returns (r: StartResult, ghost events2: seq<Event>)
    requires Tracks(m, start, events) && now == Clock(m, start, events) && ValidStart(input)
    modifies m, m.watchesByID.Values, m.db`watches
    ensures Tracks(m, start, events2) && events <= events2
    ensures !read ==> r == TriggerUnreadable && m.Abs() == old(m.Abs())
    ensures read ==> (m.Abs(), r) == StartLocked(old(m.Abs()), input, old(LinkedRow(m, input.key)), now, io)
  {
    ghost var trigger := LinkedRow(m, input.key);
    r := m.Start(input, read, now, io);
    events2 := events;
    if read {
      ReachedNext(m.cfg, start, events, StartCall(input, trigger, io));
      events2 := events + [StartCall(input, trigger, io)];
    }
  }

  method Start(m: Manager, ghost start: Time, ghost events: seq<Event>, input: StartInput, read: bool, now: Time,
          io: bool)
    returns (r: StartResult, ghost events2: seq<Event>)
    requires Tracks(m, start, events) && now == Clock(m, start, events)
    modifies m, m.watchesByID.Values, m.db`watches
    ensures Tracks(m, start, events2) && events <= events2
    ensures r.InputRefused? <==> !ValidStart(input)
    ensures r.TriggerUnreadable? <==> ValidStart(input) && !read
    ensures r.InputRefused? || r.TriggerUnreadable? ==> m.Abs() == old(m.Abs())
    ensures ValidStart(input) && read ==>
      StartMeans(old(m.Abs()), input, old(LinkedRow(m, input.key)), now, io, m.Abs(), r)
  {
    if !ValidStart(input) {
      r := m.Start(input, read, now, io);
      return r, events;
    }
    ghost var trigger := LinkedRow(m, input.key);
    ReachedInv(m.cfg, start, events);
    StartAnswers(m.cfg, Reached(m.cfg, start, events), input, trigger, io);
    r, events2 := StartTracked(m, start, events, input, read, now, io);
  }

  /** A cancel by ID is an event of the run. */
  method CancelByIDTracked(m: Manager, ghost start: Time, ghost events: seq<Event>, login: string, id: string,
          now: Time, io: bool, read: bool, later: Time, marked: bool)
    returns (r: CancelResult, ghost events2: seq<Event>)
    requires Tracks(m, start, events) && now == Clock(m, start, events) && login != "" && id != ""
    modifies m, m.watchesByID.Values, m.db
    ensures Tracks(m, start, events2) && events <= events2
    ensures CancelAnswers(old(m.Abs()), old(m.db.triggers), login, id, read, later, marked, m.Abs(), m.db.triggers, r)
  {
    r := m.CancelByID(login, id, now, io, read, later, marked);
    ReachedNext(m.cfg, start, events, CancelByID(login, id, io));
    events2 := events + [CancelByID(login, id, io)];
  }

  method CancelOneByID(m: Manager, ghost start: Time, ghost events: seq<Event>, login: string, id: string, now: Time,
          io: bool, read: bool, later: Time, marked: bool)
    returns (r: CancelResult, ghost events2: seq<Event>)
    requires Tracks(m, start, events) && now == Clock(m, start, events)
    modifies m, m.watchesByID.Values, m.db
    ensures Tracks(m, start, events2) && events <= events2
    ensures r == CancelRefused <==> login == "" || id == ""
    ensures r == CancelRefused ==> m.Abs() == old(m.Abs()) && m.db.triggers == old(m.db.triggers)
    ensures r != CancelRefused ==>
      CancelAnswers(old(m.Abs()), old(m.db.triggers), login, id, read, later, marked, m.Abs(), m.db.triggers, r)
  {
    if login == "" || id == "" {
      r := m.CancelByID(login, id, now, io, read, later, marked);
      return r, events;
    }
    r, events2 := CancelByIDTracked(m, start, events, login, id, now, io, read, later, marked);
  }

  /** A cancel by key is an event of the run. */
  method CancelLatestTracked(m: Manager, ghost start: Time, ghost events: seq<Event>, key: WatchKey, now: Time,
          io: bool, read: bool, later: Time, marked: bool)
    returns (r: CancelResult, ghost events2: seq<Event>)
    requires Tracks(m, start, events) && now == Clock(m, start, events)
    requires key.login != "" && key.owner != "" && key.repo != "" && key.pr > 0
    modifies m, m.watchesByID.Values, m.db
    ensures Tracks(m, start, events2) && events <= events2
    ensures var (c, step) := CancelLatestLocked(old(m.Abs()), key, now, io);
      && m.Abs() == c && r == CancelAnswer(step, if read then Some(LatestEntry(c.rows, key)) else None, key.login)
      && m.db.triggers == AfterCancel(old(m.db.triggers), step, later, marked)
  {
    r := m.CancelLatest(key, now, io, read, later, marked);
    ReachedNext(m.cfg, start, events, CancelLatest(key, io));
    events2 := events + [CancelLatest(key, io)];
  }

  method CancelLatestOf(m: Manager, ghost start: Time, ghost events: seq<Event>, key: WatchKey, now: Time, io: bool,
          read: bool, later: Time, marked: bool)
    returns (r: CancelResult, ghost events2: seq<Event>)
    requires Tracks(m, start, events) && now == Clock(m, start, events)
    modifies m, m.watchesByID.Values, m.db
    ensures Tracks(m, start, events2) && events <= events2
    ensures r == CancelRefused <==> key.login == "" || key.owner == "" || key.repo == "" || key.pr <= 0
    ensures r == CancelRefused ==> m.Abs() == old(m.Abs()) && m.db.triggers == old(m.db.triggers)
    ensures r != CancelRefused ==>
      CancelLatestAnswers(old(m.Abs()), old(m.db.triggers), key, read, later, marked, m.Abs(), m.db.triggers, r)
  {
    if key.login == "" || key.owner == "" || key.repo == "" || key.pr <= 0 {
      r := m.CancelLatest(key, now, io, read, later, marked);
      return r, events;
    }
    TracksInv(m, start, events);
    CancelLatestMeans(m.Abs(), m.cfg, m.db.triggers, key, now, io, read, later, marked);
    r, events2 := CancelLatestTracked(m, start, events, key, now, io, read, later, marked);
  }

  /** GetLatest, in a state that the objects have reached. */
  method Latest(m: Manager, ghost start: Time, ghost events: seq<Event>, key: WatchKey, read: bool)
    returns (r: Option<Snapshot>)
    requires Tracks(m, start, events)
    ensures LatestAnswers(m.Abs(), key, read, r)
  {
    TracksInv(m, start, events);
    LatestMeans(m.Abs(), m.cfg, key, read);
    r := m.GetLatest(key, read);
  }

  method Close(m: Manager, ghost start: Time, ghost events: seq<Event>, now: Time, accepted: set<WatchKey>)
    returns (ghost events2: seq<Event>)
    requires Tracks(m, start, events) && now == Clock(m, start, events)
    modifies m, m.watchesByID.Values, m.db`watches
    ensures Tracks(m, start, events2) && events <= events2 && m.closed && m.activeByKey == map[]
  {
    ghost var c := m.Abs();
    ReachedInv(m.cfg, start, events);
    ghost var order := m.CloseLocked(now, accepted);
    CloseSteps(c, m.cfg, order, now, accepted);
    ReachedNext(m.cfg, start, events, CloseCall(order, accepted));
    events2 := events + [CloseCall(order, accepted)];
    ReachedInv(m.cfg, start, events2);
  }

  // ----- a whole poll -----

  /** What one uninterrupted poll does to the watches and tells its worker. */
  ghost predicate PollLeaves(c: Core, cfg: Config, id: string, started: Time, result: FetchResult, fetched: Time,
          read: TriggerRead, marked: bool, io: bool, c2: Core, stop: bool)
  {
    && OnlyOneChanges(c, c2, id)
    && if Live(c, id) then
         && id in c2.watches && stop == c2.watches[id].terminal
         && PollMeans(c.watches[id], cfg, started, result, fetched, read, marked, io, c2.watches[id])
       else c2 == c && stop
  }

  /** The open row that a poll completes: the one it read, when the data it got answer it. */
  ghost predicate Completes(c: Core, cfg: Config, id: string, started: Time, result: FetchResult, read: TriggerRead) {
    && Live(c, id) && started - c.watches[id].startedAt < cfg.maxWatchDuration
    && result.Data? && Answers(result.data, read)
  }

  lemma PollIsAnswered(cfg: Config, s: Sys, id: string, result: FetchResult, fetched: Time, read: TriggerRead,
          marked: bool, io: bool, c2: Core, stop: bool)
    requires SysInv(cfg, s) && ValidConfig(cfg) && s.clock <= fetched
    requires Lands(s.core, cfg, id, PollPhase(s.core, cfg, id, s.clock, result, fetched, read, marked), fetched, io,
        c2, stop)
    ensures PollLeaves(s.core, cfg, id, s.clock, result, fetched, read, marked, io, c2, stop)
    ensures GetsData(s.core, cfg, id, s.clock, result) && Answers(result.data, read) <==>
            Completes(s.core, cfg, id, s.clock, result, read)
  {
    var phase := PollPhase(s.core, cfg, id, s.clock, result, fetched, read, marked);
    SectionChangesOne(s.core, cfg, id, phase, fetched, io, c2, stop);
    LiveGetsData(s.core, cfg, id, s.clock, result);
    if Live(s.core, id) {
      assert StampedAt(s.core, s.clock, id);
      PollAnswer(s.core, cfg, id, s.clock, result, fetched, read, marked, io, c2, stop);
    } else {
      PollOfEnded(s.core, cfg, id, s.clock, result, fetched, read, marked, io, c2, stop);
    }
  }

  method PollTracked(m: Manager, ghost start: Time, ghost events: seq<Event>, id: string, started: Time,
          result: FetchResult, fetched: Time, read: TriggerRead, marked: bool, markedAt: Time, io: bool)
    returns (stop: bool, ghost events2: seq<Event>)
    requires Tracks(m, start, events) && started == Clock(m, start, events) && fetched >= started
    requires var s := Reached(m.cfg, start, events); id in s.workers && s.workers[id].phase.Ready?
    modifies m, m.watchesByID.Values, m.db
    ensures Tracks(m, start, events2) && events <= events2 && Clock(m, start, events2) == fetched
    ensures Lands(old(m.Abs()), m.cfg, id, PollPhase(old(m.Abs()), m.cfg, id, started, result, fetched, read, marked),
                  fetched, io, m.Abs(), stop)
    ensures m.db.triggers ==
            if GetsData(old(m.Abs()), m.cfg, id, started, result) && Answers(result.data, read) && marked
            then WithCompleted(old(m.db.triggers), read.value.value.id, markedAt)
            else old(m.db.triggers)
  {
    ghost var more := PollRun(m.cfg, start, events, id, fetched, Env(result, read, marked, false, io));
    stop := m.PollOnce(id, started, result, fetched, read, marked, markedAt, io);
    events2 := events + more;
  }

  /**
   A poll does to its watch what its answers mean. It completes the open row it read exactly if the data answer it
   and the database takes the mark; if that was the pull request's only open row, the next request is admitted.
   */
  method Poll(m: Manager, ghost start: Time, ghost events: seq<Event>, id: string, started: Time, result: FetchResult,
          fetched: Time, read: TriggerRead, marked: bool, markedAt: Time, io: bool)
    returns (stop: bool, ghost events2: seq<Event>)
    requires Tracks(m, start, events) && started == Clock(m, start, events) && fetched >= started
    requires var s := Reached(m.cfg, start, events); id in s.workers && s.workers[id].phase.Ready?
    modifies m, m.watchesByID.Values, m.db
    ensures Tracks(m, start, events2) && events <= events2 && Clock(m, start, events2) == fetched
    ensures PollLeaves(old(m.Abs()), m.cfg, id, started, result, fetched, read, marked, io, m.Abs(), stop)
    ensures var completes := Completes(old(m.Abs()), m.cfg, id, started, result, read) && marked;
      && m.db.triggers == (if completes then WithCompleted(old(m.db.triggers), read.value.value.id, markedAt)
                           else old(m.db.triggers))
      && (completes && OnlyOpen(old(m.db.triggers), read.value.value) ==>
           !HasPending(m.db.triggers, read.value.value.pr))
  {
    ghost var s, triggers := Reached(m.cfg, start, events), m.db.triggers;
    ReachedInv(m.cfg, start, events);
    stop, events2 := PollTracked(m, start, events, id, started, result, fetched, read, marked, markedAt, io);
    PollIsAnswered(m.cfg, s, id, result, fetched, read, marked, io, m.Abs(), stop);
    if Completes(s.core, m.cfg, id, started, result, read) && marked && OnlyOpen(triggers, read.value.value) {
      PollReadmits(triggers, read.value.value, markedAt);
    }
  }

  /** This row is the one open row of its pull request. */
  ghost predicate OnlyOpen(ts: seq<Trigger>, t: Trigger) {
    t in ts && t.completedAt.None? && forall u :: u in ts && Open(u, t.pr) ==> u == t
  }
}
