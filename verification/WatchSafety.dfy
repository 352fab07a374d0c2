/** The invariant of the whole system holds in every run. */
module WatchSafety {
  import opened Base
  import opened Domain
  import opened Store
  import opened Review
  import opened WatchCore
  import opened WatchInvariant
  import opened WatchSections
  import opened WatchSteps
  import opened WatchLifecycle
  import opened WatchWorker
  import opened WatchSystem

  // ----- IDs -----

  /** The next ID was never used, by this process or by an earlier one on the same table. */
  lemma NextIDFresh(cfg: Config, s: Sys)
    requires SysInv(cfg, s)
    ensures Fresh(s.core, WatchID(s.clock, s.core.idSeq + 1))
  {
    var c := s.core;
    var id := WatchID(s.clock, c.idSeq + 1);
    var i := Find(c.rows, id);
    if i < |c.rows| {
      assert RowMinted(s, i);
      var t: Time, n: nat :| id == WatchID(t, n) && t <= s.clock && (t < s.boot || n <= c.idSeq);
      WatchIDInjective(s.clock, c.idSeq + 1, t, n);
      assert false;
    }
    assert RowMatches(c, id);
  }

  // ----- the watch part of a step -----

  /** Core moves on; polls are counted only for `polled`. */
  ghost predicate CoreMoves(cfg: Config, s: Sys, c2: Core, polled: Option<string>) {
    && Inv(c2, cfg) && Advances(s.core, c2) && Stamped(c2, s.clock)
    && c2.watches.Keys == s.core.watches.Keys
    && |c2.rows| == |s.core.rows|
    && c2.idSeq >= s.core.idSeq
    && (forall id {:trigger SamePolls(s.core, c2, id)} :: Some(id) != polled ==> SamePolls(s.core, c2, id))
  }

  lemma FineFollows(cfg: Config, w: Watch, w2: Watch, k: Worker, clock: Time, later: Time)
    requires Fine(cfg, w, k, clock) && Follows(w, w2) && w2.pollsDone == w.pollsDone && clock <= later
    ensures Fine(cfg, w2, k, later)
  {
  }

  lemma MovesKeepWorker(cfg: Config, s: Sys, s2: Sys, id: string)
    requires WorkerFine(cfg, s, id) && id in s2.core.watches && id in s.core.watches && id in s2.workers
    requires FollowsAt(s.core, s2.core, id) && SamePolls(s.core, s2.core, id)
    requires id in s.workers && s2.workers[id] == s.workers[id] && s.clock <= s2.clock
    ensures WorkerFine(cfg, s2, id)
  {
    FineFollows(cfg, s.core.watches[id], s2.core.watches[id], s.workers[id], s.clock, s2.clock);
  }

  lemma MintedLater(id: string, boot: Time, clock: Time, idSeq: nat, clock2: Time, idSeq2: nat)
    requires Minted(id, boot, clock, idSeq) && clock <= clock2 && idSeq <= idSeq2
    ensures Minted(id, boot, clock2, idSeq2)
  {
    var t: Time, n: nat :| id == WatchID(t, n) && t <= clock && (t < boot || n <= idSeq);
    assert id == WatchID(t, n) && t <= clock2 && (t < boot || n <= idSeq2);
  }

  lemma MovesKeepMinted(s: Sys, s2: Sys)
    requires forall i {:trigger RowMinted(s, i)} :: RowMinted(s, i)
    requires Advances(s.core, s2.core) && |s2.core.rows| == |s.core.rows|
    requires s2.boot == s.boot && s.clock <= s2.clock && s.core.idSeq <= s2.core.idSeq
    ensures forall i {:trigger RowMinted(s2, i)} :: RowMinted(s2, i)
  {
    forall i ensures RowMinted(s2, i) {
      assert RowMinted(s, i) && RowFollows(s.core, s2.core, i);
      if 0 <= i < |s.core.rows| {
        MintedLater(s.core.rows[i].id, s.boot, s.clock, s.core.idSeq, s2.clock, s2.core.idSeq);
      }
    }
  }

  /** Only the core changed. */
  lemma CoreOnly(cfg: Config, s: Sys, c2: Core)
    requires SysInv(cfg, s) && CoreMoves(cfg, s, c2, None)
    ensures SysInv(cfg, s.(core := c2))
  {
    var s2 := s.(core := c2);
    forall id ensures WorkerFine(cfg, s2, id) {
      assert WorkerFine(cfg, s, id) && FollowsAt(s.core, c2, id) && SamePolls(s.core, c2, id);
      if id in c2.watches { MovesKeepWorker(cfg, s, s2, id); }
    }
    MovesKeepMinted(s, s2);
  }

  /** The core and one worker changed. */
  lemma CoreAndWorker(cfg: Config, s: Sys, c2: Core, id: string, k: Worker)
    requires SysInv(cfg, s) && id in s.workers && CoreMoves(cfg, s, c2, Some(id))
    requires id in c2.watches && Fine(cfg, c2.watches[id], k, s.clock)
    ensures SysInv(cfg, s.(core := c2, workers := s.workers[id := k]))
  {
    var s2 := s.(core := c2, workers := s.workers[id := k]);
    forall x ensures WorkerFine(cfg, s2, x) {
      if x != id {
        assert WorkerFine(cfg, s, x) && FollowsAt(s.core, c2, x) && SamePolls(s.core, c2, x);
        if x in c2.watches { MovesKeepWorker(cfg, s, s2, x); }
      }
    }
    MovesKeepMinted(s, s2);
  }

  lemma WorkerOnly(cfg: Config, s: Sys, id: string, k: Worker)
    requires SysInv(cfg, s) && id in s.workers && Fine(cfg, s.core.watches[id], k, s.clock)
    ensures SysInv(cfg, s.(workers := s.workers[id := k]))
  {
    AdvancesReflexive(s.core);
    assert s.(core := s.core, workers := s.workers[id := k]) == s.(workers := s.workers[id := k]);
    CoreAndWorker(cfg, s, s.core, id, k);
  }

  lemma StepsMove(cfg: Config, s: Sys, c2: Core, id: string, now: Time, polls: nat, io: bool)
    requires SysInv(cfg, s) && Steps(s.core, cfg, c2, id, now, polls, io) && now <= s.clock
    ensures CoreMoves(cfg, s, c2, if polls == 0 then None else Some(id))
  {
    RewriteStamped(s.core, c2, c2.watches[id], s.clock);
  }

  // ----- worker steps -----

  lemma AfterPollFine(cfg: Config, w: Watch, w2: Watch, k: Worker, stop: bool, clock: Time, polls: nat)
    requires ValidConfig(cfg) && Fine(cfg, w, k, clock) && Locks(k.phase) && Follows(w, w2)
    requires w2.pollsDone == w.pollsDone + polls && polls <= 1 && (polls == 1 ==> Checked(k.phase))
    requires (stop ==> w2.terminal) && (!stop ==> Checked(k.phase))
    ensures Fine(cfg, w2, AfterPoll(k, stop, clock), clock)
  {
    SpanMonotone(cfg, 0, k.polls - 1);
    SpanMonotone(cfg, w.pollsDone, k.polls - 1);
  }

  /** c2 follows from this worker's critical section; `polls` says whether it counted the poll. */
  ghost predicate SectionMoves(cfg: Config, s: Sys, id: string, c2: Core, stop: bool, polls: nat, io: bool) {
    && id in s.workers && id in s.core.watches
    && CoreMoves(cfg, s, c2, if polls == 0 then None else Some(id))
    && FollowsAt(s.core, c2, id)
    && Rewrites(s.core, c2, c2.watches[id]) && c2.watches[id].id == id
    && c2.watches[id].updatedAt == ReadAt(s.workers[id].phase, s.clock)
    && c2.watches[id].pollsDone == s.core.watches[id].pollsDone + polls && polls <= 1
    && (polls == 1 ==> Checked(s.workers[id].phase)) && (!stop ==> Checked(s.workers[id].phase))
    && stop == c2.watches[id].terminal
    && (io ==> c2.lost <= s.core.lost)
  }

  lemma SectionMoved(cfg: Config, s: Sys, id: string, c2: Core, stop: bool, now: Time, polls: nat, io: bool)
    requires SysInv(cfg, s) && Live(s.core, id) && id in s.workers
        && now == ReadAt(s.workers[id].phase, s.clock) <= s.clock
    requires Steps(s.core, cfg, c2, id, now, polls, io) && polls <= 1 && stop == c2.watches[id].terminal
    requires (polls == 1 ==> Checked(s.workers[id].phase)) && (!stop ==> Checked(s.workers[id].phase))
    ensures SectionMoves(cfg, s, id, c2, stop, polls, io)
  {
    StepsMove(cfg, s, c2, id, now, polls, io);
    assert FollowsAt(s.core, c2, id);
  }

  lemma CommittingMoves(cfg: Config, s: Sys, id: string, now: Time, review: ReviewStatus, entry: Option<int>, io: bool)
    requires SysInv(cfg, s) && ValidConfig(cfg) && Live(s.core, id) && id in s.workers
    requires s.workers[id].phase == Committing(now, review, entry) && s.core.watches[id].startedAt <= now <= s.clock
    ensures var (c2, stop) := LockedStep(s.core, cfg, id, s.workers[id].phase, s.clock, io);
      SectionMoves(cfg, s, id, c2, stop, 1, io)
  {
    var (c2, stop) := LockedStep(s.core, cfg, id, s.workers[id].phase, s.clock, io);
    if DoneStatus(review).Some? {
      CommitDoneSteps(s.core, cfg, id, now, review, entry, io);
    } else {
      CommitOkSteps(s.core, cfg, id, now, review, entry, io);
    }
    SectionMoved(cfg, s, id, c2, stop, now, 1, io);
  }

  lemma EndingMoves(cfg: Config, s: Sys, id: string, io: bool)
    requires SysInv(cfg, s) && ValidConfig(cfg) && Live(s.core, id) && id in s.workers && s.workers[id].phase.Ending?
    requires PhaseOk(s.workers[id].phase, s.core.watches[id].startedAt, s.clock)
    ensures var (c2, stop) := LockedStep(s.core, cfg, id, s.workers[id].phase, s.clock, io);
      SectionMoves(cfg, s, id, c2, stop, if s.workers[id].phase.counted then 1 else 0, io)
  {
    var (c2, stop) := LockedStep(s.core, cfg, id, s.workers[id].phase, s.clock, io);
    var p := s.workers[id].phase;
    if p.counted {
      FinishPolledSteps(s.core, cfg, id, p.now, p.status, p.reason, p.text, p.hint, io);
    } else {
      FinishUnpolledSteps(s.core, cfg, id, p.now, p.status, p.reason, p.text, p.hint, io);
    }
    SectionMoved(cfg, s, id, c2, stop, p.now, if p.counted then 1 else 0, io);
  }

  lemma LowBudgetMoves(cfg: Config, s: Sys, id: string, io: bool)
    requires SysInv(cfg, s) && ValidConfig(cfg) && Live(s.core, id) && id in s.workers
        && s.workers[id].phase.CommittingLow?
    requires PhaseOk(s.workers[id].phase, s.core.watches[id].startedAt, s.clock)
    ensures var (c2, stop) := LockedStep(s.core, cfg, id, s.workers[id].phase, s.clock, io);
      SectionMoves(cfg, s, id, c2, stop, 1, io)
  {
    var (c2, stop) := LockedStep(s.core, cfg, id, s.workers[id].phase, s.clock, io);
    var p := s.workers[id].phase;
    CommitLowBudgetSteps(s.core, cfg, id, p.now, p.review, p.reset, io);
    SectionMoved(cfg, s, id, c2, stop, p.now, 1, io);
  }

  lemma UpstreamMoves(cfg: Config, s: Sys, id: string, io: bool)
    requires SysInv(cfg, s) && ValidConfig(cfg) && Live(s.core, id) && id in s.workers
        && s.workers[id].phase.UpstreamFailing?
    requires PhaseOk(s.workers[id].phase, s.core.watches[id].startedAt, s.clock)
    ensures var (c2, stop) := LockedStep(s.core, cfg, id, s.workers[id].phase, s.clock, io);
      SectionMoves(cfg, s, id, c2, stop, 1, io)
  {
    var (c2, stop) := LockedStep(s.core, cfg, id, s.workers[id].phase, s.clock, io);
    var p := s.workers[id].phase;
    UpstreamFailureSteps(s.core, cfg, id, p.now, p.text, io);
    SectionMoved(cfg, s, id, c2, stop, p.now, 1, io);
  }

  lemma PanicMoves(cfg: Config, s: Sys, id: string, io: bool)
    requires SysInv(cfg, s) && ValidConfig(cfg) && Live(s.core, id) && id in s.workers && s.workers[id].phase.Panicked?
    requires PhaseOk(s.workers[id].phase, s.core.watches[id].startedAt, s.clock)
        && s.core.watches[id].startedAt <= s.clock
    ensures var (c2, stop) := LockedStep(s.core, cfg, id, s.workers[id].phase, s.clock, io);
      SectionMoves(cfg, s, id, c2, stop, 0, io)
  {
    var (c2, stop) := LockedStep(s.core, cfg, id, s.workers[id].phase, s.clock, io);
    var p := s.workers[id].phase;
    MarkStaleSteps(s.core, cfg, id, p.text, s.clock, io);
    SectionMoved(cfg, s, id, c2, stop, s.clock, 0, io);
  }

  /**
   The critical section at the end of a poll counts at most this poll, and stops the worker exactly when the
   watch ended.
   */
  lemma LockedStepMoves(cfg: Config, s: Sys, id: string, io: bool) returns (polls: nat)
    requires SysInv(cfg, s) && ValidConfig(cfg) && Live(s.core, id) && id in s.workers && Locks(s.workers[id].phase)
    ensures var (c2, stop) := LockedStep(s.core, cfg, id, s.workers[id].phase, s.clock, io);
      SectionMoves(cfg, s, id, c2, stop, polls, io)
  {
    var p := s.workers[id].phase;
    assert WorkerFine(cfg, s, id) && StampedAt(s.core, s.clock, id);
    if p.Committing? {
      CommittingMoves(cfg, s, id, p.now, p.review, p.entry, io);
      polls := 1;
    } else if p.Ending? {
      EndingMoves(cfg, s, id, io);
      polls := if p.counted then 1 else 0;
    } else if p.CommittingLow? {
      LowBudgetMoves(cfg, s, id, io);
      polls := 1;
    } else if p.UpstreamFailing? {
      UpstreamMoves(cfg, s, id, io);
      polls := 1;
    } else {
      PanicMoves(cfg, s, id, io);
      polls := 0;
    }
  }

  /** A late section of an ended watch changes nothing and stops its worker. */
  lemma LateStepIsNothing(cfg: Config, s: Sys, id: string, io: bool)
    requires id in s.core.watches && !Live(s.core, id) && id in s.workers && Locks(s.workers[id].phase)
    ensures LockedStep(s.core, cfg, id, s.workers[id].phase, s.clock, io) == (s.core, true)
  {
  }

  lemma LiveMoveKeeps(cfg: Config, s: Sys, id: string, c2: Core, stop: bool, polls: nat, io: bool)
    requires SysInv(cfg, s) && ValidConfig(cfg) && id in s.workers && Locks(s.workers[id].phase)
    requires SectionMoves(cfg, s, id, c2, stop, polls, io)
    ensures SysInv(cfg, s.(core := c2, workers := s.workers[id := AfterPoll(s.workers[id], stop, s.clock)]))
  {
    assert WorkerFine(cfg, s, id);
    AfterPollFine(cfg, s.core.watches[id], c2.watches[id], s.workers[id], stop, s.clock, polls);
    CoreAndWorker(cfg, s, c2, id, AfterPoll(s.workers[id], stop, s.clock));
  }

  lemma LateMoveKeeps(cfg: Config, s: Sys, id: string)
    requires SysInv(cfg, s) && ValidConfig(cfg) && id in s.workers && Locks(s.workers[id].phase) && !Live(s.core, id)
    ensures SysInv(cfg, s.(core := s.core, workers := s.workers[id := AfterPoll(s.workers[id], true, s.clock)]))
  {
    assert WorkerFine(cfg, s, id);
    AfterPollFine(cfg, s.core.watches[id], s.core.watches[id], s.workers[id], true, s.clock, 0);
    WorkerOnly(cfg, s, id, AfterPoll(s.workers[id], true, s.clock));
  }

  lemma LockedMoveForm(cfg: Config, s: Sys, id: string, env: Env)
    requires id in s.workers && Locks(s.workers[id].phase)
    ensures var (c2, stop) := LockedStep(s.core, cfg, id, s.workers[id].phase, s.clock, env.io);
      MoveWorker(cfg, s, id, env) == s.(core := c2, workers := s.workers[id := AfterPoll(s.workers[id], stop, s.clock)])
  {
  }

  lemma LockedMoveKeeps(cfg: Config, s: Sys, id: string, env: Env)
    requires SysInv(cfg, s) && ValidConfig(cfg) && id in s.workers && Locks(s.workers[id].phase)
    ensures var s2 := MoveWorker(cfg, s, id, env);
      SysInv(cfg, s2) && Advances(s.core, s2.core) && (env.io ==> s2.core.lost <= s.core.lost)
  {
    LockedMoveForm(cfg, s, id, env);
    if Live(s.core, id) {
      var polls := LockedStepMoves(cfg, s, id, env.io);
      var (c2, stop) := LockedStep(s.core, cfg, id, s.workers[id].phase, s.clock, env.io);
      LiveMoveKeeps(cfg, s, id, c2, stop, polls, env.io);
    } else {
      LateStepIsNothing(cfg, s, id, env.io);
      LateMoveKeeps(cfg, s, id);
      AdvancesReflexive(s.core);
    }
  }

  lemma BeginFine(cfg: Config, s: Sys, id: string)
    requires SysInv(cfg, s) && id in s.workers && s.workers[id].phase.Ready?
    ensures Fine(cfg, s.core.watches[id], s.workers[id].(phase := BeginPoll(s.core, cfg, id, s.clock)), s.clock)
  {
    assert WorkerFine(cfg, s, id) && StampedAt(s.core, s.clock, id);
  }

  /** A worker whose context is done has an ended watch, so leaving early is no loss. */
  lemma DoneMeansEnded(cfg: Config, s: Sys, id: string)
    requires SysInv(cfg, s) && id in s.core.done
    ensures id in s.core.watches && s.core.watches[id].terminal
  {
    assert ReleasedAt(s.core, id);
  }

  lemma FetchFine(cfg: Config, s: Sys, id: string, result: FetchResult)
    requires SysInv(cfg, s) && id in s.workers && s.workers[id].phase.Fetching?
    ensures Fine(cfg, s.core.watches[id], s.workers[id].(phase := AfterFetch(result, s.clock, id in s.core.done)),
        s.clock)
  {
    assert WorkerFine(cfg, s, id) && StampedAt(s.core, s.clock, id);
    if id in s.core.done { DoneMeansEnded(cfg, s, id); }
  }

  lemma TriggerFine(cfg: Config, s: Sys, id: string, read: TriggerRead)
    requires SysInv(cfg, s) && id in s.workers && s.workers[id].phase.Fetched?
    ensures var k := s.workers[id];
      Fine(cfg, s.core.watches[id], k.(phase := AfterTriggerRead(k.phase.now, k.phase.data, read)), s.clock)
  {
    assert WorkerFine(cfg, s, id);
  }

  lemma MarkFine(cfg: Config, s: Sys, id: string, marked: bool)
    requires SysInv(cfg, s) && id in s.workers && s.workers[id].phase.Marking?
    ensures var k := s.workers[id];
      Fine(cfg, s.core.watches[id], k.(phase := AfterMark(k.phase.now, k.phase.review, k.phase.row, marked)), s.clock)
  {
    assert WorkerFine(cfg, s, id);
  }

  lemma TickFine(cfg: Config, s: Sys, id: string)
    requires SysInv(cfg, s) && id in s.workers && s.workers[id].phase.Waiting? && TickDue(cfg, s.workers[id], s.clock)
    ensures var k := s.workers[id]; Fine(cfg, s.core.watches[id], k.(phase := Ready, polls := k.polls + 1), s.clock)
  {
    assert WorkerFine(cfg, s, id);
    var k := s.workers[id];
    assert k.polls + 1 - 1 == k.polls && k.polls + 1 - 2 == k.polls - 1;
    assert Span(cfg, k.polls) == k.polls * cfg.pollInterval;
  }

  lemma WorkerMoveKeeps(cfg: Config, s: Sys, id: string, env: Env)
    requires SysInv(cfg, s) && ValidConfig(cfg) && id in s.workers
    ensures var s2 := MoveWorker(cfg, s, id, env);
      SysInv(cfg, s2) && Advances(s.core, s2.core) && (env.io ==> s2.core.lost <= s.core.lost)
  {
    var k := s.workers[id];
    AdvancesReflexive(s.core);
    match k.phase {
      case Ready =>
        BeginFine(cfg, s, id);
        WorkerOnly(cfg, s, id, k.(phase := BeginPoll(s.core, cfg, id, s.clock)));
      case Fetching =>
        FetchFine(cfg, s, id, env.result);
        WorkerOnly(cfg, s, id, k.(phase := AfterFetch(env.result, s.clock, id in s.core.done)));
      case Fetched(now, data) =>
        TriggerFine(cfg, s, id, env.trigger);
        WorkerOnly(cfg, s, id, k.(phase := AfterTriggerRead(now, data, env.trigger)));
      case Marking(now, review, row) =>
        MarkFine(cfg, s, id, env.marked);
        WorkerOnly(cfg, s, id, k.(phase := AfterMark(now, review, row, env.marked)));
      case Waiting =>
        if env.cancelledFirst && id in s.core.done {
          DoneMeansEnded(cfg, s, id);
          assert WorkerFine(cfg, s, id);
          WorkerOnly(cfg, s, id, k.(phase := Exited));
        } else if TickDue(cfg, k, s.clock) {
          TickFine(cfg, s, id);
          WorkerOnly(cfg, s, id, k.(phase := Ready, polls := k.polls + 1));
        }
      case Exited =>
      case _ => LockedMoveKeeps(cfg, s, id, env);
    }
  }

  // ----- Start -----

  lemma MintedNow(boot: Time, clock: Time, idSeq: nat)
    ensures Minted(WatchID(clock, idSeq), boot, clock, idSeq)
  {
  }

  lemma NewWatchKeeps(cfg: Config, s: Sys, c2: Core, w: Watch)
    requires SysInv(cfg, s) && ValidConfig(cfg) && Adds(s.core, c2, w) && Inv(c2, cfg) && Advances(s.core, c2)
    requires w.id == WatchID(s.clock, s.core.idSeq + 1) && w.startedAt == s.clock && w.updatedAt == s.clock
        && w.pollsDone == 0
    ensures SysInv(cfg, s.(core := c2, workers := s.workers[w.id := Worker(Ready, 1, None)]))
  {
    var s2 := s.(core := c2, workers := s.workers[w.id := Worker(Ready, 1, None)]);
    AddsStamped(s.core, c2, w, s.clock);
    forall id ensures WorkerFine(cfg, s2, id) {
      assert WorkerFine(cfg, s, id);
      if id == w.id {
        assert Span(cfg, 0) == 0;
      } else if id in c2.watches {
        assert FollowsAt(s.core, c2, id) && SamePolls(s.core, c2, id);
        MovesKeepWorker(cfg, s, s2, id);
      }
    }
    MintedNow(s.boot, s.clock, s.core.idSeq + 1);
    forall i ensures RowMinted(s2, i) {
      assert RowMinted(s, i);
      if 0 <= i < |s.core.rows| { MintedLater(s.core.rows[i].id, s.boot, s.clock, s.core.idSeq, s.clock, c2.idSeq); }
    }
  }

  lemma StartKeeps(cfg: Config, s: Sys, input: StartInput, trigger: Option<int>, io: bool)
    requires SysInv(cfg, s) && ValidConfig(cfg)
    ensures var s2 := Step(cfg, s, StartCall(input, trigger, io));
      SysInv(cfg, s2) && Advances(s.core, s2.core) && (io ==> s2.core.lost <= s.core.lost)
  {
    var c := s.core;
    AdvancesReflexive(c);
    if ValidStart(input) && !c.closed {
      assert KeyIndexed(c, input.key);
      if input.key in c.active {
        var id := c.active[input.key];
        assert StampedAt(c, s.clock, id);
        ReuseKeeps(cfg, s, id, input.token, trigger, io);
      } else {
        assert c.(active := c.active - {input.key}) == c;
        StartNewKeeps(cfg, s, input, trigger, io);
      }
    }
  }

  lemma ReuseKeeps(cfg: Config, s: Sys, id: string, token: string, trigger: Option<int>, io: bool)
    requires SysInv(cfg, s) && ValidConfig(cfg) && Live(s.core, id) && s.core.watches[id].startedAt <= s.clock
        && token != ""
    ensures var (c2, r) := Reuse(s.core, id, token, trigger, s.clock, io);
      && SysInv(cfg, s.(core := c2)) && Advances(s.core, c2) && (io ==> c2.lost <= s.core.lost)
      && (r.Running? ==> r.reused)
  {
    var c2 := Reuse(s.core, id, token, trigger, s.clock, io).0;
    ReuseSteps(s.core, cfg, id, token, trigger, s.clock, io);
    assert WatchIndexed(s.core, id);
    if c2 != s.core { RewriteStamped(s.core, c2, c2.watches[id], s.clock); }
    CoreOnly(cfg, s, c2);
  }

  lemma RefusedStartKeeps(cfg: Config, s: Sys, c2: Core)
    requires SysInv(cfg, s) && c2 == s.core.(idSeq := s.core.idSeq + 1) && Inv(c2, cfg)
    ensures SysInv(cfg, s.(core := c2)) && Advances(s.core, c2)
  {
    forall id ensures StampedAt(c2, s.clock, id) { assert StampedAt(s.core, s.clock, id); }
    CoreOnly(cfg, s, c2);
  }

  lemma StartNewKeeps(cfg: Config, s: Sys, input: StartInput, trigger: Option<int>, io: bool)
    requires SysInv(cfg, s) && ValidConfig(cfg) && ValidStart(input) && !s.core.closed && input.key !in s.core.active
    ensures var (c2, r) := StartNew(s.core, input, trigger, s.clock, io);
      && Advances(s.core, c2) && c2.lost == s.core.lost
      && (r.Running? ==>
          && !r.reused
          && SysInv(cfg, s.(core := c2, workers := s.workers[r.snapshot.watchID := Worker(Ready, 1, None)])))
      && (!r.Running? ==> SysInv(cfg, s.(core := c2)))
  {
    NextIDFresh(cfg, s);
    StartNewSteps(s.core, cfg, input, trigger, s.clock, io);
    StartNewForm(s.core, input, trigger, s.clock, io);
    var (c2, r) := StartNew(s.core, input, trigger, s.clock, io);
    if r.Running? {
      NewWatchKeeps(cfg, s, c2, NewWatch(WatchID(s.clock, s.core.idSeq + 1), input, trigger, s.clock));
    } else {
      RefusedStartKeeps(cfg, s, c2);
    }
  }

  // ----- the rest -----

  lemma CancelMoves(cfg: Config, s: Sys, id: string, io: bool)
    requires SysInv(cfg, s) && Live(s.core, id)
    ensures var c2 := CancelWatch(s.core, id, s.clock, io).0;
      SysInv(cfg, s.(core := c2)) && Advances(s.core, c2) && (io ==> c2.lost <= s.core.lost)
  {
    assert StampedAt(s.core, s.clock, id);
    CancelWatchSteps(s.core, cfg, id, s.clock, io);
    StepsMove(cfg, s, CancelWatch(s.core, id, s.clock, io).0, id, s.clock, 0, io);
    CoreOnly(cfg, s, CancelWatch(s.core, id, s.clock, io).0);
  }

  lemma CancelKeeps(cfg: Config, s: Sys, e: Event)
    requires SysInv(cfg, s) && (e.CancelByID? || e.CancelLatest?)
    ensures SysInv(cfg, Step(cfg, s, e)) && Advances(s.core, Step(cfg, s, e).core)
    ensures Accepts(e) ==> Step(cfg, s, e).core.lost <= s.core.lost
  {
    AdvancesReflexive(s.core);
    if e.CancelByID? {
      if Live(s.core, e.id) && s.core.watches[e.id].key.login == e.login { CancelMoves(cfg, s, e.id, e.io); }
    } else {
      assert KeyIndexed(s.core, e.key);
      if e.key in s.core.active {
        CancelMoves(cfg, s, s.core.active[e.key], e.io);
      } else {
        assert s.core.active - {e.key} == s.core.active;
      }
    }
  }

  lemma CloseKeeps(cfg: Config, s: Sys, keys: seq<WatchKey>, accepted: set<WatchKey>)
    requires SysInv(cfg, s) && forall k :: k in s.core.active ==> k in keys
    ensures var c2 := CloseLocked(s.core, keys, s.clock, accepted);
      && SysInv(cfg, s.(core := c2)) && Advances(s.core, c2)
      && ((forall k :: k in keys ==> k in accepted) ==> c2.lost <= s.core.lost)
  {
    var c2 := CloseLocked(s.core, keys, s.clock, accepted);
    CloseSteps(s.core, cfg, keys, s.clock, accepted);
    CoreOnly(cfg, s, c2);
  }

  lemma ReleaseKeeps(cfg: Config, s: Sys, id: string)
    requires SysInv(cfg, s) && id in s.core.watches && s.core.watches[id].terminal
    ensures var c2 := s.core.(done := s.core.done + {id}); SysInv(cfg, s.(core := c2)) && Advances(s.core, c2)
  {
    var c2 := s.core.(done := s.core.done + {id});
    ReleaseSteps(s.core, cfg, id);
    forall x ensures StampedAt(c2, s.clock, x) { assert StampedAt(s.core, s.clock, x); }
    CoreOnly(cfg, s, c2);
  }

  lemma AdvanceKeeps(cfg: Config, s: Sys, to: Time)
    requires SysInv(cfg, s) && s.clock <= to
    ensures SysInv(cfg, s.(clock := to))
  {
    var s2 := s.(clock := to);
    StampedLater(s.core, s.clock, to);
    AdvancesReflexive(s.core);
    forall id ensures WorkerFine(cfg, s2, id) {
      assert WorkerFine(cfg, s, id) && FollowsAt(s.core, s.core, id) && SamePolls(s.core, s.core, id);
      if id in s.core.watches { MovesKeepWorker(cfg, s, s2, id); }
    }
    MovesKeepMinted(s, s2);
  }
}
