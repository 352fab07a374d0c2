/** What the manager's calls answer, and which watches they change, in every state the invariant allows. */
module CallAnswers {
  import opened Base
  import opened Domain
  import opened Store
  import opened Review
  import opened WatchCore
  import opened WatchInvariant
  import opened WatchSections
  import opened WatchSteps
  import opened WatchLifecycle
  import opened WatchWorker
  import opened WatchSystem
  import opened WatchSafety
  import opened ManagerHelpers

  // ----- cancel -----

  /** As a manual cancel leaves a watch: CANCELLED, or an internal failure if the write was refused. */
  ghost predicate CancelledAs(w: Watch, w2: Watch, now: Time, io: bool) {
    && w2.id == w.id && w2.key == w.key && w2.terminal && w2.completedAt == Some(now) && w2.token == ""
        && w2.client.None?
    && w2.pollsDone == w.pollsDone && w2.triggerLogID == w.triggerLogID && w2.reviewStatus == w.reviewStatus
    && if io then w2.status == Cancelled && w2.failureReason.None?
       else w2.status == Failed && w2.failureReason == Some(InternalError)
  }

  ghost predicate OnlyOneChanges(c: Core, c2: Core, id: string) {
    && c2.watches.Keys == c.watches.Keys
    && forall x :: x in c.watches && x != id ==> c2.watches[x] == c.watches[x]
  }

  lemma CancelLeaves(c: Core, cfg: Config, id: string, now: Time, io: bool)
    requires Inv(c, cfg) && Live(c, id)
    ensures var c2 := CancelWatch(c, id, now, io).0;
      OnlyOneChanges(c, c2, id) && CancelledAs(c.watches[id], c2.watches[id], now, io)
  {
    LiveDraft(c, cfg, id);
    var e := Ended(c.watches[id], Cancelled, None, now, CANCELLED_TEXT, None);
    LiveWriteIsAccepted(c, e);
  }

  /** A cancel by ID changes a watch exactly if it has that ID, is live, and belongs to the caller; then it ends. */
  lemma CancelByIDChangesExactly(cfg: Config, s: Sys, login: string, id: string, io: bool, x: string)
    requires SysInv(cfg, s) && x in s.core.watches
    ensures var w, s2 := s.core.watches[x], Step(cfg, s, CancelByID(login, id, io));
      && x in s2.core.watches
      && (s2.core.watches[x] != w <==> x == id && !w.terminal && w.key.login == login)
      && (s2.core.watches[x] != w ==> CancelledAs(w, s2.core.watches[x], s.clock, io))
    ensures Step(cfg, s, CancelByID(login, id, io)) == s <==>
            !(id in s.core.watches && !s.core.watches[id].terminal && s.core.watches[id].key.login == login)
  {
    if Live(s.core, id) { CancelLeaves(s.core, cfg, id, s.clock, io); }
  }

  /** A cancel by key changes a watch exactly if it has that key and is live; then it ends. */
  lemma CancelLatestChangesExactly(cfg: Config, s: Sys, key: WatchKey, io: bool, x: string)
    requires SysInv(cfg, s) && x in s.core.watches
    ensures var w, s2 := s.core.watches[x], Step(cfg, s, CancelLatest(key, io));
      && x in s2.core.watches
      && (s2.core.watches[x] != w <==> w.key == key && !w.terminal)
      && (s2.core.watches[x] != w ==> CancelledAs(w, s2.core.watches[x], s.clock, io))
    ensures key !in s.core.active ==> Step(cfg, s, CancelLatest(key, io)) == s
  {
    assert KeyIndexed(s.core, key) && WatchIndexed(s.core, x);
    if key in s.core.active {
      CancelLeaves(s.core, cfg, s.core.active[key], s.clock, io);
    } else {
      assert s.core.active - {key} == s.core.active;
    }
  }

  /** The live watch of the key is ended and no other; without one, the latest watch of the key is shown as it is. */
  ghost predicate CancelLatestAnswers(c: Core, ts: seq<Trigger>, key: WatchKey, read: bool, later: Time, marked: bool,
          c2: Core, ts2: seq<Trigger>, r: CancelResult)
  {
    if key in c.active then
      && c.active[key] in c.watches && c.watches[c.active[key]].key == key && !c.watches[c.active[key]].terminal
      && EndsOne(c, ts, c.active[key], later, marked, c2, ts2, r)
    else
      && c2 == c && ts2 == ts
      && LatestAnswers(c, key, read, if r.Found? then Some(r.snapshot) else None)
      && (r.Found? ==> !r.cancelled && r.snapshot.terminal == !ShownActive(c, key))
      && (r == LoadFailed <==> NoneInMemory(c, key) && !read)
      && r != CancelRefused
  }

  /** With nothing of the key in memory, what is shown is the latest row, which a lost process may have left active. */
  ghost predicate ShownActive(c: Core, key: WatchKey) {
    NoneInMemory(c, key) && LatestRow(c.rows, key).Some? && c.rows[LatestRow(c.rows, key).value].isActive
  }

  lemma CancelLatestMeans(c: Core, cfg: Config, ts: seq<Trigger>, key: WatchKey, now: Time, io: bool, read: bool,
          later: Time, marked: bool)
    requires Inv(c, cfg)
    ensures var (c2, step) := CancelLatestLocked(c, key, now, io);
      CancelLatestAnswers(c, ts, key, read, later, marked, c2, AfterCancel(ts, step, later, marked),
                          CancelAnswer(step, if read then Some(LatestEntry(c2.rows, key)) else None, key.login))
  {
    assert KeyIndexed(c, key);
    if key in c.active {
      assert WatchIndexed(c, c.active[key]);
      CancelWatchEnds(c, ts, c.active[key], now, io, later, marked);
    } else {
      assert c.(active := c.active - {key}) == c;
      LatestMeans(c, cfg, key, read);
      EndedUnlessActive(c, cfg, key);
    }
  }

  lemma EndedUnlessActive(c: Core, cfg: Config, key: WatchKey)
    requires Inv(c, cfg) && key !in c.active
    ensures forall id :: id in c.watches && c.watches[id].key == key ==> c.watches[id].terminal
  {
    forall id | id in c.watches && c.watches[id].key == key ensures c.watches[id].terminal {
      assert WatchIndexed(c, id);
    }
  }

  // ----- the latest watch of a key -----

  ghost predicate NoneInMemory(c: Core, key: WatchKey) {
    forall id :: id in c.watches ==> c.watches[id].key != key
  }

  /** A watch of the key in memory, the live one if there is one; else the latest row of the key, if it can be read. */
  ghost predicate LatestAnswers(c: Core, key: WatchKey, read: bool, r: Option<Snapshot>) {
    && (r.Some? ==> r.value.key == key)
    && (forall id :: Live(c, id) && c.watches[id].key == key ==> r == Some(SnapshotOf(c.watches[id])))
    && (!NoneInMemory(c, key) ==>
         r.Some? && r.value.watchID in c.watches && r.value == SnapshotOf(c.watches[r.value.watchID]))
    && (NoneInMemory(c, key) && !read ==> r.None?)
    && (NoneInMemory(c, key) && read ==>
         && (r.None? <==> forall e :: e in c.rows ==> e.key != key)
         && (r.Some? ==> LatestRow(c.rows, key).Some? && r.value == SnapshotOfEntry(c.rows[LatestRow(c.rows,
             key).value])))
  }

  lemma InMemoryIsCached(c: Core, cfg: Config, key: WatchKey)
    requires Inv(c, cfg)
    ensures NoneInMemory(c, key) <==> key !in c.latest
  {
    assert KeyIndexed(c, key);
    forall id | id in c.watches && c.watches[id].key == key ensures key in c.latest { assert WatchIndexed(c, id); }
  }

  lemma LatestMeans(c: Core, cfg: Config, key: WatchKey, read: bool)
    requires Inv(c, cfg)
    ensures LatestAnswers(c, key, read, LatestSnapshot(c, key, read))
  {
    InMemoryIsCached(c, cfg, key);
    assert KeyIndexed(c, key);
    forall id | Live(c, id) && c.watches[id].key == key ensures key in c.latest && c.latest[key] == id {
      assert WatchIndexed(c, id);
    }
    if key in c.latest { assert WatchIndexed(c, c.latest[key]); }
  }

  // ----- start -----

  /** What a start of this key means, once its input and the trigger row are known. */
  ghost predicate StartMeans(c: Core, input: StartInput, trigger: Option<int>, now: Time, io: bool, c2: Core,
          r: StartResult)
  {
    if c.closed then r == ManagerClosed && c2 == c
    else if exists id :: LiveOf(c, input.key, id) then
      exists id :: LiveOf(c, input.key, id) && Joins(c, id, input, trigger, now, io, c2, r)
    else if io && !(exists id :: LostEnding(c, id, input.key)) then r.Running? && Begins(c, input, trigger, now, c2, r)
    else r == PersistFailed && c2 == c.(idSeq := c.idSeq + 1)
  }

  ghost predicate LiveOf(c: Core, key: WatchKey, id: string) {
    id in c.watches && !c.watches[id].terminal && c.watches[id].key == key
  }

  /**
   The live watch is joined: it gets the new token with a fresh failure budget, and the trigger row if it has
   none.
   */
  ghost predicate Joins(c: Core, id: string, input: StartInput, trigger: Option<int>, now: Time, io: bool, c2: Core,
          r: StartResult)
    requires id in c.watches
  {
    && OnlyOneChanges(c, c2, id) && c2.active == c.active && c2.latest == c.latest
    && Joined(c.watches[id], c2.watches[id], input, trigger, now)
    && var w := c.watches[id];
      r == if (w.token != input.token || (w.triggerLogID.None? && trigger.Some?)) && !io then PersistFailed
           else Running(SnapshotOf(c2.watches[id]), true)
  }

  /** A watch with a new ID is added: it has done nothing yet. */
  ghost predicate Begins(c: Core, input: StartInput, trigger: Option<int>, now: Time, c2: Core, r: StartResult)
    requires r.Running?
  {
    var id := r.snapshot.watchID;
    && id !in c.watches && (forall e :: e in c.rows ==> e.id != id)
    && c2.watches.Keys == c.watches.Keys + {id} && (forall x :: x in c.watches ==> c2.watches[x] == c.watches[x])
    && c2.active == c.active[input.key := id] && c2.latest == c.latest[input.key := id]
    && var w := c2.watches[id];
      && r == Running(SnapshotOf(w), false) && w.id == id && w.key == input.key && w.triggerLogID == trigger
      && w.resourceURI == Some(ResourceURI(id)) && w.token == input.token && w.client == Some(input.token)
      && w.status == Watching && !w.terminal && w.workerRunning && w.startedAt == now && w.updatedAt == now
      && w.pollsDone == 0 && w.upstreamFailureCount == 0 && w.reviewStatus.None? && w.failureReason.None?
      && w.completedAt.None? && w.staleAt.None? && w.lastPolledAt.None? && w.lastError.None?
      && w.rateLimitResetAt.None? && w.recoveryHint.None?
  }

  /** The fields of a joined watch. */
  ghost predicate Joined(w: Watch, w2: Watch, input: StartInput, trigger: Option<int>, now: Time) {
    var swapped, linked := w.token != input.token, w.triggerLogID.None? && trigger.Some?;
    && !w2.terminal && w2.key == w.key && w2.token == input.token && w2.client == Some(input.token)
    && w2.triggerLogID == (if linked then trigger else w.triggerLogID)
    && w2.upstreamFailureCount == (if swapped then 0 else w.upstreamFailureCount)
    && w2.lastError == (if swapped then None else w.lastError)
    && w2.recoveryHint == (if swapped then None else w.recoveryHint)
    && w2.updatedAt == (if swapped || linked then now else w.updatedAt)
    && w2.startedAt == w.startedAt && w2.pollsDone == w.pollsDone && w2.reviewStatus == w.reviewStatus
  }

  lemma ReusedIsJoined(w: Watch, input: StartInput, trigger: Option<int>, now: Time)
    requires !w.terminal && w.client == Some(w.token)
    ensures Joined(w, Reused(w, input.token, trigger, now), input, trigger, now)
  {
  }

  lemma ReuseLeaves(c: Core, id: string, token: string, trigger: Option<int>, now: Time, io: bool)
    requires id in c.watches && c.watches[id].id == id
    requires Upsert(c.rows, EntryOf(Reused(c.watches[id], token, trigger, now))).Some?
    ensures var (c2, r) := Reuse(c, id, token, trigger, now, io);
      var w, w2 := c.watches[id], Reused(c.watches[id], token, trigger, now);
      && c2.watches == c.watches[id := w2] && c2.active == c.active && c2.latest == c.latest
      && r == (if (w.token != token || (w.triggerLogID.None? && trigger.Some?)) && !io then PersistFailed
               else Running(SnapshotOf(w2), true))
  {
    var w := Reused(c.watches[id], token, trigger, now);
    var c1 := c.(watches := c.watches[id := w],
                 hist := if c.watches[id].token != token then c.hist + [TokenSwapped(id)] else c.hist);
    SaveOutcome(c1, id, io);
  }

  lemma JoinMeans(c: Core, cfg: Config, id: string, input: StartInput, trigger: Option<int>, now: Time, io: bool)
    requires Inv(c, cfg) && LiveOf(c, input.key, id) && c.watches[id].startedAt <= now
    ensures var (c2, r) := Reuse(c, id, input.token, trigger, now, io);
      Joins(c, id, input, trigger, now, io, c2, r)
  {
    LiveDraft(c, cfg, id);
    assert ShapedAt(c, cfg, id);
    LiveWriteIsAccepted(c, Reused(c.watches[id], input.token, trigger, now));
    ReuseLeaves(c, id, input.token, trigger, now, io);
    ReusedIsJoined(c.watches[id], input, trigger, now);
  }

  lemma BeginMeans(c: Core, input: StartInput, trigger: Option<int>, now: Time, io: bool)
    requires Fresh(c, WatchID(now, c.idSeq + 1)) && input.key !in c.active && io
        && !KeyTaken(c.rows, input.key, |c.rows|)
    ensures var (c2, r) := StartNew(c, input, trigger, now, io);
      r.Running? && Begins(c, input, trigger, now, c2, r)
  {
    StartNewForm(c, input, trigger, now, io);
  }

  lemma FreeKeyMeans(cfg: Config, s: Sys, input: StartInput, trigger: Option<int>, io: bool)
    requires SysInv(cfg, s) && ValidConfig(cfg) && input.key !in s.core.active
    ensures var (c2, r) := StartNew(s.core, input, trigger, s.clock, io);
      if io && !(exists id :: LostEnding(s.core, id, input.key)) then
        r.Running? && Begins(s.core, input, trigger, s.clock, c2, r)
      else
        r == PersistFailed && c2 == s.core.(idSeq := s.core.idSeq + 1)
  {
    var c, key := s.core, input.key;
    NextIDFresh(cfg, s);
    StartBlockedByLostWatch(c, cfg, key);
    if io && !KeyTaken(c.rows, key, |c.rows|) {
      BeginMeans(c, input, trigger, s.clock, io);
    } else {
      StartNewForm(c, input, trigger, s.clock, io);
    }
  }

  /** Every start answers as StartMeans says, whatever state the system is in. */
  lemma StartAnswers(cfg: Config, s: Sys, input: StartInput, trigger: Option<int>, io: bool)
    requires SysInv(cfg, s) && ValidConfig(cfg)
    ensures var (c2, r) := StartLocked(s.core, input, trigger, s.clock, io);
      StartMeans(s.core, input, trigger, s.clock, io, c2, r)
  {
    var c, key := s.core, input.key;
    assert KeyIndexed(c, key);
    if key in c.active {
      var id := c.active[key];
      assert StampedAt(c, s.clock, id) && LiveOf(c, key, id);
      JoinMeans(c, cfg, id, input, trigger, s.clock, io);
    } else {
      EndedUnlessActive(c, cfg, key);
      assert c.(active := c.active - {key}) == c;
      FreeKeyMeans(cfg, s, input, trigger, io);
    }
  }

  // ----- what an answer shows -----

  /** The snapshot of a watch in memory, and the one of a row, field by field. */
  lemma SnapshotShows(w: Watch, e: WatchEntry)
    ensures var s := SnapshotOf(w);
      && s.watchID == w.id && s.key == w.key && s.resourceURI == w.resourceURI && s.watchStatus == w.status
      && s.reviewStatus == w.reviewStatus && s.failureReason == w.failureReason && s.terminal == w.terminal
      && s.workerRunning == w.workerRunning && s.pollsDone == w.pollsDone && s.startedAt == w.startedAt
      && s.updatedAt == w.updatedAt && s.completedAt == w.completedAt && s.staleAt == w.staleAt
      && s.lastPolledAt == w.lastPolledAt && s.rateLimitResetAt == w.rateLimitResetAt
      && s.lastError == w.lastError && s.recoveryHint == w.recoveryHint
    ensures var s := SnapshotOfEntry(e);
      && s.watchID == e.id && s.key == e.key && s.resourceURI == e.resourceURI && s.watchStatus == e.watchStatus
      && s.reviewStatus == e.reviewStatus && s.failureReason == e.failureReason && s.terminal == !e.isActive
      && !s.workerRunning && s.pollsDone == 0 && s.lastPolledAt.None? && s.startedAt == e.startedAt
      && s.updatedAt == e.updatedAt && s.completedAt == e.completedAt && s.staleAt == e.staleAt
      && s.rateLimitResetAt == e.rateLimitResetAt && s.lastError == e.lastError && s.recoveryHint == e.recoveryHint
  {
  }

  // ----- a worker's critical section -----

  lemma FinishChangesOne(c: Core, w: Watch, status: WatchStatus, reason: Option<FailureReason>, now: Time, text: string,
          hint: Option<string>, io: bool)
    requires w.id in c.watches
    ensures OnlyOneChanges(c, Finish(c, w, status, reason, now, text, hint, io), w.id)
  {
  }

  lemma CommitChangesOne(c: Core, w: Watch, intended: WatchStatus, now: Time, io: bool)
    requires w.id in c.watches
    ensures OnlyOneChanges(c, CommitWatch(c, w, intended, now, io).0, w.id)
  {
  }

  lemma OkChangesOne(c: Core, id: string, now: Time, review: ReviewStatus, entry: Option<int>, io: bool)
    requires Live(c, id) && c.watches[id].id == id
    ensures OnlyOneChanges(c, CommitOk(c, id, now, review, entry, io).0, id)
  {
    var w := OkWatch(c.watches[id], now, review, entry);
    var (c1, saved) := CommitWatch(c, w, Watching, now, io);
    assert CommitOk(c, id, now, review, entry, io).0.watches == c1.watches;
  }

  lemma EscalationChangesOne(c: Core, cfg: Config, id: string, now: Time, text: string, io: bool)
    requires Live(c, id) && c.watches[id].id == id
    requires c.watches[id].upstreamFailureCount + 1 >= cfg.upstreamFailureThreshold
    ensures OnlyOneChanges(c, HandleUpstreamFailure(c, cfg, id, now, text, io).0, id)
  {
    var w := Failing(c.watches[id], now);
    var c1 := Finish(c, w, Failed, Some(AuthExpired), now, UPSTREAM_TEXT, Some(UPSTREAM_HINT), io);
    FinishChangesOne(c, w, Failed, Some(AuthExpired), now, UPSTREAM_TEXT, Some(UPSTREAM_HINT), io);
    assert HandleUpstreamFailure(c, cfg, id, now, text, io).0.watches == c1.watches;
  }

  lemma ToleratedChangesOne(c: Core, cfg: Config, id: string, now: Time, text: string, io: bool)
    requires Live(c, id) && c.watches[id].id == id
    requires c.watches[id].upstreamFailureCount + 1 < cfg.upstreamFailureThreshold
    ensures OnlyOneChanges(c, HandleUpstreamFailure(c, cfg, id, now, text, io).0, id)
  {
    var w := Failing(c.watches[id], now).(lastError := Some(text));
    CommitChangesOne(c, w, Watching, now, io);
    assert HandleUpstreamFailure(c, cfg, id, now, text, io).0.watches == CommitWatch(c, w, Watching, now, io).0.watches;
  }

  /** It changes no watch but its own. */
  lemma SectionChangesOne(c: Core, cfg: Config, id: string, phase: Phase, clock: Time, io: bool, c2: Core, stop: bool)
    requires Inv(c, cfg) && Lands(c, cfg, id, phase, clock, io, c2, stop)
    ensures OnlyOneChanges(c, c2, id)
  {
    assert WatchIndexed(c, id);
    if Live(c, id) {
      var w := c.watches[id];
      match phase {
        case Committing(now, review, entry) =>
          if DoneStatus(review).Some? {
            var w := Polled(w, now).(reviewStatus := Some(review), lastError := None, rateLimitResetAt := None);
            FinishChangesOne(c, LinkTrigger(w, entry), DoneStatus(review).value, None, now, "", None, io);
          } else {
            OkChangesOne(c, id, now, review, entry, io);
          }
        case CommittingLow(now, review, reset) =>
          var w := Polled(w, now).(reviewStatus := Some(review), lastError := None, rateLimitResetAt := reset);
          FinishChangesOne(c, w, RateLimited, None, now, LOW_BUDGET_TEXT, None, io);
        case Ending(now, status, reason, text, counted, hint) =>
          var w := if counted then Polled(w, now) else w.(updatedAt := now);
          FinishChangesOne(c, w, status, reason, now, text, hint, io);
        case UpstreamFailing(now, text) =>
          if w.upstreamFailureCount + 1 >= cfg.upstreamFailureThreshold {
            EscalationChangesOne(c, cfg, id, now, text, io);
          } else {
            ToleratedChangesOne(c, cfg, id, now, text, io);
          }
        case Panicked(text) => FinishChangesOne(c, w, Stale, None, clock, text, None, io);
        case Exited =>
      }
    }
  }

  /** The poll of a known watch gets to its data exactly if it is live, not overdue, and the fetch succeeds. */
  lemma LiveGetsData(c: Core, cfg: Config, id: string, started: Time, result: FetchResult)
    requires Inv(c, cfg)
    ensures GetsData(c, cfg, id, started, result) <==>
            Live(c, id) && started - c.watches[id].startedAt < cfg.maxWatchDuration && result.Data?
  {
    assert ShapedAt(c, cfg, id);
  }
}
