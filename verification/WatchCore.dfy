/**
 The state the watch manager keeps under its mutex, and each critical section of
 internal/watch/manager.go as a function on that state.

 `now` is a clock reading taken by the caller. `io` says whether the database accepts the write.
 `hist`, `sent` and `lost` are history: they are appended to and never read by the program.
 */
module WatchCore {
  import opened Base
  import opened Domain
  import opened Store
  import opened Review

  datatype Config = Config(pollInterval: Time, maxWatchDuration: Time, upstreamFailureThreshold: int)

  /** NewManager's defaults for options that are not positive. */
  function NewConfig(pollInterval: Time, maxWatchDuration: Time, upstreamFailureThreshold: int): (cfg: Config)
    ensures ValidConfig(cfg)
    ensures ValidConfig(Config(pollInterval, maxWatchDuration, upstreamFailureThreshold)) ==>
              cfg == Config(pollInterval, maxWatchDuration, upstreamFailureThreshold)
    ensures cfg.pollInterval in {pollInterval, 90 * SECOND} && (cfg.pollInterval != pollInterval ==> pollInterval <= 0)
    ensures cfg.maxWatchDuration in {maxWatchDuration, 7200 * SECOND}
        && (cfg.maxWatchDuration != maxWatchDuration ==> maxWatchDuration <= 0)
    ensures cfg.upstreamFailureThreshold in {upstreamFailureThreshold, 5}
        && (cfg.upstreamFailureThreshold != upstreamFailureThreshold ==> upstreamFailureThreshold <= 0)
  {
    Config(if pollInterval <= 0 then 90 * SECOND else pollInterval,
           if maxWatchDuration <= 0 then 7200 * SECOND else maxWatchDuration,
           if upstreamFailureThreshold <= 0 then 5 else upstreamFailureThreshold)
  }

  predicate ValidConfig(cfg: Config) {
    cfg.pollInterval > 0 && cfg.maxWatchDuration > 0 && cfg.upstreamFailureThreshold > 0
  }

  /** One watchState; `client` holds the token its GitHub client was built with. */
  datatype Watch = Watch(
    id: string,
    key: WatchKey,
    triggerLogID: Option<int>,
    resourceURI: Option<string>,
    token: string,
    client: Option<string>,
    status: WatchStatus,
    reviewStatus: Option<ReviewStatus>,
    failureReason: Option<FailureReason>,
    terminal: bool,
    workerRunning: bool,
    pollsDone: nat,
    startedAt: Time,
    updatedAt: Time,
    completedAt: Option<Time>,
    staleAt: Option<Time>,
    lastPolledAt: Option<Time>,
    lastError: Option<string>,
    rateLimitResetAt: Option<Time>,
    upstreamFailureCount: nat,
    recoveryHint: Option<string>)

  /** What the history records about a watch. */
  datatype Commit =
    | Started(id: string)
    | TokenSwapped(id: string)
    | PollOk(id: string, review: ReviewStatus, saved: bool)
    | UpstreamFailed(id: string)
    | ClosedByManager(id: string)

  datatype Core = Core(
    watches: map<string, Watch>,
    active: map<WatchKey, string>,
    latest: map<WatchKey, string>,
    closed: bool,
    done: set<string>,      // watches whose context was cancelled
    idSeq: nat,
    rows: seq<WatchEntry>,
    hist: seq<Commit>,
    sent: seq<string>,      // resource URIs notified
    lost: set<string>)      // watches whose last write failed

  function EmptyCore(rows: seq<WatchEntry>): Core {
    Core(map[], map[], map[], false, {}, 0, rows, [], [], {})
  }

  // ----- identity -----

  function WatchID(now: Time, seqNo: nat): string {
    "cw_" + IntText(now) + "_" + IntText(seqNo)
  }

  /** The clock reading and the sequence number can be read back from an ID. */
  lemma WatchIDInjective(t: Time, m: nat, u: Time, n: nat)
    requires WatchID(t, m) == WatchID(u, n)
    ensures t == u && m == n
  {
    var a, b := IntText(t) + "_" + IntText(m), IntText(u) + "_" + IntText(n);
    assert WatchID(t, m) == "cw_" + a && WatchID(u, n) == "cw_" + b;
    assert a == ("cw_" + a)[3..] && b == ("cw_" + b)[3..];
    SplitAtSeparator(IntText(t), IntText(m), IntText(u), IntText(n), '_');
    IntTextInjective(t, u);
    IntTextInjective(m, n);
  }

  const URI_PREFIX := "review-raven://watch/"

  function ResourceURI(id: string): string {
    URI_PREFIX + id
  }

  // ----- texts -----

  const CLOSED_TEXT := "watch manager closed before the watch could finish"
  const CANCELLED_TEXT := "watch was cancelled manually"
  const PERSIST_TEXT := "failed to persist review_watch"
  const UPSTREAM_TEXT := "gateway upstream_failure persisted; re-authenticate or retry later"
  const LOW_BUDGET_TEXT := "GitHub API rate limit is low; poll again after the reset time"
  const UPSTREAM_HINT := "Re-authenticate or retry later: gateway upstream was unreachable."

  // ----- persistence -----

  function EntryOf(w: Watch): WatchEntry {
    WatchEntry(w.id, w.key, w.triggerLogID, w.resourceURI, w.status, w.reviewStatus, w.failureReason,
               !w.terminal, w.startedAt, w.updatedAt, w.completedAt, w.staleAt, w.lastError,
               w.rateLimitResetAt, w.recoveryHint)
  }

  /** persistLocked */
  function Save(c: Core, id: string, io: bool): (r: (Core, bool))
    requires id in c.watches
  {
    var rows := if io then Upsert(c.rows, EntryOf(c.watches[id])) else None;
    if rows.None? then (c.(lost := c.lost + {id}), false)
    else (c.(rows := rows.value, lost := c.lost - {id}), true)
  }

  function Degraded(w: Watch, intended: WatchStatus, now: Time): Watch {
    var w := w.(updatedAt := now,
                completedAt := if w.completedAt.None? then Some(now) else w.completedAt,
                lastError := Some(PERSIST_TEXT),
                terminal := true, workerRunning := false, token := "", client := None);
    if intended == Stale then
      w.(status := Stale, failureReason := None, staleAt := if w.staleAt.None? then Some(now) else w.staleAt)
    else
      w.(status := Failed, failureReason := Some(InternalError))
  }

  /**
   Writes a changed watch back and persists it, as persistOrDegradeLocked does: an ended watch has left
   the active map, and a watch whose write is refused ends here. The boolean says whether it was saved.
   */
  function CommitWatch(c: Core, w: Watch, intended: WatchStatus, now: Time, io: bool): (Core, bool) {
    var rows := if io then Upsert(c.rows, EntryOf(w)) else None;
    if rows.Some? then
      (c.(watches := c.watches[w.id := w],
          active := if w.terminal then c.active - {w.key} else c.active,
          rows := rows.value,
          lost := c.lost - {w.id}), true)
    else
      (c.(watches := c.watches[w.id := Degraded(w, intended, now)],
          active := c.active - {w.key},
          done := c.done + {w.id},
          lost := c.lost + {w.id}), false)
  }

  function Notify(c: Core, w: Watch): Core {
    if w.resourceURI.Some? then c.(sent := c.sent + [w.resourceURI.value]) else c
  }

  function Log(c: Core, e: Commit): Core {
    c.(hist := c.hist + [e])
  }

  // ----- ending a watch -----

  function Ended(w: Watch, status: WatchStatus, reason: Option<FailureReason>, now: Time, errText: string,
          hint: Option<string>): Watch
  {
    w.(status := status, failureReason := reason, recoveryHint := hint, terminal := true, workerRunning := false,
       updatedAt := now, completedAt := Some(now), staleAt := if status == Stale then Some(now) else w.staleAt,
       token := "", client := None, lastError := if errText != "" then Some(errText) else w.lastError)
  }

  /** finishLocked */
  function Finish(c: Core, w: Watch, status: WatchStatus, reason: Option<FailureReason>, now: Time, errText: string,
          hint: Option<string>, io: bool): Core
  {
    var c1 := CommitWatch(c, Ended(w, status, reason, now, errText, hint), status, now, io).0;
    Notify(c1.(done := c1.done + {w.id}), w)
  }

  predicate Live(c: Core, id: string) {
    id in c.watches && !c.watches[id].terminal
  }

  /** markPollLocked */
  function Polled(w: Watch, now: Time): Watch {
    w.(pollsDone := w.pollsDone + 1, updatedAt := now, lastPolledAt := Some(now))
  }

  function FinishState(c: Core, id: string, now: Time, status: WatchStatus, reason: Option<FailureReason>,
          errText: string, countedPoll: bool, hint: Option<string>, io: bool): Core
  {
    if !Live(c, id) then c
    else
      var w := c.watches[id];
      Finish(c, if countedPoll then Polled(w, now) else w.(updatedAt := now), status, reason, now, errText, hint, io)
  }

  function MarkStale(c: Core, id: string, errText: string, now: Time, io: bool): Core {
    if !Live(c, id) then c else Finish(c, c.watches[id], Stale, None, now, errText, None, io)
  }

  // ----- the commits of a poll; the boolean says whether the worker stops -----

  function HandleUpstreamFailure(c: Core, cfg: Config, id: string, now: Time, errText: string, io: bool): (Core, bool) {
    if !Live(c, id) then (c, true)
    else
      var w := Polled(c.watches[id], now);
      var w := w.(upstreamFailureCount := w.upstreamFailureCount + 1);
      if w.upstreamFailureCount >= cfg.upstreamFailureThreshold then
        (Log(Finish(c, w, Failed, Some(AuthExpired), now, UPSTREAM_TEXT, Some(UPSTREAM_HINT), io),
            UpstreamFailed(id)), true)
      else
        var (c1, saved) := CommitWatch(c, w.(lastError := Some(errText)), Watching, now, io);
        var c2 := Log(c1, UpstreamFailed(id));
        if saved then (c2, false) else (Notify(c2, w), true)
  }

  function CommitLowBudget(c: Core, id: string, now: Time, review: ReviewStatus, reset: Option<Time>, io: bool): Core {
    if !Live(c, id) then c
    else
      var w := Polled(c.watches[id], now).(reviewStatus := Some(review), lastError := None, rateLimitResetAt := reset);
      Finish(c, w, RateLimited, None, now, LOW_BUDGET_TEXT, None, io)
  }

  function LinkTrigger(w: Watch, entry: Option<int>): Watch {
    if w.triggerLogID.None? && entry.Some? then w.(triggerLogID := entry) else w
  }

  /** watchStatusForReview */
  function DoneStatus(review: ReviewStatus): Option<WatchStatus> {
    match review
    case ReviewCompleted => Some(Completed)
    case ReviewBlocked => Some(Blocked)
    case _ => None
  }

  function CommitDone(c: Core, id: string, now: Time, review: ReviewStatus, entry: Option<int>, io: bool): Core
    requires DoneStatus(review).Some?
  {
    if !Live(c, id) then c
    else
      var w := Polled(c.watches[id], now).(reviewStatus := Some(review), lastError := None, rateLimitResetAt := None);
      Finish(c, LinkTrigger(w, entry), DoneStatus(review).value, None, now, "", None, io)
  }

  function CommitOk(c: Core, id: string, now: Time, review: ReviewStatus, entry: Option<int>, io: bool): (Core, bool) {
    if !Live(c, id) then (c, true)
    else
      var before := c.watches[id];
      var w := Polled(before, now).(reviewStatus := Some(review), lastError := None, upstreamFailureCount := 0,
          rateLimitResetAt := None);
      var w := LinkTrigger(w, entry).(status := Watching, workerRunning := true);
      var (c1, saved) := CommitWatch(c, w, Watching, now, io);
      var c2 := Log(c1, PollOk(id, review, saved));
      if !saved then (Notify(c2, w), true)
      else (if before.reviewStatus != Some(review) then Notify(c2, w) else c2, false)
  }

  // ----- snapshots -----

  datatype Snapshot = Snapshot(
    watchID: string,
    key: WatchKey,
    resourceURI: Option<string>,
    watchStatus: WatchStatus,
    reviewStatus: Option<ReviewStatus>,
    failureReason: Option<FailureReason>,
    terminal: bool,
    workerRunning: bool,
    pollsDone: nat,
    startedAt: Time,
    updatedAt: Time,
    completedAt: Option<Time>,
    staleAt: Option<Time>,
    lastPolledAt: Option<Time>,
    rateLimitResetAt: Option<Time>,
    lastError: Option<string>,
    recoveryHint: Option<string>)

  function SnapshotOf(w: Watch): Snapshot {
    Snapshot(w.id, w.key, w.resourceURI, w.status, w.reviewStatus, w.failureReason, w.terminal, w.workerRunning,
             w.pollsDone, w.startedAt, w.updatedAt, w.completedAt, w.staleAt, w.lastPolledAt, w.rateLimitResetAt,
             w.lastError, w.recoveryHint)
  }

  function SnapshotOfEntry(e: WatchEntry): Snapshot {
    Snapshot(e.id, e.key, e.resourceURI, e.watchStatus, e.reviewStatus, e.failureReason, !e.isActive, false,
             0, e.startedAt, e.updatedAt, e.completedAt, e.staleAt, None, e.rateLimitResetAt,
             e.lastError, e.recoveryHint)
  }

  // ----- Start -----

  datatype StartInput = StartInput(key: WatchKey, token: string)

  predicate ValidStart(input: StartInput) {
    input.key.login != "" && input.token != "" && input.key.owner != "" && input.key.repo != "" && input.key.pr > 0
  }

  datatype StartResult =
    | InputRefused | TriggerUnreadable | ManagerClosed | PersistFailed
    | Running(snapshot: Snapshot, reused: bool)

  function NewWatch(id: string, input: StartInput, trigger: Option<int>, now: Time): Watch {
    Watch(id, input.key, trigger, Some(ResourceURI(id)), input.token, Some(input.token), Watching, None, None,
          false, true, 0, now, now, None, None, None, None, None, 0, None)
  }

  /** A live watch when its key is started again: new credentials start a fresh failure budget. */
  function Reused(w: Watch, token: string, trigger: Option<int>, now: Time): Watch {
    var w1 := if w.token != token
      then w.(updatedAt := now, token := token, client := Some(token), upstreamFailureCount := 0, lastError := None,
          recoveryHint := None)
      else w;
    if w.triggerLogID.None? && trigger.Some? then w1.(updatedAt := now, triggerLogID := trigger) else w1
  }

  /** The part of Start under the mutex when the key has a live watch. */
  function Reuse(c: Core, id: string, token: string, trigger: Option<int>, now: Time, io: bool): (Core, StartResult)
    requires id in c.watches
  {
    var w := c.watches[id];
    var w1 := Reused(w, token, trigger, now);
    if w.token != token || (w.triggerLogID.None? && trigger.Some?) then
      var c1 := c.(watches := c.watches[id := w1],
                   hist := if w.token != token then c.hist + [TokenSwapped(id)] else c.hist);
      var (c2, saved) := Save(c1, id, io);
      (c2, if saved then Running(SnapshotOf(w1), true) else PersistFailed)
    else (c, Running(SnapshotOf(w), true))
  }

  function StartNew(c: Core, input: StartInput, trigger: Option<int>, now: Time, io: bool): (Core, StartResult) {
    var seqNo := c.idSeq + 1;
    var id := WatchID(now, seqNo);
    var w := NewWatch(id, input, trigger, now);
    var rows := if io then Upsert(c.rows, EntryOf(w)) else None;
    if rows.None? then (c.(idSeq := seqNo), PersistFailed)
    else
      (c.(idSeq := seqNo,
          rows := rows.value,
          watches := c.watches[id := w],
          active := c.active[input.key := id],
          latest := c.latest[input.key := id],
          hist := c.hist + [Started(id)]),
       Running(SnapshotOf(w), false))
  }

  function StartLocked(c: Core, input: StartInput, trigger: Option<int>, now: Time, io: bool): (Core, StartResult) {
    if c.closed then (c, ManagerClosed)
    else if input.key in c.active && Live(c, c.active[input.key]) then
      Reuse(c, c.active[input.key], input.token, trigger, now, io)
    else StartNew(c.(active := c.active - {input.key}), input, trigger, now, io)
  }

  // ----- Cancel -----

  /** The locked part's outcome; `trigger` is the row to complete after the lock is released. */
  datatype CancelStep =
    | NotOwned | NotInMemory
    | AlreadyEnded(snapshot: Snapshot)
    | CancelDone(snapshot: Snapshot, trigger: Option<int>)

  function CancelWatch(c: Core, id: string, now: Time, io: bool): (r: (Core, CancelStep))
    requires id in c.watches
  {
    var w := c.watches[id];
    if w.terminal then (c, AlreadyEnded(SnapshotOf(w)))
    else
      var c1 := Finish(c, w, Cancelled, None, now, CANCELLED_TEXT, None, io);
      (c1, if id in c1.watches then CancelDone(SnapshotOf(c1.watches[id]), w.triggerLogID) else NotInMemory)
  }

  function CancelByIDLocked(c: Core, login: string, id: string, now: Time, io: bool): (Core, CancelStep) {
    if id !in c.watches then (c, NotInMemory)
    else if c.watches[id].key.login != login then (c, NotOwned)
    else CancelWatch(c, id, now, io)
  }

  function CancelLatestLocked(c: Core, key: WatchKey, now: Time, io: bool): (Core, CancelStep) {
    if key in c.active && c.active[key] in c.watches then CancelWatch(c, c.active[key], now, io)
    else
      var c1 := c.(active := c.active - {key});
      if key in c.latest && c.latest[key] in c.watches then (c1, AlreadyEnded(SnapshotOf(c.watches[c.latest[key]])))
      else (c1, NotInMemory)
  }

  // ----- Close -----

  function ClosedWatch(w: Watch, now: Time): Watch {
    w.(status := Stale, terminal := true, workerRunning := false, updatedAt := now, completedAt := Some(now),
       staleAt := Some(now), token := "", client := None, lastError := Some(CLOSED_TEXT))
  }

  function CloseOne(c: Core, key: WatchKey, now: Time, io: bool): Core
    requires key in c.active
  {
    var id := c.active[key];
    if !Live(c, id) then c.(active := c.active - {key})
    else
      var (c1, saved) := CommitWatch(c, ClosedWatch(c.watches[id], now), Stale, now, io);
      c1.(active := (if saved then c.active else c1.active) - {key}, hist := c1.hist + [ClosedByManager(id)])
  }

  /** Close visits the active keys in the order the map iteration yields them. */
  function CloseEach(c: Core, keys: seq<WatchKey>, now: Time, io: set<WatchKey>): Core {
    if keys == [] then c
    else
      var n := |keys| - 1;
      var c1 := CloseEach(c, keys[..n], now, io);
      if keys[n] in c1.active then CloseOne(c1, keys[n], now, keys[n] in io) else c1
  }

  function CloseLocked(c: Core, keys: seq<WatchKey>, now: Time, io: set<WatchKey>): Core {
    if c.closed then c else CloseEach(c.(closed := true), keys, now, io)
  }
}
