/**
 The two SQLite tables: trigger_log and review_watch. A table is the sequence of its rows in
 rowid order; no statement deletes a row. Times are stored as whole seconds, so a stored time is
 the instant read back from the table.
 */
module Store {
  import opened Base
  import opened Domain

  // ----- review_watch -----

  datatype WatchEntry = WatchEntry(
    id: string,
    key: WatchKey,
    triggerLogID: Option<int>,
    resourceURI: Option<string>,
    watchStatus: WatchStatus,
    reviewStatus: Option<ReviewStatus>,
    failureReason: Option<FailureReason>,
    isActive: bool,
    startedAt: Time,
    updatedAt: Time,
    completedAt: Option<Time>,
    staleAt: Option<Time>,
    lastError: Option<string>,
    rateLimitResetAt: Option<Time>,
    recoveryHint: Option<string>)

  /** The entry as it reads back after being written: every time cut to its second. */
  function Stored(e: WatchEntry): WatchEntry {
    e.(startedAt := ToSecond(e.startedAt),
       updatedAt := ToSecond(e.updatedAt),
       completedAt := OptToSecond(e.completedAt),
       staleAt := OptToSecond(e.staleAt),
       rateLimitResetAt := OptToSecond(e.rateLimitResetAt))
  }

  /** The position of the row with this primary key, or the table's length. */
  function Find(rows: seq<WatchEntry>, id: string): (i: nat)
    ensures i <= |rows|
    ensures i < |rows| ==> rows[i].id == id
    ensures forall j :: 0 <= j < i ==> rows[j].id != id
  {
    if rows == [] then 0
    else if rows[0].id == id then 0
    else
      var i := Find(rows[1..], id);
      assert forall j :: 0 < j < 1 + i ==> rows[j] == rows[1..][j - 1];
      1 + i
  }

  /** The partial unique index: another active row already holds this key. */
  predicate KeyTaken(rows: seq<WatchEntry>, key: WatchKey, except: nat) {
    exists j :: 0 <= j < |rows| && j != except && rows[j].isActive && rows[j].key == key
  }

  /** INSERT .. ON CONFLICT(id) DO UPDATE; None is the unique-index violation. */
  function Upsert(rows: seq<WatchEntry>, e: WatchEntry): Option<seq<WatchEntry>> {
    var i := Find(rows, e.id);
    if i < |rows| then
      // identity columns of an existing row are never rewritten
      var row := Stored(e).(key := rows[i].key, startedAt := rows[i].startedAt);
      if row.isActive && KeyTaken(rows, row.key, i) then None else Some(rows[i := row])
    else if e.isActive && KeyTaken(rows, e.key, i) then None
    else Some(rows + [Stored(e)])
  }

  /** ORDER BY updated_at, started_at, rowid: row i comes before row j. */
  predicate Newer(rows: seq<WatchEntry>, i: nat, j: nat)
    requires i < |rows| && j < |rows|
  {
    var a, b := rows[i], rows[j];
    a.updatedAt > b.updatedAt ||
    (a.updatedAt == b.updatedAt &&
     (a.startedAt > b.startedAt || (a.startedAt == b.startedAt && i > j)))
  }

  /** The row GetLatestReviewWatch selects for a key. */
  function LatestRow(rows: seq<WatchEntry>, key: WatchKey): (r: Option<nat>)
    ensures r.Some? ==> r.value < |rows| && rows[r.value].key == key
    ensures r.Some? ==> forall j :: 0 <= j < |rows| && rows[j].key == key && j != r.value ==> Newer(rows, r.value, j)
    ensures r.None? ==> forall j :: 0 <= j < |rows| ==> rows[j].key != key
    decreases |rows|
  {
    if rows == [] then None
    else
      var n := |rows| - 1;
      var best := LatestRow(rows[..n], key);
      assert forall j :: 0 <= j < n ==> rows[..n][j] == rows[j];
      assert best.Some? ==>
        forall j :: 0 <= j < n && rows[j].key == key && j != best.value ==>
          Newer(rows[..n], best.value, j) && Newer(rows, best.value, j);
      if rows[n].key != key then best
      else if best.None? || Newer(rows, n, best.value) then Some(n)
      else best
  }

  /** It was updated last; then started last; then inserted last. */
  lemma LatestRowIsLast(rows: seq<WatchEntry>, key: WatchKey, j: nat)
    requires j < |rows| && rows[j].key == key
    ensures LatestRow(rows, key).Some?
    ensures var i := LatestRow(rows, key).value;
      && rows[i].key == key && rows[i].updatedAt >= rows[j].updatedAt
      && (rows[i].updatedAt == rows[j].updatedAt ==> rows[i].startedAt >= rows[j].startedAt)
      && (rows[i].updatedAt == rows[j].updatedAt && rows[i].startedAt == rows[j].startedAt ==> i >= j)
  {
    var i := LatestRow(rows, key).value;
    assert i == j || Newer(rows, i, j);
  }

  /** LatestRow is the only row that beats every other row of its key. */
  lemma LatestRowUnique(rows: seq<WatchEntry>, key: WatchKey, i: nat)
    requires i < |rows| && rows[i].key == key
    requires forall j :: 0 <= j < |rows| && rows[j].key == key && j != i ==> Newer(rows, i, j)
    ensures LatestRow(rows, key) == Some(i)
  {
    var r := LatestRow(rows, key);
    assert r.Some?;
  }

  function RowByID(rows: seq<WatchEntry>, id: string): Option<WatchEntry> {
    var i := Find(rows, id);
    if i < |rows| then Some(rows[i]) else None
  }

  function LatestEntry(rows: seq<WatchEntry>, key: WatchKey): Option<WatchEntry> {
    match LatestRow(rows, key)
    case None => None
    case Some(i) => Some(rows[i])
  }

  // ----- restart recovery -----

  const STALE_ON_OPEN := "watch became stale because the review-raven process restarted"

  function MarkedStale(e: WatchEntry, now: Time, lastError: string): WatchEntry {
    e.(watchStatus := Stale,
       failureReason := None,
       isActive := false,
       updatedAt := ToSecond(now),
       completedAt := if e.completedAt.Some? then e.completedAt else Some(ToSecond(now)),
       staleAt := if e.staleAt.Some? then e.staleAt else Some(ToSecond(now)),
       lastError :=
         if lastError == "" then e.lastError
         else if e.lastError.None? || e.lastError.value == "" then Some(lastError)
         else e.lastError)
  }

  function Recover(rows: seq<WatchEntry>, now: Time, lastError: string): (r: seq<WatchEntry>)
    ensures |r| == |rows|
    ensures forall i :: 0 <= i < |rows| ==>
      r[i] == if rows[i].isActive then MarkedStale(rows[i], now, lastError) else rows[i]
  {
    seq(|rows|, i requires 0 <= i < |rows| =>
      if rows[i].isActive then MarkedStale(rows[i], now, lastError) else rows[i])
  }

  predicate WellShapedStale(e: WatchEntry) {
    && e.watchStatus == Stale && e.failureReason.None? && !e.isActive
    && e.completedAt.Some? && e.staleAt.Some?
    && e.lastError.Some? && e.lastError.value != ""
  }

  /** The restart is the row's end and its last change; what was known of the review and the watch stays. */
  ghost predicate EndedByRestart(e: WatchEntry, e2: WatchEntry, now: Time) {
    && e2.updatedAt == ToSecond(now)
    && (e.completedAt.None? ==> e2.completedAt == Some(e2.updatedAt))
        && (e.completedAt.Some? ==> e2.completedAt == e.completedAt)
    && (e.staleAt.None? ==> e2.staleAt == Some(e2.updatedAt)) && (e.staleAt.Some? ==> e2.staleAt == e.staleAt)
    && (e.lastError.Some? && e.lastError.value != "" ==> e2.lastError == e.lastError)
    && e2.triggerLogID == e.triggerLogID && e2.resourceURI == e.resourceURI && e2.reviewStatus == e.reviewStatus
    && e2.rateLimitResetAt == e.rateLimitResetAt && e2.recoveryHint == e.recoveryHint
  }

  /** Opening the database ends every active row, touches no other row, and a second restart changes nothing. */
  lemma RecoveryIsFinal(rows: seq<WatchEntry>, now: Time, later: Time, i: nat)
    requires i < |rows|
    ensures var once := Recover(rows, now, STALE_ON_OPEN);
      && !once[i].isActive
      && (!rows[i].isActive ==> once[i] == rows[i])
      && (rows[i].isActive ==> WellShapedStale(once[i]))
      && (rows[i].isActive ==> EndedByRestart(rows[i], once[i], now))
      && once[i].id == rows[i].id && once[i].key == rows[i].key && once[i].startedAt == rows[i].startedAt
      && Recover(once, later, STALE_ON_OPEN) == once
  {
    var once := Recover(rows, now, STALE_ON_OPEN);
    assert forall j :: 0 <= j < |rows| ==> !once[j].isActive;
    assert Recover(once, later, STALE_ON_OPEN) == once;
  }

  // ----- trigger_log -----

  datatype Trigger = Trigger(
    id: int,
    pr: PullRequest,
    kind: string,
    requestedAt: Time,
    completedAt: Option<Time>,
    prevReviewID: Option<string>)

  /** INTEGER PRIMARY KEY with no deletions: ids count up from 1. */
  predicate TriggerIDs(ts: seq<Trigger>) {
    forall i :: 0 <= i < |ts| ==> ts[i].id == i + 1
  }

  function Inserted(ts: seq<Trigger>, pr: PullRequest, kind: string, requestedAt: Time,
          prevReviewID: Option<string>): seq<Trigger>
  {
    ts + [Trigger(|ts| + 1, pr, kind, ToSecond(requestedAt), None, prevReviewID)]
  }

  /** ORDER BY requested_at, id: a comes before b. */
  predicate TriggerNewer(a: Trigger, b: Trigger) {
    a.requestedAt > b.requestedAt || (a.requestedAt == b.requestedAt && a.id > b.id)
  }

  /** The row GetLatest selects for a pull request. */
  function LatestTrigger(ts: seq<Trigger>, pr: PullRequest): (r: Option<Trigger>)
    requires TriggerIDs(ts)
    ensures r.Some? ==> r.value in ts && r.value.pr == pr
    ensures r.Some? ==> forall t :: t in ts && t.pr == pr && t != r.value ==> TriggerNewer(r.value, t)
    ensures r.None? ==> forall t :: t in ts ==> t.pr != pr
    decreases |ts|
  {
    if ts == [] then None
    else
      var n := |ts| - 1;
      assert ts == ts[..n] + [ts[n]];
      var best := LatestTrigger(ts[..n], pr);
      if ts[n].pr != pr then best
      else if best.None? || TriggerNewer(ts[n], best.value) then Some(ts[n])
      else best
  }

  /** It was requested last; then inserted last. */
  lemma LatestTriggerIsLast(ts: seq<Trigger>, pr: PullRequest, t: Trigger)
    requires TriggerIDs(ts) && t in ts && t.pr == pr
    ensures LatestTrigger(ts, pr).Some?
    ensures var last := LatestTrigger(ts, pr).value;
      && last in ts && last.pr == pr && last.requestedAt >= t.requestedAt
      && (last.requestedAt == t.requestedAt ==> last.id >= t.id)
  {
    var last := LatestTrigger(ts, pr).value;
    assert last == t || TriggerNewer(last, t);
  }

  lemma LatestTriggerUnique(ts: seq<Trigger>, pr: PullRequest, t: Trigger)
    requires TriggerIDs(ts) && t in ts && t.pr == pr
    requires forall u :: u in ts && u.pr == pr && u != t ==> TriggerNewer(t, u)
    ensures LatestTrigger(ts, pr) == Some(t)
  {
    var r := LatestTrigger(ts, pr);
    assert r.Some?;
  }

  predicate Open(t: Trigger, pr: PullRequest) {
    t.pr == pr && t.completedAt.None?
  }

  predicate HasPending(ts: seq<Trigger>, pr: PullRequest) {
    exists t :: t in ts && Open(t, pr)
  }

  /** Only an unfinished row is written, so the first completion time is kept. */
  function WithCompleted(ts: seq<Trigger>, id: int, now: Time): (r: seq<Trigger>)
    ensures |r| == |ts|
    ensures forall i :: 0 <= i < |ts| ==>
      r[i] == if ts[i].id == id && ts[i].completedAt.None? then ts[i].(completedAt := Some(ToSecond(now))) else ts[i]
  {
    seq(|ts|, i requires 0 <= i < |ts| =>
      if ts[i].id == id && ts[i].completedAt.None? then ts[i].(completedAt := Some(ToSecond(now))) else ts[i])
  }

  /** The first completion time is kept: whatever is completed in between, completing a row again changes nothing. */
  lemma CompletedOnce(ts: seq<Trigger>, id: int, first: Time, other: int, between: Time, later: Time)
    ensures var once := WithCompleted(ts, id, first);
      && WithCompleted(once, id, later) == once
      && WithCompleted(WithCompleted(once, other, between), id, later) == WithCompleted(once, other, between)
  {
  }

  /** Completing a row ends the wait of its pull request only, and only if that was its one open row. */
  lemma CompletedEndsWait(ts: seq<Trigger>, i: nat, now: Time, pr: PullRequest)
    requires TriggerIDs(ts) && i < |ts| && Open(ts[i], ts[i].pr)
    ensures HasPending(WithCompleted(ts, ts[i].id, now), pr) <==>
            exists j :: 0 <= j < |ts| && j != i && Open(ts[j], pr)
  {
    var ts2 := WithCompleted(ts, ts[i].id, now);
    forall j | 0 <= j < |ts| && j != i && Open(ts[j], pr) ensures HasPending(ts2, pr) {
      assert ts2[j] == ts[j] && ts2[j] in ts2;
    }
    if HasPending(ts2, pr) {
      var t :| t in ts2 && Open(t, pr);
      var j :| 0 <= j < |ts2| && ts2[j] == t;
      assert j != i && Open(ts[j], pr);
    }
  }
}
