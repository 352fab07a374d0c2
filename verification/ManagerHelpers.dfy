/** What the manager's methods use beside the critical sections: answers to callers, IDs, collecting a list. */
module ManagerHelpers {
  import opened Base
  import opened Domain
  import opened Store
  import opened WatchCore
  import opened Review
  import opened WatchWorker
  import opened Sorting
  import opened WatchList

  /** What Cancel* returns. */
  datatype CancelResult =
    | CancelRefused | LoadFailed | NotFound
    | Found(snapshot: Snapshot, cancelled: bool)

  /** The answer to a cancel request, given what the locked part found and the stored row, if it could be read. */
  function CancelAnswer(step: CancelStep, stored: Option<Option<WatchEntry>>, login: string): CancelResult {
    match step
    case NotOwned => NotFound
    case AlreadyEnded(snapshot) => Found(snapshot, false)
    case CancelDone(snapshot, _) => Found(snapshot, true)
    case NotInMemory =>
      if stored.None? then LoadFailed
      else if stored.value.None? || stored.value.value.key.login != login then NotFound
      else Found(SnapshotOfEntry(stored.value.value), false)
  }

  /** GetByID: memory first, then the table if it can be read. */
  function SnapshotByID(c: Core, id: string, read: bool): Option<Snapshot> {
    if id in c.watches then Some(SnapshotOf(c.watches[id]))
    else
      var row := if read then RowByID(c.rows, id) else None;
      if row.Some? then Some(SnapshotOfEntry(row.value)) else None
  }

  function LatestSnapshot(c: Core, key: WatchKey, read: bool): Option<Snapshot> {
    if key in c.latest && c.latest[key] in c.watches then Some(SnapshotOf(c.watches[c.latest[key]]))
    else
      var row := if read then LatestEntry(c.rows, key) else None;
      if row.Some? then Some(SnapshotOfEntry(row.value)) else None
  }

  /** A cancelled watch completes the trigger row it was linked to. */
  function AfterCancel(ts: seq<Trigger>, step: CancelStep, later: Time, marked: bool): seq<Trigger> {
    if step.CancelDone? && step.trigger.Some? && marked then WithCompleted(ts, step.trigger.value, later) else ts
  }

  // ----- what a poll completes -----

  /** The status these data have with this trigger row. */
  ghost function StatusWith(data: ReviewData, entry: Option<Trigger>): ReviewStatus {
    match entry
    case None => DeriveStatus(data, None, None)
    case Some(e) => DeriveStatus(data, Some(e.requestedAt), e.prevReviewID)
  }

  ghost predicate Finished(review: ReviewStatus) {
    review == ReviewCompleted || review == ReviewBlocked
  }

  /** The poll has read an open row, and with it the data show a finished review, from a sufficient budget. */
  ghost predicate Answers(data: ReviewData, read: TriggerRead) {
    && read.Some? && read.value.Some? && read.value.value.completedAt.None?
    && data.rateLimitRemaining >= 10 && Finished(StatusWith(data, read.value))
  }

  /** The poll gets to its data: the watch is known, not overdue, and has a client, and the fetch succeeds. */
  ghost predicate GetsData(c: Core, cfg: Config, id: string, started: Time, result: FetchResult) {
    && id in c.watches && c.watches[id].client.Some? && started - c.watches[id].startedAt < cfg.maxWatchDuration
    && result.Data?
  }

  // ----- what a cancel answers -----

  /** Only the caller's own live watch is ended; a foreign one is not even shown. */
  ghost predicate CancelAnswers(c: Core, ts: seq<Trigger>, login: string, id: string, read: bool, later: Time,
          marked: bool, c2: Core, ts2: seq<Trigger>, r: CancelResult)
  {
    if id in c.watches && c.watches[id].key.login != login then
      r == NotFound && c2 == c && ts2 == ts
    else if id in c.watches && c.watches[id].terminal then
      r == Found(SnapshotOf(c.watches[id]), false) && c2 == c && ts2 == ts
    else if id in c.watches then
      EndsOne(c, ts, id, later, marked, c2, ts2, r)
    else
      c2 == c && ts2 == ts && StoredAnswer(c.rows, Find(c.rows, id), login, read, r)
  }

  /** The watch is ended and no other; the trigger row it was linked to is completed. */
  ghost predicate EndsOne(c: Core, ts: seq<Trigger>, id: string, later: Time, marked: bool, c2: Core, ts2: seq<Trigger>,
          r: CancelResult)
    requires id in c.watches
  {
    && c2.watches.Keys == c.watches.Keys && c2.watches[id].terminal && c2.watches[id].key == c.watches[id].key
    && (forall x :: x in c.watches && x != id ==> c2.watches[x] == c.watches[x])
    && r == Found(SnapshotOf(c2.watches[id]), true)
    && ts2 == (if c.watches[id].triggerLogID.Some? && marked
        then WithCompleted(ts, c.watches[id].triggerLogID.value, later)
               else ts)
  }

  /** The answer from a row, if there is one and it is the caller's. */
  ghost predicate StoredAnswer(rows: seq<WatchEntry>, i: nat, login: string, read: bool, r: CancelResult) {
    if !read then r == LoadFailed
    else if i < |rows| && rows[i].key.login == login then r == Found(SnapshotOfEntry(rows[i]), false)
    else r == NotFound
  }

  lemma CancelWatchEnds(c: Core, ts: seq<Trigger>, id: string, now: Time, io: bool, later: Time, marked: bool)
    requires id in c.watches && c.watches[id].id == id && !c.watches[id].terminal
    ensures var (c2, step) := CancelWatch(c, id, now, io);
      EndsOne(c, ts, id, later, marked, c2, AfterCancel(ts, step, later, marked), CancelAnswer(step, None, ""))
  {
  }

  lemma CancelByIDAnswers(c: Core, ts: seq<Trigger>, login: string, id: string, now: Time, io: bool, read: bool,
          later: Time, marked: bool)
    requires id in c.watches ==> c.watches[id].id == id
    ensures var (c2, step) := CancelByIDLocked(c, login, id, now, io);
      CancelAnswers(c, ts, login, id, read, later, marked, c2, AfterCancel(ts, step, later, marked),
                    CancelAnswer(step, if read then Some(RowByID(c2.rows, id)) else None, login))
  {
    if id in c.watches && !c.watches[id].terminal { CancelWatchEnds(c, ts, id, now, io, later, marked); }
  }

  /** The values of a map with a key for each, in some order. */
  method ValuesOf(m: map<string, Snapshot>) returns (s: seq<Snapshot>)
    requires OwnIDs(m)
    ensures multiset(s) == multiset(m.Values)
  {
    s := [];
    var rest := m;
    while rest != map[]
      invariant OwnIDs(rest) && rest.Values <= m.Values
      invariant multiset(s) + multiset(rest.Values) == multiset(m.Values)
      decreases |rest|
    {
      var id :| id in rest;
      var x := rest[id];
      ValuesWithout(rest, id);
      s := s + [x];
      rest := rest - {id};
    }
  }

  /** Rows are added unless their ID is already there. */
  method MergeRows(memory: map<string, Snapshot>, entries: seq<Row>) returns (byID: map<string, Snapshot>)
    requires OwnIDs(memory)
    ensures byID == Merged(memory, entries) && OwnIDs(byID)
  {
    byID := memory;
    for i := 0 to |entries|
      invariant byID == Merged(memory, entries[..i]) && OwnIDs(byID)
    {
      assert entries[..i + 1][..i] == entries[..i];
      if entries[i].e.id !in byID { byID := byID[entries[i].e.id := SnapshotOfEntry(entries[i].e)]; }
    }
    assert entries[..|entries|] == entries;
  }

  ghost predicate NumberedUpTo(id: string, idSeq: nat) {
    exists t: Time, n: nat :: id == WatchID(t, n) && n <= idSeq
  }

  lemma JustNumbered(now: Time, idSeq: nat)
    ensures NumberedUpTo(WatchID(now, idSeq), idSeq)
  {
  }

  lemma NotYetNumbered(id: string, now: Time, idSeq: nat)
    requires idSeq > 0 && NumberedUpTo(id, idSeq - 1)
    ensures id != WatchID(now, idSeq) && NumberedUpTo(id, idSeq)
  {
    var t: Time, n: nat :| id == WatchID(t, n) && n <= idSeq - 1;
    if id == WatchID(now, idSeq) { WatchIDInjective(t, n, now, idSeq); }
  }

  /** Start's effect on a key without a live watch, given whether the first write was taken. */
  lemma StartNewIs(c: Core, input: StartInput, trigger: Option<int>, now: Time, io: bool, w: Watch, ok: bool)
    requires w == NewWatch(WatchID(now, c.idSeq + 1), input, trigger, now)
    requires ok == (io && Upsert(c.rows, EntryOf(w)).Some?)
    ensures StartNew(c, input, trigger, now, io) ==
      if ok then
        (c.(idSeq := c.idSeq + 1, rows := Upsert(c.rows, EntryOf(w)).value, watches := c.watches[w.id := w],
            active := c.active[input.key := w.id], latest := c.latest[input.key := w.id],
            hist := c.hist + [Started(w.id)]),
         Running(SnapshotOf(w), false))
      else (c.(idSeq := c.idSeq + 1), PersistFailed)
  {
  }

  /** finishLocked's effect on the whole state, field by field. */
  lemma FinishIs(c: Core, w: Watch, status: WatchStatus, reason: Option<FailureReason>, now: Time, errText: string,
          hint: Option<string>, io: bool, saved: bool)
    requires saved == (io && Upsert(c.rows, EntryOf(Ended(w, status, reason, now, errText, hint))).Some?)
    ensures var e := Ended(w, status, reason, now, errText, hint);
      Finish(c, w, status, reason, now, errText, hint, io) ==
      c.(watches := c.watches[w.id := if saved then e else Degraded(e, status, now)],
         active := c.active - {w.key},
         done := c.done + {w.id},
         rows := if saved then Upsert(c.rows, EntryOf(e)).value else c.rows,
         lost := if saved then c.lost - {w.id} else c.lost + {w.id},
         sent := if w.resourceURI.Some? then c.sent + [w.resourceURI.value] else c.sent)
  {
    assert c.done + {w.id} + {w.id} == c.done + {w.id};
  }
}
