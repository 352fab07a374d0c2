/** What every critical section of the watch manager keeps, whatever writes the database refuses. */
module WatchInvariant {
  import opened Base
  import opened Domain
  import opened Store
  import opened Review
  import opened WatchCore

  // ----- one watch -----

  ghost predicate WellShaped(w: Watch, cfg: Config) {
    && w.resourceURI == Some(ResourceURI(w.id))
    && (w.status == Watching <==> !w.terminal)
    && (w.status == Failed <==> w.failureReason.Some?)
    && (w.status == Stale <==> w.staleAt.Some?)
    && (w.terminal <==> w.completedAt.Some?)
    && (w.terminal ==> w.completedAt == Some(w.updatedAt) && (w.status == Stale ==> w.staleAt == w.completedAt))
    && (w.workerRunning <==> !w.terminal)
    && (w.terminal ==> w.token == "" && w.client.None?)
    && (!w.terminal ==> w.token != "" && w.client == Some(w.token))
    && (w.failureReason == Some(AuthExpired) ==> w.recoveryHint.Some?)
    && (w.recoveryHint.Some? ==> w.failureReason == Some(AuthExpired) || StrayHint(w))
    && (w.status == Completed ==> w.reviewStatus == Some(ReviewCompleted))
    && (w.status == Blocked ==> w.reviewStatus == Some(ReviewBlocked))
    && w.startedAt <= w.updatedAt
    && (w.lastPolledAt.Some? <==> w.pollsDone > 0)
    && w.upstreamFailureCount <= cfg.upstreamFailureThreshold
    && (!w.terminal ==> w.upstreamFailureCount < cfg.upstreamFailureThreshold)
  }

  /** The hint of an AUTH_EXPIRED ending whose write was refused. */
  ghost predicate StrayHint(w: Watch) {
    w.recoveryHint.Some? && w.failureReason == Some(InternalError) && w.lastError == Some(PERSIST_TEXT)
  }

  ghost predicate Shaped(c: Core, cfg: Config) {
    && (forall id {:trigger ShapedAt(c, cfg, id)} :: ShapedAt(c, cfg, id))
    && (forall i {:trigger RowShaped(c.rows, i)} :: RowShaped(c.rows, i))
  }

  /** A row shows a live watch, or one that ended with a status that fits; it need not be a watch of this process. */
  ghost predicate RowShaped(rows: seq<WatchEntry>, i: int) {
    0 <= i < |rows| ==>
      var e := rows[i];
      && (e.isActive <==> e.watchStatus == Watching)
      && (e.watchStatus == Failed <==> e.failureReason.Some?)
      && (e.watchStatus == Completed ==> e.reviewStatus == Some(ReviewCompleted))
      && (e.watchStatus == Blocked ==> e.reviewStatus == Some(ReviewBlocked))
  }

  ghost predicate ShapedAt(c: Core, cfg: Config, id: string) {
    id in c.watches ==> WellShaped(c.watches[id], cfg) && (StrayHint(c.watches[id]) ==> id in c.lost)
  }

  // ----- the three maps -----

  ghost predicate Indexed(c: Core) {
    && (forall id {:trigger WatchIndexed(c, id)} :: WatchIndexed(c, id))
    && (forall k {:trigger KeyIndexed(c, k)} :: KeyIndexed(c, k))
  }

  /** A watch is stored under its ID; a live one is its key's active and latest watch. */
  ghost predicate WatchIndexed(c: Core, id: string) {
    id in c.watches ==>
      var w := c.watches[id];
      && w.id == id
      && w.key in c.latest
      && (!w.terminal ==> HeldBy(c.active, w.key, id) && HeldBy(c.latest, w.key, id))
  }

  /** The active map holds live watches and the latest map watches, each under its own key. */
  ghost predicate KeyIndexed(c: Core, k: WatchKey) {
    && (k in c.active ==> Live(c, c.active[k]) && c.watches[c.active[k]].key == k)
    && (k in c.latest ==> c.latest[k] in c.watches && c.watches[c.latest[k]].key == k)
  }

  ghost predicate HeldBy(m: map<WatchKey, string>, k: WatchKey, id: string) {
    k in m && m[k] == id
  }

  // ----- memory against the table -----

  ghost predicate Keyed(rows: seq<WatchEntry>) {
    forall i, j {:trigger RowsApart(rows, i, j)} :: RowsApart(rows, i, j)
  }

  ghost predicate RowsApart(rows: seq<WatchEntry>, i: int, j: int) {
    0 <= i < |rows| && 0 <= j < |rows| && i != j ==>
      rows[i].id != rows[j].id && (rows[i].isActive && rows[j].isActive ==> rows[i].key != rows[j].key)
  }

  /**
   The row of a watch: under its own key, active while the watch is live, exact unless its last write
   failed; a refused ending leaves it active.
   */
  ghost predicate RowMatches(c: Core, id: string) {
    id in c.watches ==>
      var i := Find(c.rows, id);
      var w := c.watches[id];
      && i < |c.rows|
      && c.rows[i].key == w.key
      && c.rows[i].startedAt == ToSecond(w.startedAt)
      && (!w.terminal || id in c.lost ==> c.rows[i].isActive)
      && (id !in c.lost ==> c.rows[i] == Stored(EntryOf(w)))
  }

  /** An active row belongs to a live watch, or its watch's last write failed. */
  ghost predicate Accounted(c: Core, i: int) {
    0 <= i < |c.rows| && c.rows[i].isActive ==>
      c.rows[i].id in c.watches && (Live(c, c.rows[i].id) || c.rows[i].id in c.lost)
  }

  ghost predicate Tabled(c: Core) {
    && Keyed(c.rows)
    && c.lost <= c.watches.Keys
    && (forall id {:trigger RowMatches(c, id)} :: RowMatches(c, id))
    && (forall i {:trigger Accounted(c, i)} :: Accounted(c, i))
  }

  // ----- the cached latest watch against the row order -----

  /** Row j of this key was last written no later than the watch of row i started. */
  ghost predicate OlderRow(rows: seq<WatchEntry>, j: int, i: int, k: WatchKey, startedAt: Time) {
    0 <= j < |rows| && j != i && rows[j].key == k ==>
      j < i && rows[j].updatedAt <= ToSecond(startedAt) && rows[j].startedAt <= ToSecond(startedAt)
  }

  ghost predicate Ordered(c: Core) {
    forall k {:trigger Dominates(c, k)} :: Dominates(c, k)
  }

  ghost predicate Dominates(c: Core, k: WatchKey) {
    k in c.latest && c.latest[k] in c.watches ==>
      var w := c.watches[c.latest[k]];
      var i := Find(c.rows, c.latest[k]);
      && i < |c.rows|
      && c.rows[i].updatedAt >= ToSecond(w.startedAt)
      && forall j {:trigger OlderRow(c.rows, j, i, k, w.startedAt)} :: OlderRow(c.rows, j, i, k, w.startedAt)
  }

  // ----- contexts -----

  ghost predicate Released(c: Core) {
    forall id {:trigger ReleasedAt(c, id)} :: ReleasedAt(c, id)
  }

  /** A cancelled context means the watch ended; an ended watch is cancelled, at the latest when Close returns. */
  ghost predicate ReleasedAt(c: Core, id: string) {
    && (id in c.done ==> id in c.watches && c.watches[id].terminal)
    && (id in c.watches && c.watches[id].terminal ==> id in c.done || c.closed)
  }

  // ===== one live watch rewritten =====

  /** c1 differs from c in one live watch, which keeps its identity and may have ended. */
  ghost predicate Rewrites(c: Core, c1: Core, w: Watch) {
    && Live(c, w.id)
    && w.key == c.watches[w.id].key && w.startedAt == c.watches[w.id].startedAt && w.startedAt <= w.updatedAt
    && c1.watches == c.watches[w.id := w]
    && c1.active == (if w.terminal then c.active - {w.key} else c.active)
    && c1.latest == c.latest
    && ( || (c1.lost == c.lost + {w.id} && c1.rows == c.rows)
         || (c1.lost == c.lost - {w.id} && RowRewritten(c.rows, c1.rows, w)))
  }

  ghost predicate RowRewritten(rows: seq<WatchEntry>, rows1: seq<WatchEntry>, w: Watch) {
    var i := Find(rows, w.id);
    i < |rows| && rows1 == rows[i := Stored(EntryOf(w))]
  }

  lemma FindIs(rows: seq<WatchEntry>, id: string, i: nat)
    requires i <= |rows| && (i < |rows| ==> rows[i].id == id)
    requires forall j :: 0 <= j < i ==> rows[j].id != id
    ensures Find(rows, id) == i
  {
    var a := Find(rows, id);
    assert a < |rows| ==> rows[a].id == id;
  }

  lemma FindSameIDs(rows: seq<WatchEntry>, rows1: seq<WatchEntry>, id: string)
    requires |rows| == |rows1| && forall i :: 0 <= i < |rows| ==> rows[i].id == rows1[i].id
    ensures Find(rows1, id) == Find(rows, id)
  {
    FindIs(rows1, id, Find(rows, id));
  }

  lemma FindAppended(rows: seq<WatchEntry>, row: WatchEntry, id: string)
    ensures Find(rows, id) < |rows| ==> Find(rows + [row], id) == Find(rows, id)
    ensures Find(rows, id) == |rows| && row.id == id ==> Find(rows + [row], id) == |rows|
  {
    var a := Find(rows, id);
    if a < |rows| || row.id == id { FindIs(rows + [row], id, a); }
  }

  lemma RewriteKeepsIndexed(c: Core, c1: Core, w: Watch)
    requires Indexed(c) && Rewrites(c, c1, w)
    ensures Indexed(c1)
  {
    assert WatchIndexed(c, w.id);
    forall k ensures KeyIndexed(c1, k) {
      assert KeyIndexed(c, k);
      if k in c.active { assert WatchIndexed(c, c.active[k]); }
    }
    forall id ensures WatchIndexed(c1, id) { assert WatchIndexed(c, id); }
  }

  lemma RewriteKeepsFind(c: Core, c1: Core, w: Watch, id: string)
    requires Rewrites(c, c1, w)
    ensures Find(c1.rows, id) == Find(c.rows, id)
  {
    FindSameIDs(c.rows, c1.rows, id);
  }

  lemma RewriteKeepsTabled(c: Core, c1: Core, w: Watch)
    requires Tabled(c) && Rewrites(c, c1, w)
    ensures Tabled(c1)
  {
    assert RowMatches(c, w.id);
    var n := Find(c.rows, w.id);
    forall i, j ensures RowsApart(c1.rows, i, j) { assert RowsApart(c.rows, i, j); }
    forall id ensures RowMatches(c1, id) {
      assert RowMatches(c, id);
      RewriteKeepsFind(c, c1, w, id);
    }
    forall i ensures Accounted(c1, i) {
      assert Accounted(c, i) && RowsApart(c.rows, i, n);
    }
  }

  lemma RewriteKeepsOrdered(c: Core, c1: Core, w: Watch)
    requires Indexed(c) && Tabled(c) && Ordered(c) && Rewrites(c, c1, w)
    ensures Ordered(c1)
  {
    assert RowMatches(c, w.id) && WatchIndexed(c, w.id);
    var n := Find(c.rows, w.id);
    ToSecondMonotone(w.startedAt, w.updatedAt);
    forall k ensures Dominates(c1, k) {
      assert Dominates(c, k) && KeyIndexed(c, k);
      if k in c.latest {
        var l := c.latest[k];
        var i, t := Find(c.rows, l), c.watches[l].startedAt;
        RewriteKeepsFind(c, c1, w, l);
        assert n != i ==> w.key != k by { assert l == w.id ==> n == i; }
        forall j ensures OlderRow(c1.rows, j, i, k, t) { assert OlderRow(c.rows, j, i, k, t); }
      }
    }
  }

  /** While a watch is live, the unique index never refuses one of its writes. */
  lemma LiveWriteIsAccepted(c: Core, w: Watch)
    requires Indexed(c) && Tabled(c) && Live(c, w.id) && w.key == c.watches[w.id].key
        && w.startedAt == c.watches[w.id].startedAt
    ensures Upsert(c.rows, EntryOf(w)).Some?
    ensures RowRewritten(c.rows, Upsert(c.rows, EntryOf(w)).value, w)
  {
    assert RowMatches(c, w.id) && WatchIndexed(c, w.id);
    var i := Find(c.rows, w.id);
    forall j | 0 <= j < |c.rows| && j != i ensures !(c.rows[j].isActive && c.rows[j].key == w.key) {
      assert RowsApart(c.rows, i, j);
    }
    assert Stored(EntryOf(w)).(key := c.rows[i].key, startedAt := c.rows[i].startedAt) == Stored(EntryOf(w));
  }

  /** The key a write is filed under: the row's own, if there is one. */
  function FiledKey(rows: seq<WatchEntry>, e: WatchEntry): WatchKey {
    var i := Find(rows, e.id);
    if i < |rows| then rows[i].key else e.key
  }

  /** A write is refused exactly if it is active and an active row of another watch has its key. */
  lemma UpsertRefusal(rows: seq<WatchEntry>, e: WatchEntry)
    requires Keyed(rows)
    ensures Upsert(rows, e).None? <==>
            e.isActive &&
            exists j :: 0 <= j < |rows| && rows[j].isActive && rows[j].id != e.id && rows[j].key == FiledKey(rows, e)
  {
    var i := Find(rows, e.id);
    forall j | 0 <= j < |rows| ensures rows[j].id != e.id <==> j != i { assert RowsApart(rows, i, j); }
  }

  /**
   A write that is taken keeps IDs and active keys unique, changes no row of another watch, and leaves
   what was written, with the first key and start time, under its ID.
   */
  lemma UpsertKeepsKeyed(rows: seq<WatchEntry>, e: WatchEntry)
    requires Keyed(rows) && Upsert(rows, e).Some?
    ensures var i, rows1 := Find(rows, e.id), Upsert(rows, e).value;
      && Keyed(rows1) && i < |rows1| && Find(rows1, e.id) == i
      && (forall j :: 0 <= j < |rows| && rows[j].id != e.id ==> rows1[j] == rows[j])
      && |rows1| == (if i < |rows| then |rows| else |rows| + 1)
      && rows1[i] == Stored(e).(
           key := FiledKey(rows, e),
           startedAt := if i < |rows| then rows[i].startedAt else ToSecond(e.startedAt))
  {
    var i, rows1 := Find(rows, e.id), Upsert(rows, e).value;
    UpsertRefusal(rows, e);
    FindIs(rows1, e.id, i);
    forall a, b ensures RowsApart(rows1, a, b) {
      assert RowsApart(rows, a, b) && RowsApart(rows, i, a) && RowsApart(rows, i, b);
    }
  }

  lemma SaveOutcome(c: Core, id: string, io: bool)
    requires id in c.watches && Upsert(c.rows, EntryOf(c.watches[id])).Some?
    ensures Save(c, id, io) ==
      if io then (c.(rows := Upsert(c.rows, EntryOf(c.watches[id])).value, lost := c.lost - {id}), true)
      else (c.(lost := c.lost + {id}), false)
  {
  }

  ghost predicate Committed(c: Core, c1: Core, saved: bool, w: Watch, intended: WatchStatus, now: Time) {
    && Rewrites(c, c1, if saved then w else Degraded(w, intended, now))
    && c1 == c.(watches := c1.watches, active := c1.active, rows := c1.rows, lost := c1.lost,
                done := if saved then c.done else c.done + {w.id})
    && c1.lost == (if saved then c.lost - {w.id} else c.lost + {w.id})
  }

  lemma CommitOutcome(c: Core, w: Watch, intended: WatchStatus, now: Time, io: bool)
    requires Live(c, w.id) && w.key == c.watches[w.id].key && w.startedAt == c.watches[w.id].startedAt
    requires w.startedAt <= w.updatedAt && w.startedAt <= now
    requires Upsert(c.rows, EntryOf(w)).Some? && RowRewritten(c.rows, Upsert(c.rows, EntryOf(w)).value, w)
    ensures CommitWatch(c, w, intended, now, io).1 == io
    ensures Committed(c, CommitWatch(c, w, intended, now, io).0, io, w, intended, now)
  {
  }

  /** Every commit rewrites its own watch only, and fails only when the database does. */
  lemma CommitRewrites(c: Core, w: Watch, intended: WatchStatus, now: Time, io: bool)
    requires Indexed(c) && Tabled(c) && Live(c, w.id)
    requires w.key == c.watches[w.id].key && w.startedAt == c.watches[w.id].startedAt
    requires w.startedAt <= w.updatedAt && w.startedAt <= now
    ensures CommitWatch(c, w, intended, now, io).1 == io
    ensures Committed(c, CommitWatch(c, w, intended, now, io).0, io, w, intended, now)
  {
    LiveWriteIsAccepted(c, w);
    CommitOutcome(c, w, intended, now, io);
  }
}
