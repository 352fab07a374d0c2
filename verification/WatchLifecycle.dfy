/** Start, token swap, Close and the release of contexts keep the invariant. */
module WatchLifecycle {
  import opened Base
  import opened Domain
  import opened Store
  import opened WatchCore
  import opened WatchInvariant
  import opened WatchSections
  import opened WatchSteps

  // ----- reuse of a live watch -----

  ghost function SwapEntry(w: Watch, token: string): Option<Commit> {
    if w.token != token then Some(TokenSwapped(w.id)) else None
  }

  lemma ReusedShaped(w: Watch, cfg: Config, token: string, trigger: Option<int>, now: Time)
    requires ValidConfig(cfg) && !w.terminal && w.startedAt <= now && WellShaped(w, cfg) && token != ""
    ensures var w1 := Reused(w, token, trigger, now);
      WellShaped(w1, cfg) && Follows(w, w1) && Fits(w, w1, SwapEntry(w, token), false)
  {
  }

  lemma ReuseForm(c: Core, id: string, token: string, trigger: Option<int>, now: Time, io: bool)
    requires Live(c, id) && c.watches[id].id == id && Reused(c.watches[id], token, trigger, now) != c.watches[id]
    requires var w := Reused(c.watches[id], token, trigger, now);
      w.startedAt <= w.updatedAt && Upsert(c.rows, EntryOf(w)).Some?
          && RowRewritten(c.rows, Upsert(c.rows, EntryOf(w)).value, w)
    ensures var w := Reused(c.watches[id], token, trigger, now);
      var (c2, r) := Reuse(c, id, token, trigger, now, io);
      && Rewrites(c, c2, w)
      && c2 == c.(watches := c2.watches, rows := c2.rows, lost := c2.lost, hist := c2.hist)
      && LogsOnly(c, c2, id, SwapEntry(c.watches[id], token), false)
      && c2.lost == (if io then c.lost - {id} else c.lost + {id})
      && (r.PersistFailed? <==> !io)
  {
    var w := Reused(c.watches[id], token, trigger, now);
    var c1 := c.(watches := c.watches[id := w],
                 hist := if c.watches[id].token != token then c.hist + [TokenSwapped(id)] else c.hist);
    SaveOutcome(c1, id, io);
  }

  /** Starting a watched key again swaps the token and links the trigger row, and never ends the watch. */
  lemma ReuseSteps(c: Core, cfg: Config, id: string, token: string, trigger: Option<int>, now: Time, io: bool)
    requires Inv(c, cfg) && ValidConfig(cfg) && Live(c, id) && c.watches[id].startedAt <= now && token != ""
    ensures var (c2, r) := Reuse(c, id, token, trigger, now, io);
      && Inv(c2, cfg) && Advances(c, c2) && Live(c2, id) && c2.watches[id].token == token
      && c2.active == c.active && c2.latest == c.latest && c2.closed == c.closed && c2.idSeq == c.idSeq
      && (r.Running? ==> r.reused && r.snapshot == SnapshotOf(c2.watches[id]))
      && (c2 == c || (Rewrites(c, c2, c2.watches[id]) && c2.watches[id].updatedAt == now))
      && c2.watches[id].pollsDone == c.watches[id].pollsDone
      && (io ==> c2.lost <= c.lost && r.Running?)
  {
    LiveDraft(c, cfg, id);
    var w := Reused(c.watches[id], token, trigger, now);
    if w == c.watches[id] {
      assert c.watches[id].token == token;
      AdvancesReflexive(c);
    } else {
      ReusedShaped(c.watches[id], cfg, token, trigger, now);
      LiveWriteIsAccepted(c, w);
      ReuseForm(c, id, token, trigger, now, io);
      SectionSteps(c, cfg, w, Reuse(c, id, token, trigger, now, io).0, SwapEntry(c.watches[id], token), false, io);
    }
  }

  // ----- a new watch -----

  ghost predicate RowBefore(rows: seq<WatchEntry>, i: int, now: Time) {
    0 <= i < |rows| ==> rows[i].updatedAt <= ToSecond(now) && rows[i].startedAt <= ToSecond(now)
  }

  /** No row was written after this instant. */
  ghost predicate RowsBefore(rows: seq<WatchEntry>, now: Time) {
    forall i {:trigger RowBefore(rows, i, now)} :: RowBefore(rows, i, now)
  }

  ghost predicate Fresh(c: Core, id: string) {
    id !in c.watches && Find(c.rows, id) == |c.rows|
  }

  lemma {:induction false} NoEntries(h: seq<Commit>, id: string)
    requires forall e :: e in h ==> e.id != id
    ensures FailuresSince(h, id) == 0 && Changes(h, id) == 0 && LastOk(h, id).None?
  {
    if h != [] { NoEntries(h[..|h| - 1], id); }
  }

  /** c2 is c with one more live watch and its row. */
  ghost predicate Adds(c: Core, c2: Core, w: Watch) {
    c2 == c.(idSeq := c.idSeq + 1,
             rows := c.rows + [Stored(EntryOf(w))],
             watches := c.watches[w.id := w],
             active := c.active[w.key := w.id],
             latest := c.latest[w.key := w.id],
             hist := c.hist + [Started(w.id)])
    && !w.terminal && Fresh(c, w.id) && w.key !in c.active
  }

  lemma AddsIndexed(c: Core, c2: Core, w: Watch)
    requires Indexed(c) && Adds(c, c2, w)
    ensures Indexed(c2)
  {
    forall k ensures KeyIndexed(c2, k) { assert KeyIndexed(c, k); }
    forall id ensures WatchIndexed(c2, id) { assert WatchIndexed(c, id); }
  }

  lemma AddsTabled(c: Core, c2: Core, w: Watch)
    requires Tabled(c) && Adds(c, c2, w) && !KeyTaken(c.rows, w.key, |c.rows|)
    ensures Tabled(c2)
  {
    var row := Stored(EntryOf(w));
    forall i, j ensures RowsApart(c2.rows, i, j) { assert RowsApart(c.rows, i, j); }
    forall id ensures RowMatches(c2, id) {
      assert RowMatches(c, id);
      FindAppended(c.rows, row, id);
    }
    forall i ensures Accounted(c2, i) { assert Accounted(c, i); }
  }

  lemma AddsOrdered(c: Core, c2: Core, w: Watch, now: Time)
    requires Indexed(c) && Tabled(c) && Ordered(c) && Adds(c, c2, w)
    requires w.startedAt == now && w.updatedAt == now && RowsBefore(c.rows, now)
    ensures Ordered(c2)
  {
    var row := Stored(EntryOf(w));
    forall k ensures Dominates(c2, k) {
      assert Dominates(c, k) && KeyIndexed(c, k);
      if k in c2.latest { FindAppended(c.rows, row, c2.latest[k]); }
      if k == w.key {
        forall j ensures OlderRow(c2.rows, j, |c.rows|, k, now) { assert RowBefore(c.rows, j, now); }
      } else if k in c.latest {
        var i, t := Find(c.rows, c.latest[k]), c.watches[c.latest[k]].startedAt;
        assert RowMatches(c, c.latest[k]);
        forall j ensures OlderRow(c2.rows, j, i, k, t) { assert OlderRow(c.rows, j, i, k, t); }
      }
    }
  }

  lemma AddsRecorded(c: Core, c2: Core, w: Watch)
    requires Indexed(c) && Recorded(c) && Adds(c, c2, w)
    requires w.upstreamFailureCount == 0 && w.reviewStatus.None?
    ensures Recorded(c2)
  {
    var e := Started(w.id);
    forall x | x in c.hist ensures x.id != w.id { assert Known(c, x); }
    NoEntries(c.hist, w.id);
    HistoryStep(c.hist, e, w.id);
    URIOf(w.id);
    assert Sent(c, ResourceURI(w.id));
    assert RecordedFor(c2, w.id);
    LogsKeepRecorded(c, c2, w.id, Some(e), false);
  }

  lemma AddsRest(c: Core, cfg: Config, c2: Core, w: Watch)
    requires Shaped(c, cfg) && Released(c) && Adds(c, c2, w) && WellShaped(w, cfg)
    ensures Shaped(c2, cfg) && Released(c2) && Advances(c, c2)
  {
    forall id ensures ShapedAt(c2, cfg, id) { assert ShapedAt(c, cfg, id); }
    forall id ensures ReleasedAt(c2, id) { assert ReleasedAt(c, id); }
    forall i ensures RowShaped(c2.rows, i) { assert RowShaped(c.rows, i); }
  }

  lemma StartNewForm(c: Core, input: StartInput, trigger: Option<int>, now: Time, io: bool)
    requires Fresh(c, WatchID(now, c.idSeq + 1)) && input.key !in c.active
    ensures var (c2, r) := StartNew(c, input, trigger, now, io);
      var w := NewWatch(WatchID(now, c.idSeq + 1), input, trigger, now);
      if io && !KeyTaken(c.rows, input.key, |c.rows|) then Adds(c, c2, w) && r == Running(SnapshotOf(w), false)
      else c2 == c.(idSeq := c.idSeq + 1) && r == PersistFailed
  {
  }

  lemma SeqSound(c: Core, cfg: Config)
    requires Inv(c, cfg)
    ensures Inv(c.(idSeq := c.idSeq + 1), cfg) && Advances(c, c.(idSeq := c.idSeq + 1))
  {
    var c2 := c.(idSeq := c.idSeq + 1);
    forall id ensures WatchIndexed(c2, id) { assert WatchIndexed(c, id); }
    forall k ensures KeyIndexed(c2, k) { assert KeyIndexed(c, k); }
    forall id ensures RowMatches(c2, id) { assert RowMatches(c, id); }
    forall i ensures Accounted(c2, i) { assert Accounted(c, i); }
    forall k ensures Dominates(c2, k) { assert Dominates(c, k); }
    forall id ensures ShapedAt(c2, cfg, id) { assert ShapedAt(c, cfg, id); }
    forall id ensures ReleasedAt(c2, id) { assert ReleasedAt(c, id); }
    forall id ensures RecordedFor(c2, id) { assert RecordedFor(c, id); }
    forall e ensures Known(c2, e) { assert Known(c, e); }
    forall u ensures Sent(c2, u) { assert Sent(c, u); }
  }

  lemma AddsInv(c: Core, cfg: Config, c2: Core, w: Watch, now: Time)
    requires Inv(c, cfg) && Adds(c, c2, w) && !KeyTaken(c.rows, w.key, |c.rows|) && !c.closed
    requires WellShaped(w, cfg) && w.startedAt == now && w.updatedAt == now && RowsBefore(c.rows, now)
    requires w.upstreamFailureCount == 0 && w.reviewStatus.None?
    ensures Inv(c2, cfg) && Advances(c, c2)
  {
    AddsIndexed(c, c2, w);
    AddsTabled(c, c2, w);
    AddsOrdered(c, c2, w, now);
    AddsRecorded(c, c2, w);
    AddsRest(c, cfg, c2, w);
  }

  /** The unique index refuses a new watch of a free key exactly if an ended watch of that key lost its last write. */
  lemma StartBlockedByLostWatch(c: Core, cfg: Config, key: WatchKey)
    requires Inv(c, cfg) && key !in c.active
    ensures KeyTaken(c.rows, key, |c.rows|) <==> exists id :: LostEnding(c, id, key)
  {
    if KeyTaken(c.rows, key, |c.rows|) {
      var j :| 0 <= j < |c.rows| && c.rows[j].isActive && c.rows[j].key == key;
      var id := c.rows[j].id;
      assert Accounted(c, j) && RowMatches(c, id) && WatchIndexed(c, id);
      assert RowsApart(c.rows, j, Find(c.rows, id));
      assert LostEnding(c, id, key);
    }
    forall id | LostEnding(c, id, key) ensures KeyTaken(c.rows, key, |c.rows|) { assert RowMatches(c, id); }
  }

  /** An ended watch of this key whose last write the database refused. */
  ghost predicate LostEnding(c: Core, id: string, key: WatchKey) {
    id in c.lost && id in c.watches && c.watches[id].terminal && c.watches[id].key == key
  }

  lemma StartNewSteps(c: Core, cfg: Config, input: StartInput, trigger: Option<int>, now: Time, io: bool)
    requires Inv(c, cfg) && ValidConfig(cfg) && !c.closed && ValidStart(input) && input.key !in c.active
    requires Fresh(c, WatchID(now, c.idSeq + 1)) && RowsBefore(c.rows, now)
    ensures var (c2, r) := StartNew(c, input, trigger, now, io);
      && Inv(c2, cfg) && Advances(c, c2)
      && (r.Running? <==> io && !KeyTaken(c.rows, input.key, |c.rows|))
      && (r.Running? ==> Adds(c, c2, NewWatch(WatchID(now, c.idSeq + 1), input, trigger, now)) && !r.reused)
      && (!r.Running? ==> c2 == c.(idSeq := c.idSeq + 1))
  {
    StartNewForm(c, input, trigger, now, io);
    if io && !KeyTaken(c.rows, input.key, |c.rows|) {
      AddsInv(c, cfg, StartNew(c, input, trigger, now, io).0,
          NewWatch(WatchID(now, c.idSeq + 1), input, trigger, now), now);
    } else {
      SeqSound(c, cfg);
    }
  }

  // ----- clock readings -----

  ghost predicate StampedAt(c: Core, now: Time, id: string) {
    id in c.watches ==> c.watches[id].startedAt <= c.watches[id].updatedAt <= now
  }

  /** Nothing in memory or in the table carries a time after `now`. */
  ghost predicate Stamped(c: Core, now: Time) {
    RowsBefore(c.rows, now) && forall id {:trigger StampedAt(c, now, id)} :: StampedAt(c, now, id)
  }

  lemma RewriteStamped(c: Core, c2: Core, w: Watch, now: Time)
    requires Stamped(c, now) && Rewrites(c, c2, w) && w.updatedAt <= now
    ensures Stamped(c2, now)
  {
    ToSecondMonotone(w.updatedAt, now);
    ToSecondMonotone(w.startedAt, now);
    forall i ensures RowBefore(c2.rows, i, now) { assert RowBefore(c.rows, i, now); }
    forall id ensures StampedAt(c2, now, id) { assert StampedAt(c, now, id); }
  }

  lemma AddsStamped(c: Core, c2: Core, w: Watch, now: Time)
    requires Stamped(c, now) && Adds(c, c2, w) && w.startedAt == now && w.updatedAt == now
    ensures Stamped(c2, now)
  {
    forall i ensures RowBefore(c2.rows, i, now) { assert RowBefore(c.rows, i, now); }
    forall id ensures StampedAt(c2, now, id) { assert StampedAt(c, now, id); }
  }

  lemma StampedLater(c: Core, now: Time, later: Time)
    requires Stamped(c, now) && now <= later
    ensures Stamped(c, later)
  {
    ToSecondMonotone(now, later);
    forall i ensures RowBefore(c.rows, i, later) { assert RowBefore(c.rows, i, now); }
    forall id ensures StampedAt(c, later, id) { assert StampedAt(c, now, id); }
  }

  // ----- Close -----

  ghost predicate SamePolls(c: Core, c2: Core, id: string) {
    id in c.watches ==> id in c2.watches && c2.watches[id].pollsDone == c.watches[id].pollsDone
  }

  /** Close counts no poll, stamps nothing after `now`, and loses only what the database refused. */
  ghost predicate Closing(c: Core, c2: Core, now: Time, accepted: bool) {
    && Stamped(c2, now)
    && c2.watches.Keys == c.watches.Keys && |c2.rows| == |c.rows|
    && (forall id {:trigger SamePolls(c, c2, id)} :: SamePolls(c, c2, id))
    && (accepted ==> c2.lost <= c.lost)
    && c2.idSeq == c.idSeq && c.hist <= c2.hist
    && (forall id {:trigger ClosedAs(c, c2, now, id)} :: ClosedAs(c, c2, now, id))
  }

  /** A live watch is untouched, or ended STALE by Close at this time; an ended one is untouched. */
  ghost predicate ClosedAs(c: Core, c2: Core, now: Time, id: string) {
    id in c.watches ==>
      id in c2.watches &&
      if !Live(c, id) || Live(c2, id) then c2.watches[id] == c.watches[id]
      else c2.watches[id].status == Stale && c2.watches[id].updatedAt == now && EndedByClose(c2, id)
  }

  lemma CloseOneForm(c: Core, cfg: Config, key: WatchKey, now: Time, io: bool)
    requires key in c.active && Live(c, c.active[key]) && c.closed
    requires var w := c.watches[c.active[key]];
      w.id == c.active[key] && w.key == key && w.startedAt <= now && WellShaped(w, cfg)
    requires var w := ClosedWatch(c.watches[c.active[key]], now);
      Committed(c, CommitWatch(c, w, Stale, now, io).0, io, w, Stale, now)
    ensures var w := ClosedWatch(c.watches[c.active[key]], now);
      Section(c, cfg, Left(w, Stale, now, io), CloseOne(c, key, now, io), Some(ClosedByManager(w.id)), false, io)
  {
    var w := ClosedWatch(c.watches[c.active[key]], now);
    var c1 := CommitWatch(c, w, Stale, now, io).0;
    assert c.active - {key} - {key} == c.active - {key};
    CommitSection(c, cfg, w, Stale, now, io, c1, CloseOne(c, key, now, io), Some(ClosedByManager(w.id)), false);
  }

  lemma CloseOneSound(c: Core, cfg: Config, key: WatchKey, now: Time, io: bool)
    requires Sound(c, cfg) && c.closed && key in c.active && Stamped(c, now)
    ensures var c2 := CloseOne(c, key, now, io);
      && Sound(c2, cfg) && Advances(c, c2) && Closing(c, c2, now, io) && c2.closed && c2.active == c.active - {key}
      && c.active[key] in c2.watches && c2.watches[c.active[key]].status == Stale && EndedByClose(c2, c.active[key])
  {
    var id := c.active[key];
    assert KeyIndexed(c, key) && WatchIndexed(c, id) && ShapedAt(c, cfg, id) && StampedAt(c, now, id);
    var w := ClosedWatch(c.watches[id], now);
    CommitRewrites(c, w, Stale, now, io);
    CloseOneForm(c, cfg, key, now, io);
    SectionSound(c, cfg, Left(w, Stale, now, io), CloseOne(c, key, now, io), Some(ClosedByManager(id)), false, io);
    RewriteStamped(c, CloseOne(c, key, now, io), Left(w, Stale, now, io), now);
    forall x ensures ClosedAs(c, CloseOne(c, key, now, io), now, x) { assert WatchIndexed(c, x); }
  }

  lemma ClosingTransitive(a: Core, b: Core, c: Core, now: Time, ab: bool, bc: bool)
    requires Closing(a, b, now, ab) && Closing(b, c, now, bc)
    ensures Closing(a, c, now, ab && bc)
  {
    forall id ensures SamePolls(a, c, id) { assert SamePolls(a, b, id) && SamePolls(b, c, id); }
    forall id ensures ClosedAs(a, c, now, id) { assert ClosedAs(a, b, now, id) && ClosedAs(b, c, now, id); }
  }

  ghost predicate AllAccepted(keys: seq<WatchKey>, io: set<WatchKey>) {
    forall k :: k in keys ==> k in io
  }

  ghost predicate ClosedSoFar(c: Core, cfg: Config, c1: Core, now: Time, accepted: bool) {
    Sound(c1, cfg) && Advances(c, c1) && c1.closed && Closing(c, c1, now, accepted)
  }

  lemma CloseNext(c: Core, cfg: Config, c1: Core, key: WatchKey, now: Time, accepted: bool, io: bool)
    requires ClosedSoFar(c, cfg, c1, now, accepted) && key in c1.active
    ensures var c2 := CloseOne(c1, key, now, io);
      ClosedSoFar(c, cfg, c2, now, accepted && io) && c2.active == c1.active - {key}
  {
    CloseOneSound(c1, cfg, key, now, io);
    var c2 := CloseOne(c1, key, now, io);
    AdvancesTransitive(c, c1, c2);
    ClosingTransitive(c, c1, c2, now, accepted, io);
  }

  lemma ClosedNothing(c: Core, cfg: Config, now: Time)
    requires Sound(c, cfg) && c.closed && Stamped(c, now)
    ensures ClosedSoFar(c, cfg, c, now, true)
  {
    AdvancesReflexive(c);
  }

  lemma ClosedWeaker(c: Core, cfg: Config, c1: Core, now: Time, accepted: bool, less: bool)
    requires ClosedSoFar(c, cfg, c1, now, accepted) && (less ==> accepted)
    ensures ClosedSoFar(c, cfg, c1, now, less)
  {
  }

  lemma {:induction false} CloseEachSound(c: Core, cfg: Config, keys: seq<WatchKey>, now: Time, io: set<WatchKey>)
    requires ClosedSoFar(c, cfg, c, now, true)
    ensures var c2 := CloseEach(c, keys, now, io);
      && ClosedSoFar(c, cfg, c2, now, AllAccepted(keys, io))
      && c2.active.Keys == c.active.Keys - (set k | k in keys)
  {
    if keys != [] {
      var n := |keys| - 1;
      var before := keys[..n];
      CloseEachSound(c, cfg, before, now, io);
      var c1 := CloseEach(c, before, now, io);
      assert keys == before + [keys[n]];
      if keys[n] in c1.active {
        CloseNext(c, cfg, c1, keys[n], now, AllAccepted(before, io), keys[n] in io);
        ClosedWeaker(c, cfg, CloseOne(c1, keys[n], now, keys[n] in io), now,
                     AllAccepted(before, io) && keys[n] in io, AllAccepted(keys, io));
      } else {
        ClosedWeaker(c, cfg, c1, now, AllAccepted(before, io), AllAccepted(keys, io));
      }
    }
  }

  lemma ClosedFlagSound(c: Core, cfg: Config)
    requires Sound(c, cfg)
    ensures Sound(c.(closed := true), cfg) && Advances(c, c.(closed := true))
  {
    var c2 := c.(closed := true);
    forall id ensures WatchIndexed(c2, id) { assert WatchIndexed(c, id); }
    forall k ensures KeyIndexed(c2, k) { assert KeyIndexed(c, k); }
    forall id ensures RowMatches(c2, id) { assert RowMatches(c, id); }
    forall i ensures Accounted(c2, i) { assert Accounted(c, i); }
    forall k ensures Dominates(c2, k) { assert Dominates(c, k); }
    forall id ensures ShapedAt(c2, cfg, id) { assert ShapedAt(c, cfg, id); }
    forall id ensures ReleasedAt(c2, id) { assert ReleasedAt(c, id); }
    forall id ensures RecordedFor(c2, id) { assert RecordedFor(c, id); }
    forall e ensures Known(c2, e) { assert Known(c, e); }
    forall u ensures Sent(c2, u) { assert Sent(c, u); }
  }

  /** Close ends every live watch STALE, in whatever order it visits the keys, and leaves nothing active. */
  lemma CloseSteps(c: Core, cfg: Config, keys: seq<WatchKey>, now: Time, io: set<WatchKey>)
    requires Inv(c, cfg) && Stamped(c, now) && forall k :: k in c.active ==> k in keys
    ensures var c2 := CloseLocked(c, keys, now, io);
      && Inv(c2, cfg) && Advances(c, c2) && Closing(c, c2, now, AllAccepted(keys, io)) && c2.closed
      && (forall id :: !Live(c2, id))
      && (forall id :: Live(c, id) ==> id in c2.watches && c2.watches[id].status == Stale && EndedByClose(c2, id))
  {
    var c2 := CloseLocked(c, keys, now, io);
    if c.closed {
      AdvancesReflexive(c);
    } else {
      ClosedFlagSound(c, cfg);
      var c1 := c.(closed := true);
      forall id ensures StampedAt(c1, now, id) { assert StampedAt(c, now, id); }
      ClosedNothing(c1, cfg, now);
      CloseEachSound(c1, cfg, keys, now, io);
      forall id ensures SamePolls(c, c2, id) { assert SamePolls(c1, c2, id); }
      forall id ensures ClosedAs(c, c2, now, id) { assert ClosedAs(c1, c2, now, id); }
      AdvancesTransitive(c, c1, c2);
      assert c2.active.Keys == {};
    }
    forall id ensures !Live(c2, id) { assert WatchIndexed(c2, id); }
    forall id | Live(c, id) ensures id in c2.watches && c2.watches[id].status == Stale && EndedByClose(c2, id) {
      LiveMeansOpen(c, cfg, id);
      assert ClosedAs(c, c2, now, id);
    }
  }

  /** The contexts of the watches Close ended are cancelled after it gave the mutex back. */
  lemma ReleaseSteps(c: Core, cfg: Config, id: string)
    requires Inv(c, cfg) && id in c.watches && c.watches[id].terminal
    ensures var c2 := c.(done := c.done + {id}); Inv(c2, cfg) && Advances(c, c2)
  {
    var c2 := c.(done := c.done + {id});
    forall x ensures WatchIndexed(c2, x) { assert WatchIndexed(c, x); }
    forall k ensures KeyIndexed(c2, k) { assert KeyIndexed(c, k); }
    forall x ensures RowMatches(c2, x) { assert RowMatches(c, x); }
    forall i ensures Accounted(c2, i) { assert Accounted(c, i); }
    forall k ensures Dominates(c2, k) { assert Dominates(c, k); }
    forall x ensures ShapedAt(c2, cfg, x) { assert ShapedAt(c, cfg, x); }
    forall x ensures ReleasedAt(c2, x) { assert ReleasedAt(c, x); }
    forall x ensures RecordedFor(c2, x) { assert RecordedFor(c, x); }
    forall e ensures Known(c2, e) { assert Known(c, e); }
    forall u ensures Sent(c2, u) { assert Sent(c, u); }
  }
}
