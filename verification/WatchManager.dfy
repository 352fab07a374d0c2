/**
 The watch manager as the objects of internal/watch/manager.go: watch states changed in place, three
 maps, the closed flag. Every method is proved to do to the abstract state exactly what the critical
 section of module WatchCore does; what the sections keep is proved there, for every interleaving.
 */
module WatchManager {
  import opened Base
  import opened Domain
  import opened Store
  import opened Database
  import opened Review
  import opened WatchCore
  import Sections = WatchCore
  import opened WatchWorker
  import opened Sorting
  import opened WatchList
  import opened ManagerHelpers

  class WatchState {
    const id: string
    const key: WatchKey
    const resourceURI: Option<string>
    const startedAt: Time
    var triggerLogID: Option<int>
    var token: string
    var client: Option<string>
    var status: WatchStatus
    var reviewStatus: Option<ReviewStatus>
    var failureReason: Option<FailureReason>
    var terminal: bool
    var workerRunning: bool
    var pollsDone: nat
    var updatedAt: Time
    var completedAt: Option<Time>
    var staleAt: Option<Time>
    var lastPolledAt: Option<Time>
    var lastError: Option<string>
    var rateLimitResetAt: Option<Time>
    var upstreamFailureCount: nat
    var recoveryHint: Option<string>
    var cancelled: bool // the context is done

    constructor (id: string, input: StartInput, triggerLogID: Option<int>, now: Time)
      ensures View() == NewWatch(id, input, triggerLogID, now) && !cancelled
    {
      this.id, key, resourceURI, startedAt := id, input.key, Some(ResourceURI(id)), now;
      this.triggerLogID, token, client := triggerLogID, input.token, Some(input.token);
      status, reviewStatus, failureReason := Watching, None, None;
      terminal, workerRunning, cancelled := false, true, false;
      pollsDone, upstreamFailureCount := 0, 0;
      updatedAt, completedAt, staleAt, lastPolledAt := now, None, None, None;
      lastError, rateLimitResetAt, recoveryHint := None, None, None;
    }

    function View(): (w: Watch)
      reads this
      ensures w.id == id && w.key == key && w.resourceURI == resourceURI && w.terminal == terminal
    {
      Watch(id, key, triggerLogID, resourceURI, token, client, status, reviewStatus, failureReason, terminal,
            workerRunning, pollsDone, startedAt, updatedAt, completedAt, staleAt, lastPolledAt, lastError,
            rateLimitResetAt, upstreamFailureCount, recoveryHint)
    }

    method MarkPoll(now: Time)
      modifies this`pollsDone, this`updatedAt, this`lastPolledAt
      ensures View() == Polled(old(View()), now)
    {
      pollsDone := pollsDone + 1;
      updatedAt := now;
      lastPolledAt := Some(now);
    }

    method Touch(now: Time, countedPoll: bool)
      modifies this`pollsDone, this`updatedAt, this`lastPolledAt
      ensures View() == if countedPoll then Polled(old(View()), now) else old(View()).(updatedAt := now)
    {
      if countedPoll { MarkPoll(now); } else { updatedAt := now; }
    }

    method FailedPoll(now: Time)
      modifies this`pollsDone, this`updatedAt, this`lastPolledAt, this`upstreamFailureCount
      ensures View() == Polled(old(View()), now).(upstreamFailureCount := old(upstreamFailureCount) + 1)
    {
      upstreamFailureCount := upstreamFailureCount + 1;
      MarkPoll(now);
    }

    method NoteError(text: string)
      modifies this`lastError
      ensures View() == old(View()).(lastError := Some(text))
    {
      lastError := Some(text);
    }

    /** What every successful fetch records. */
    method NoteReview(now: Time, review: ReviewStatus, reset: Option<Time>)
      modifies this`pollsDone, this`updatedAt, this`lastPolledAt, this`reviewStatus, this`lastError,
          this`rateLimitResetAt
      ensures View() == Polled(old(View()), now).(reviewStatus := Some(review), lastError := None,
          rateLimitResetAt := reset)
    {
      MarkPoll(now);
      reviewStatus, lastError, rateLimitResetAt := Some(review), None, reset;
    }

    method NoteDone(now: Time, review: ReviewStatus, entry: Option<int>)
      modifies this`pollsDone, this`updatedAt, this`lastPolledAt, this`reviewStatus, this`lastError,
          this`rateLimitResetAt, this`triggerLogID
      ensures View() == LinkTrigger(Polled(old(View()), now).(reviewStatus := Some(review), lastError := None,
          rateLimitResetAt := None), entry)
    {
      NoteReview(now, review, None);
      Link(entry);
    }

    method NoteOk(now: Time, review: ReviewStatus, entry: Option<int>)
      modifies this
      ensures View() == LinkTrigger(
        Polled(old(View()), now).(reviewStatus := Some(review), lastError := None, upstreamFailureCount := 0,
            rateLimitResetAt := None), entry)
        .(status := Watching, workerRunning := true)
      ensures cancelled == old(cancelled)
    {
      NoteDone(now, review, entry);
      upstreamFailureCount, status, workerRunning := 0, Watching, true;
    }

    /** Start on a live watch: a new token starts over, a trigger row is linked once. */
    method Renew(newToken: string, trigger: Option<int>, now: Time)
      modifies this`updatedAt, this`token, this`client, this`upstreamFailureCount, this`lastError, this`recoveryHint,
          this`triggerLogID
      ensures View() == Reused(old(View()), newToken, trigger, now)
    {
      if token != newToken { NewToken(newToken, now); }
      if triggerLogID.None? && trigger.Some? { updatedAt, triggerLogID := now, trigger; }
    }

    method NewToken(newToken: string, now: Time)
      modifies this`updatedAt, this`token, this`client, this`upstreamFailureCount, this`lastError, this`recoveryHint
      ensures View() == old(View()).(updatedAt := now, token := newToken, client := Some(newToken),
          upstreamFailureCount := 0,
                                     lastError := None, recoveryHint := None)
    {
      updatedAt, token, client := now, newToken, Some(newToken);
      upstreamFailureCount, lastError, recoveryHint := 0, None, None;
    }

    /** The fields Close sets. */
    method CloseDown(now: Time)
      modifies this`status, this`terminal, this`workerRunning, this`updatedAt, this`completedAt, this`staleAt,
               this`token, this`client, this`lastError
      ensures View() == ClosedWatch(old(View()), now)
    {
      status := Stale;
      Stop(now);
      Complete(now, true);
      DropClient();
      lastError := Some(CLOSED_TEXT);
    }

    method Stop(now: Time)
      modifies this`terminal, this`workerRunning, this`updatedAt
      ensures View() == old(View()).(terminal := true, workerRunning := false, updatedAt := now)
    {
      terminal, workerRunning, updatedAt := true, false, now;
    }

    method DropClient()
      modifies this`token, this`client
      ensures View() == old(View()).(token := "", client := None)
    {
      token, client := "", None;
    }

    method SetResult(status: WatchStatus, reason: Option<FailureReason>)
      modifies this`status, this`failureReason
      ensures View() == old(View()).(status := status, failureReason := reason)
    {
      this.status, failureReason := status, reason;
    }

    method Complete(now: Time, stale: bool)
      modifies this`completedAt, this`staleAt
      ensures View() == old(View()).(completedAt := Some(now), staleAt := if stale then Some(now) else old(staleAt))
    {
      completedAt := Some(now);
      if stale { staleAt := Some(now); }
    }

    /** The fields finishLocked sets. */
    method End(status: WatchStatus, reason: Option<FailureReason>, now: Time, errText: string, hint: Option<string>)
      modifies this`status, this`failureReason, this`recoveryHint, this`terminal, this`workerRunning, this`updatedAt,
               this`completedAt, this`staleAt, this`token, this`client, this`lastError
      ensures View() == Ended(old(View()), status, reason, now, errText, hint)
    {
      SetResult(status, reason);
      recoveryHint := hint;
      Stop(now);
      Complete(now, status == Stale);
      DropClient();
      if errText != "" { lastError := Some(errText); }
    }

    method DegradeResult(intended: WatchStatus, now: Time)
      modifies this`status, this`failureReason, this`staleAt
      ensures View() == old(View()).(
        status := if intended == Stale then Stale else Failed,
        failureReason := if intended == Stale then None else Some(InternalError),
        staleAt := if intended == Stale && old(staleAt).None? then Some(now) else old(staleAt))
    {
      if intended == Stale {
        status, failureReason := Stale, None;
        if staleAt.None? { staleAt := Some(now); }
      } else {
        status, failureReason := Failed, Some(InternalError);
      }
    }

    /** The fields persistOrDegradeLocked sets after a refused write. */
    method Degrade(intended: WatchStatus, now: Time)
      modifies this`status, this`failureReason, this`terminal, this`workerRunning, this`updatedAt,
               this`completedAt, this`staleAt, this`token, this`client, this`lastError
      ensures View() == Degraded(old(View()), intended, now)
    {
      Stop(now);
      if completedAt.None? { completedAt := Some(now); }
      lastError := Some(PERSIST_TEXT);
      DropClient();
      DegradeResult(intended, now);
    }

    method Link(entry: Option<int>)
      modifies this`triggerLogID
      ensures View() == LinkTrigger(old(View()), entry)
    {
      if triggerLogID.None? && entry.Some? { triggerLogID := entry; }
    }
  }

  class Manager {
    const cfg: Config
    const db: DB
    var watchesByID: map<string, WatchState>
    var activeByKey: map<WatchKey, string>
    var latestByKey: map<WatchKey, string>
    var closed: bool
    var idSeq: nat
    var sent: seq<string> // calls of notifyResourceUpdated
    ghost var views: map<string, Watch> // the watches by value
    ghost var done: set<string>         // the watches whose context is done
    ghost var hist: seq<Commit>
    ghost var lost: set<string>

    constructor (cfg: Config, db: DB)
      ensures Valid() && Numbered() && this.cfg == cfg && this.db == db && watchesByID == map[]
      ensures Abs() == EmptyCore(db.watches)
    {
      this.cfg, this.db := cfg, db;
      watchesByID, activeByKey, latestByKey := map[], map[], map[];
      closed, idSeq, sent := false, 0, [];
      views, done, hist, lost := map[], {}, [], {};
    }

    /** Every ID was minted by NextID. */
    ghost predicate Numbered()
      reads this`watchesByID, this`idSeq
    {
      forall id {:trigger NumberedUpTo(id, idSeq)} :: id in watchesByID ==> NumberedUpTo(id, idSeq)
    }

    // ----- abstraction -----

    /** The state that module WatchCore computes with. */
    ghost function Abs(): Core
      reads this, db
    {
      Core(views, activeByKey, latestByKey, closed, done, idSeq, db.watches, hist, sent, lost)
    }

    /** Every watch is stored under its ID. */
    ghost predicate Keyed()
      reads this`watchesByID, this`views, this`done
    {
      && views.Keys == watchesByID.Keys && done <= watchesByID.Keys
      && forall id :: id in watchesByID ==> watchesByID[id].id == id
    }

    ghost predicate Mirrored(id: string)
      reads this`watchesByID, this`views, this`done, if id in watchesByID then {watchesByID[id]} else {}
    {
      id in watchesByID && id in views ==>
        watchesByID[id].View() == views[id] && (watchesByID[id].cancelled <==> id in done)
    }

    ghost predicate Valid()
      reads this`watchesByID, this`views, this`done, watchesByID.Values
    {
      Keyed() && forall id {:trigger Mirrored(id)} :: Mirrored(id)
    }

    /** Every object but this one is mirrored. */
    ghost predicate ValidExcept(w: WatchState)
      reads this`watchesByID, this`views, this`done, watchesByID.Values - {w}
    {
      Keyed() && Holds(w) && forall id {:trigger Mirrored(id)} :: id != w.id ==> Mirrored(id)
    }

    lemma Enter(w: WatchState)
      requires Valid() && Holds(w)
      ensures ValidExcept(w) && w.id in views && w.View() == views[w.id] && (w.cancelled <==> w.id in done)
    {
      assert Mirrored(w.id);
    }

    lemma MirrorsIDs()
      requires Valid()
      ensures forall id :: id in views ==> views[id].id == id
    {
      forall id | id in views ensures views[id].id == id { assert Mirrored(id); }
    }

    ghost predicate Holds(w: WatchState)
      reads this`watchesByID
    {
      w.id in watchesByID && watchesByID[w.id] == w
    }

    lemma Leave(w: WatchState)
      requires ValidExcept(w) && w.id in views && w.View() == views[w.id] && w.cancelled == (w.id in done)
      ensures Valid()
    {
    }

    ghost method Sync(w: WatchState)
      requires ValidExcept(w)
      modifies this`views, this`done
      ensures Valid() && Holds(w) && views == old(views)[w.id := w.View()]
      ensures done == if w.cancelled then old(done) + {w.id} else old(done) - {w.id}
    {
      views := views[w.id := w.View()];
      done := if w.cancelled then done + {w.id} else done - {w.id};
      forall id ensures Mirrored(id) { assert id != w.id ==> old(Mirrored(id)); }
    }

    // ----- persistence -----

    method PersistLocked(w: WatchState, io: bool) returns (ok: bool)
      modifies db`watches
      ensures ok == (io && Upsert(old(db.watches), EntryOf(w.View())).Some?)
      ensures db.watches == if ok then Upsert(old(db.watches), EntryOf(w.View())).value else old(db.watches)
    {
      var entry := WatchEntry(w.id, w.key, w.triggerLogID, w.resourceURI, w.status, w.reviewStatus, w.failureReason,
                              !w.terminal, w.startedAt, w.updatedAt, w.completedAt, w.staleAt, w.lastError,
                              w.rateLimitResetAt, w.recoveryHint);
      ok := db.UpsertReviewWatch(entry, io);
    }

    method PersistOrDegradeLocked(w: WatchState, intended: WatchStatus, now: Time, io: bool) returns (ok: bool)
      modifies w, this`activeByKey, this`lost, db`watches
      ensures ok == (io && Upsert(old(db.watches), EntryOf(old(w.View()))).Some?)
      ensures db.watches == if ok then Upsert(old(db.watches), EntryOf(old(w.View()))).value else old(db.watches)
      ensures w.View() == if ok then old(w.View()) else Degraded(old(w.View()), intended, now)
      ensures activeByKey == if ok then old(activeByKey) else old(activeByKey) - {w.key}
      ensures w.cancelled == (old(w.cancelled) || !ok)
      ensures lost == if ok then old(lost) - {w.id} else old(lost) + {w.id}
    {
      ok := PersistLocked(w, io);
      lost := if ok then lost - {w.id} else lost + {w.id};
      if !ok {
        activeByKey := activeByKey - {w.key};
        w.Degrade(intended, now);
        w.cancelled := true;
      }
    }

    /** A changed watch is written back: the whole state moves as CommitWatch says, but for the active map. */
    method Commit(w: WatchState, intended: WatchStatus, now: Time, io: bool) returns (ok: bool)
      requires ValidExcept(w) && w.cancelled == (w.id in done)
      modifies w, this`activeByKey, this`views, this`done, this`lost, db`watches
      ensures Valid() && Holds(w)
      ensures var (c, saved) := CommitWatch(old(Abs()), old(w.View()), intended, now, io);
        ok == saved && Abs() == c.(active := if ok then old(activeByKey) else old(activeByKey) - {w.key})
    {
      ok := PersistOrDegradeLocked(w, intended, now, io);
      Sync(w);
    }

    method NotifyResourceUpdated(w: WatchState)
      modifies this`sent
      ensures sent == if w.resourceURI.Some? then old(sent) + [w.resourceURI.value] else old(sent)
    {
      if w.resourceURI.Some? { sent := sent + [w.resourceURI.value]; }
    }

    // ----- ending a watch -----

    method EndLocked(w: WatchState, status: WatchStatus, reason: Option<FailureReason>, now: Time, errText: string,
            hint: Option<string>, io: bool)
      returns (ghost saved: bool)
      modifies w, this`activeByKey, this`lost, this`sent, db`watches
      ensures var e := Ended(old(w.View()), status, reason, now, errText, hint);
        && saved == (io && Upsert(old(db.watches), EntryOf(e)).Some?)
        && db.watches == (if saved then Upsert(old(db.watches), EntryOf(e)).value else old(db.watches))
        && w.View() == (if saved then e else Degraded(e, status, now))
      ensures activeByKey == old(activeByKey) - {w.key} && w.cancelled
      ensures lost == if saved then old(lost) - {w.id} else old(lost) + {w.id}
      ensures sent == if w.resourceURI.Some? then old(sent) + [w.resourceURI.value] else old(sent)
    {
      w.End(status, reason, now, errText, hint);
      activeByKey := activeByKey - {w.key};
      saved := PersistOrDegradeLocked(w, status, now, io);
      w.cancelled := true;
      NotifyResourceUpdated(w);
    }

    method FinishLocked(w: WatchState, status: WatchStatus, reason: Option<FailureReason>, now: Time, errText: string,
            hint: Option<string>, io: bool)
      requires ValidExcept(w)
      modifies w, this`activeByKey, this`lost, this`sent, this`views, this`done, db`watches
      ensures Valid() && Holds(w)
      ensures Abs() == Finish(old(Abs()), old(w.View()), status, reason, now, errText, hint, io)
    {
      ghost var saved := EndLocked(w, status, reason, now, errText, hint, io);
      Sync(w);
      FinishIs(old(Abs()), old(w.View()), status, reason, now, errText, hint, io, saved);
    }

    /** The watch with this ID unless it has ended. */
    method Current(id: string) returns (w: WatchState?)
      requires Valid()
      ensures w == null <==> !Live(Abs(), id)
      ensures w != null ==> w.id == id && ValidExcept(w) && w.View() == views[id] && w.cancelled == (id in done)
    {
      if id !in watchesByID { return null; }
      w := watchesByID[id];
      Enter(w);
      if w.terminal { return null; }
    }

    method FinishState(id: string, now: Time, status: WatchStatus, reason: Option<FailureReason>, errText: string,
            countedPoll: bool, hint: Option<string>, io: bool)
      requires Valid()
      modifies if id in watchesByID then {watchesByID[id]} else {}
      modifies this`activeByKey, this`lost, this`sent, this`views, this`done, db`watches
      ensures Valid() && Abs() == Sections.FinishState(old(Abs()), id, now, status, reason, errText, countedPoll,
          hint, io)
    {
      var w := Current(id);
      if w != null {
        w.Touch(now, countedPoll);
        FinishLocked(w, status, reason, now, errText, hint, io);
      }
    }

    method MarkStale(id: string, errText: string, now: Time, io: bool)
      requires Valid()
      modifies if id in watchesByID then {watchesByID[id]} else {}
      modifies this`activeByKey, this`lost, this`sent, this`views, this`done, db`watches
      ensures Valid() && Abs() == Sections.MarkStale(old(Abs()), id, errText, now, io)
    {
      var w := Current(id);
      if w != null { FinishLocked(w, Stale, None, now, errText, None, io); }
    }

    // ----- the commits of a poll -----

    /** Logs the commit and tells the subscribers. */
    method Publish(w: WatchState, ghost e: Commit, notify: bool)
      requires Valid()
      modifies this`hist, this`sent
      ensures Valid() && Abs() == if notify then Notify(Log(old(Abs()), e), w.View()) else Log(old(Abs()), e)
    {
      hist := hist + [e];
      if notify { NotifyResourceUpdated(w); }
    }

    method Escalate(w: WatchState, now: Time, io: bool)
      requires ValidExcept(w)
      modifies w, this`activeByKey, this`lost, this`sent, this`views, this`done, this`hist, db`watches
      ensures Valid()
      ensures
        var w0 := old(w.View());
        var c := Finish(old(Abs()), w0, Failed, Some(AuthExpired), now, UPSTREAM_TEXT, Some(UPSTREAM_HINT), io);
        Abs() == Log(c, UpstreamFailed(w.id))
    {
      FinishLocked(w, Failed, Some(AuthExpired), now, UPSTREAM_TEXT, Some(UPSTREAM_HINT), io);
      Publish(w, UpstreamFailed(w.id), false);
    }

    method Tolerate(w: WatchState, now: Time, errText: string, io: bool) returns (saved: bool)
      requires ValidExcept(w) && w.cancelled == (w.id in done) && !w.terminal
      modifies w, this`activeByKey, this`lost, this`sent, this`views, this`done, this`hist, db`watches
      ensures Valid()
      ensures var (c1, ok) := CommitWatch(old(Abs()), old(w.View()).(lastError := Some(errText)), Watching, now, io);
        var c2 := Log(c1, UpstreamFailed(w.id));
        saved == ok && Abs() == if saved then c2 else Notify(c2, old(w.View()))
    {
      w.NoteError(errText);
      saved := Commit(w, Watching, now, io);
      Publish(w, UpstreamFailed(w.id), !saved);
    }

    method HandleUpstreamFailure(id: string, now: Time, errText: string, io: bool) returns (stop: bool)
      requires Valid()
      modifies if id in watchesByID then {watchesByID[id]} else {}
      modifies this`activeByKey, this`lost, this`sent, this`views, this`done, this`hist, db`watches
      ensures Valid() && (Abs(), stop) == Sections.HandleUpstreamFailure(old(Abs()), cfg, id, now, errText, io)
    {
      var w := Current(id);
      if w == null { return true; }
      w.FailedPoll(now);
      if w.upstreamFailureCount >= cfg.upstreamFailureThreshold {
        Escalate(w, now, io);
        stop := true;
      } else {
        var saved := Tolerate(w, now, errText, io);
        stop := !saved;
      }
    }

    method CommitLowBudget(id: string, now: Time, review: ReviewStatus, reset: Option<Time>, io: bool)
      requires Valid()
      modifies if id in watchesByID then {watchesByID[id]} else {}
      modifies this`activeByKey, this`lost, this`sent, this`views, this`done, db`watches
      ensures Valid() && Abs() == Sections.CommitLowBudget(old(Abs()), id, now, review, reset, io)
    {
      var w := Current(id);
      if w != null {
        w.NoteReview(now, review, reset);
        FinishLocked(w, RateLimited, None, now, LOW_BUDGET_TEXT, None, io);
      }
    }

    method CommitDone(id: string, now: Time, review: ReviewStatus, entry: Option<int>, io: bool)
      requires Valid() && DoneStatus(review).Some?
      modifies if id in watchesByID then {watchesByID[id]} else {}
      modifies this`activeByKey, this`lost, this`sent, this`views, this`done, db`watches
      ensures Valid() && Abs() == Sections.CommitDone(old(Abs()), id, now, review, entry, io)
    {
      var w := Current(id);
      if w != null {
        w.NoteDone(now, review, entry);
        FinishLocked(w, DoneStatus(review).value, None, now, "", None, io);
      }
    }

    method CommitOk(id: string, now: Time, review: ReviewStatus, entry: Option<int>, io: bool) returns (stop: bool)
      requires Valid()
      modifies if id in watchesByID then {watchesByID[id]} else {}
      modifies this`activeByKey, this`lost, this`sent, this`views, this`done, this`hist, db`watches
      ensures Valid() && (Abs(), stop) == Sections.CommitOk(old(Abs()), id, now, review, entry, io)
    {
      var w := Current(id);
      if w == null { return true; }
      var before := w.reviewStatus;
      w.NoteOk(now, review, entry);
      var saved := Commit(w, Watching, now, io);
      Publish(w, PollOk(id, review, saved), !saved || before != Some(review));
      return !saved;
    }

    // ----- Start -----

    /** A new ID never names a watch of this process, whatever the clock says. */
    method NextID(now: Time) returns (id: string)
      requires Numbered()
      modifies this`idSeq
      ensures idSeq == old(idSeq) + 1 && id == WatchID(now, idSeq)
      ensures id !in watchesByID && Numbered()
    {
      idSeq := idSeq + 1;
      id := WatchID(now, idSeq);
      forall x | x in watchesByID ensures x != id && NumberedUpTo(x, idSeq) {
        assert NumberedUpTo(x, old(idSeq));
        NotYetNumbered(x, now, idSeq);
      }
    }

    method SaveLocked(w: WatchState, io: bool) returns (ok: bool)
      requires ValidExcept(w) && w.cancelled == (w.id in done)
      modifies this`views, this`done, this`lost, db`watches
      ensures Valid() && Holds(w)
      ensures (Abs(), ok) == Save(old(Abs()).(watches := old(views)[w.id := w.View()]), w.id, io)
    {
      ok := PersistLocked(w, io);
      lost := if ok then lost - {w.id} else lost + {w.id};
      Sync(w);
      assert done == old(done);
    }

    method RenewLocked(w: WatchState, token: string, trigger: Option<int>, now: Time, io: bool) returns (ok: bool)
      requires ValidExcept(w) && w.View() == views[w.id] && w.cancelled == (w.id in done)
      requires w.token != token || (w.triggerLogID.None? && trigger.Some?)
      modifies w, this`views, this`done, this`hist, this`lost, db`watches
      ensures Valid() && w.View() == Reused(old(w.View()), token, trigger, now)
      ensures (Abs(), if ok then Running(SnapshotOf(w.View()), true) else PersistFailed) ==
              Reuse(old(Abs()), w.id, token, trigger, now, io)
    {
      if w.token != token { hist := hist + [TokenSwapped(w.id)]; }
      w.Renew(token, trigger, now);
      ok := SaveLocked(w, io);
    }

    method ReuseLocked(w: WatchState, token: string, trigger: Option<int>, now: Time, io: bool) returns (r: StartResult)
      requires ValidExcept(w) && w.View() == views[w.id] && w.cancelled == (w.id in done)
      modifies w, this`views, this`done, this`hist, this`lost, db`watches
      ensures Valid() && (Abs(), r) == Reuse(old(Abs()), w.id, token, trigger, now, io)
    {
      var ok := true;
      if w.token != token || (w.triggerLogID.None? && trigger.Some?) {
        ok := RenewLocked(w, token, trigger, now, io);
      } else {
        Leave(w);
      }
      r := if ok then Running(SnapshotOf(w.View()), true) else PersistFailed;
    }

    method Mint(input: StartInput, trigger: Option<int>, now: Time) returns (w: WatchState)
      requires Valid() && Numbered()
      modifies this`idSeq
      ensures fresh(w) && w.View() == NewWatch(WatchID(now, idSeq), input, trigger, now) && !w.cancelled
      ensures idSeq == old(idSeq) + 1 && Valid() && Numbered() && Adoptable(w)
    {
      var id := NextID(now);
      w := new WatchState(id, input, trigger, now);
      JustNumbered(now, idSeq);
    }

    /** A watch with a new ID, not yet in the maps. */
    ghost predicate Adoptable(w: WatchState)
      reads this`watchesByID, this`views, this`done, this`idSeq, w, watchesByID.Values
    {
      Valid() && Numbered() && w.id !in watchesByID && !w.cancelled && NumberedUpTo(w.id, idSeq)
    }

    /** A new watch enters the maps. */
    method Adopt(w: WatchState, key: WatchKey)
      requires Adoptable(w)
      modifies this`watchesByID, this`activeByKey, this`latestByKey, this`views, this`hist
      ensures Valid() && Numbered()
      ensures Abs() == old(Abs()).(watches := old(views)[w.id := w.View()], active := old(activeByKey)[key := w.id],
                                   latest := old(latestByKey)[key := w.id], hist := old(hist) + [Started(w.id)])
    {
      watchesByID := watchesByID[w.id := w];
      activeByKey := activeByKey[key := w.id];
      latestByKey := latestByKey[key := w.id];
      views, hist := views[w.id := w.View()], hist + [Started(w.id)];
      forall id ensures Mirrored(id) { assert id != w.id ==> old(Mirrored(id)); }
    }

    method StartNewLocked(input: StartInput, trigger: Option<int>, now: Time, io: bool) returns (r: StartResult)
      requires Valid() && Numbered()
      modifies this, db`watches
      ensures Valid() && Numbered() && (Abs(), r) == StartNew(old(Abs()), input, trigger, now, io)
    {
      var w := Mint(input, trigger, now);
      ghost var view := w.View();
      var ok := PersistLocked(w, io);
      StartNewIs(old(Abs()), input, trigger, now, io, view, ok);
      if ok {
        Adopt(w, input.key);
        r := Running(SnapshotOf(w.View()), false);
      } else {
        r := PersistFailed;
      }
    }

    method StartLocked(input: StartInput, trigger: Option<int>, now: Time, io: bool) returns (r: StartResult)
      requires Valid() && Numbered()
      modifies this, watchesByID.Values, db`watches
      ensures Valid() && Numbered() && (Abs(), r) == Sections.StartLocked(old(Abs()), input, trigger, now, io)
    {
      if closed { return ManagerClosed; }
      if input.key in activeByKey {
        var w := Current(activeByKey[input.key]);
        if w != null {
          r := ReuseLocked(w, input.token, trigger, now, io);
          return;
        }
      }
      activeByKey := activeByKey - {input.key};
      r := StartNewLocked(input, trigger, now, io);
    }

    /** `read` says whether trigger_log can be read. */
    method Start(input: StartInput, read: bool, now: Time, io: bool) returns (r: StartResult)
      requires Valid() && Numbered() && TriggerIDs(db.triggers)
      modifies this, watchesByID.Values, db`watches
      ensures Valid() && Numbered()
      ensures !ValidStart(input) ==> r == InputRefused && Abs() == old(Abs())
      ensures ValidStart(input) && !read ==> r == TriggerUnreadable && Abs() == old(Abs())
      ensures ValidStart(input) && read ==>
        var entry := LatestTrigger(db.triggers, PullRequest(input.key.owner, input.key.repo, input.key.pr));
        var trigger := if entry.Some? then Some(entry.value.id) else None;
        (Abs(), r) == Sections.StartLocked(old(Abs()), input, trigger, now, io)
    {
      if !ValidStart(input) { return InputRefused; }
      var entry := db.GetLatest(PullRequest(input.key.owner, input.key.repo, input.key.pr), read);
      if entry.None? { return TriggerUnreadable; }
      r := StartLocked(input, if entry.value.Some? then Some(entry.value.value.id) else None, now, io);
    }

    // ----- Cancel -----

    method CancelWatch(w: WatchState, now: Time, io: bool) returns (r: CancelStep)
      requires Valid() && Holds(w)
      modifies w, this`activeByKey, this`lost, this`sent, this`views, this`done, db`watches
      ensures Valid() && (Abs(), r) == Sections.CancelWatch(old(Abs()), w.id, now, io)
    {
      Enter(w);
      if w.terminal { return AlreadyEnded(SnapshotOf(w.View())); }
      var trigger := w.triggerLogID;
      FinishLocked(w, Cancelled, None, now, CANCELLED_TEXT, None, io);
      Enter(w);
      r := CancelDone(SnapshotOf(w.View()), trigger);
    }

    method CancelByIDLocked(login: string, id: string, now: Time, io: bool) returns (r: CancelStep)
      requires Valid()
      modifies if id in watchesByID then {watchesByID[id]} else {}
      modifies this`activeByKey, this`lost, this`sent, this`views, this`done, db`watches
      ensures Valid() && (Abs(), r) == Sections.CancelByIDLocked(old(Abs()), login, id, now, io)
    {
      if id !in watchesByID { return NotInMemory; }
      var w := watchesByID[id];
      Enter(w);
      if w.key.login != login { return NotOwned; }
      r := CancelWatch(w, now, io);
    }

    method CancelLatestLocked(key: WatchKey, now: Time, io: bool) returns (r: CancelStep)
      requires Valid()
      modifies watchesByID.Values, this`activeByKey, this`lost, this`sent, this`views, this`done, db`watches
      ensures Valid() && (Abs(), r) == Sections.CancelLatestLocked(old(Abs()), key, now, io)
    {
      if key in activeByKey && activeByKey[key] in watchesByID {
        r := CancelWatch(watchesByID[activeByKey[key]], now, io);
        return;
      }
      activeByKey := activeByKey - {key};
      if key in latestByKey && latestByKey[key] in watchesByID {
        var w := watchesByID[latestByKey[key]];
        Enter(w);
        return AlreadyEnded(SnapshotOf(w.View()));
      }
      r := NotInMemory;
    }

    method MarkTrigger(step: CancelStep, later: Time, marked: bool)
      modifies db`triggers
      ensures db.triggers == AfterCancel(old(db.triggers), step, later, marked)
    {
      if step.CancelDone? && step.trigger.Some? {
        var _ := db.UpdateCompletedAt(step.trigger.value, later, marked);
      }
    }

    /** `later` is the clock after the mutex is released; `read` and `marked` say whether the database answers. */
    method CancelByID(login: string, id: string, now: Time, io: bool, read: bool, later: Time, marked: bool)
      returns (r: CancelResult)
      requires Valid()
      modifies watchesByID.Values, this`activeByKey, this`lost, this`sent, this`views, this`done, db
      ensures Valid()
      ensures login == "" || id == "" ==> r == CancelRefused && Abs() == old(Abs()) && db.triggers == old(db.triggers)
      ensures login != "" && id != "" ==>
        var (c, step) := Sections.CancelByIDLocked(old(Abs()), login, id, now, io);
        && Abs() == c && r == CancelAnswer(step, if read then Some(RowByID(c.rows, id)) else None, login)
        && db.triggers == AfterCancel(old(db.triggers), step, later, marked)
      ensures login != "" && id != "" ==>
        CancelAnswers(old(Abs()), old(db.triggers), login, id, read, later, marked, Abs(), db.triggers, r)
    {
      if login == "" || id == "" { return CancelRefused; }
      MirrorsIDs();
      CancelByIDAnswers(Abs(), db.triggers, login, id, now, io, read, later, marked);
      r := CancelKnown(login, id, now, io, read, later, marked);
    }

    method CancelKnown(login: string, id: string, now: Time, io: bool, read: bool, later: Time, marked: bool)
      returns (r: CancelResult)
      requires Valid()
      modifies watchesByID.Values, this`activeByKey, this`lost, this`sent, this`views, this`done, db
      ensures Valid()
      ensures var (c, step) := Sections.CancelByIDLocked(old(Abs()), login, id, now, io);
        && Abs() == c && r == CancelAnswer(step, if read then Some(RowByID(c.rows, id)) else None, login)
        && db.triggers == AfterCancel(old(db.triggers), step, later, marked)
    {
      var step := CancelByIDLocked(login, id, now, io);
      MarkTrigger(step, later, marked);
      var stored := db.GetReviewWatchByID(id, read);
      r := CancelAnswer(step, stored, login);
    }

    method CancelLatest(key: WatchKey, now: Time, io: bool, read: bool, later: Time, marked: bool)
      returns (r: CancelResult)
      requires Valid()
      modifies watchesByID.Values, this`activeByKey, this`lost, this`sent, this`views, this`done, db
      ensures Valid()
      ensures key.login == "" || key.owner == "" || key.repo == "" || key.pr <= 0 ==>
        r == CancelRefused && Abs() == old(Abs()) && db.triggers == old(db.triggers)
      ensures key.login != "" && key.owner != "" && key.repo != "" && key.pr > 0 ==>
        var (c, step) := Sections.CancelLatestLocked(old(Abs()), key, now, io);
        && Abs() == c && r == CancelAnswer(step, if read then Some(LatestEntry(c.rows, key)) else None, key.login)
        && db.triggers == AfterCancel(old(db.triggers), step, later, marked)
    {
      if key.login == "" || key.owner == "" || key.repo == "" || key.pr <= 0 { return CancelRefused; }
      var step := CancelLatestLocked(key, now, io);
      MarkTrigger(step, later, marked);
      var stored := db.GetLatestReviewWatch(key, read);
      r := CancelAnswer(step, stored, key.login);
    }

    // ----- Close -----

    method Drop(key: WatchKey, ghost e: Commit)
      requires Valid()
      modifies this`activeByKey, this`hist
      ensures Valid() && activeByKey == old(activeByKey) - {key} && hist == old(hist) + [e]
    {
      activeByKey, hist := activeByKey - {key}, hist + [e];
    }

    method CloseWatch(w: WatchState, key: WatchKey, now: Time, io: bool)
      requires ValidExcept(w) && w.cancelled == (w.id in done)
      modifies w, this`activeByKey, this`lost, this`views, this`done, this`hist, db`watches
      ensures Valid()
      ensures var (c, saved) := CommitWatch(old(Abs()), ClosedWatch(old(w.View()), now), Stale, now, io);
        Abs() == c.(active := (if saved then old(activeByKey) else c.active) - {key},
            hist := c.hist + [ClosedByManager(w.id)])
    {
      w.CloseDown(now);
      var _ := Commit(w, Stale, now, io);
      Drop(key, ClosedByManager(w.id));
    }

    method CloseOne(key: WatchKey, now: Time, io: bool)
      requires Valid() && key in activeByKey
      modifies watchesByID.Values, this`activeByKey, this`lost, this`views, this`done, this`hist, db`watches
      ensures Valid() && Abs() == Sections.CloseOne(old(Abs()), key, now, io)
    {
      var w := Current(activeByKey[key]);
      if w == null {
        activeByKey := activeByKey - {key};
      } else {
        CloseWatch(w, key, now, io);
      }
    }

    /** The part of Close under the mutex; the map iteration may visit the keys in any order. */
    method CloseLocked(now: Time, accepted: set<WatchKey>) returns (ghost order: seq<WatchKey>)
      requires Valid()
      modifies this`closed, watchesByID.Values, this`activeByKey, this`lost, this`views, this`done, this`hist,
          db`watches
      ensures Valid() && Abs() == Sections.CloseLocked(old(Abs()), order, now, accepted)
      ensures !old(closed) ==> forall k :: k in old(activeByKey) ==> k in order
    {
      order := [];
      if closed { return; }
      closed := true;
      ghost var begun := Abs();
      var keys := activeByKey.Keys;
      while keys != {}
        invariant Valid()
        invariant Abs() == CloseEach(begun, order, now, accepted)
        invariant forall k :: k in old(activeByKey) ==> k in order || k in keys
        decreases |keys|
      {
        var key :| key in keys;
        keys := keys - {key};
        assert (order + [key])[..|order|] == order;
        if key in activeByKey { CloseOne(key, now, key in accepted); }
        order := order + [key];
      }
    }

    /** Close cancels the contexts of the watches it ended one by one, after the mutex is released. */
    method ReleaseContext(w: WatchState)
      requires Valid() && Holds(w) && w.terminal
      modifies w`cancelled, this`done, this`views
      ensures Valid() && Abs() == old(Abs()).(done := old(done) + {w.id})
    {
      Enter(w);
      w.cancelled := true;
      Sync(w);
      assert views == old(views);
    }

    // ----- reads -----

    method GetByID(id: string, read: bool) returns (r: Option<Snapshot>)
      requires Valid()
      ensures r == SnapshotByID(Abs(), id, read)
      ensures r.Some? ==> r.value.watchID == id
      ensures r.None? <==> id !in watchesByID && (!read || forall e :: e in db.watches ==> e.id != id)
      ensures id in watchesByID ==> r == Some(SnapshotOf(watchesByID[id].View()))
    {
      if id in watchesByID {
        Enter(watchesByID[id]);
        return Some(SnapshotOf(watchesByID[id].View()));
      }
      var entry := db.GetReviewWatchByID(id, read);
      r := if entry.Some? && entry.value.Some? then Some(SnapshotOfEntry(entry.value.value)) else None;
    }

    method GetLatest(key: WatchKey, read: bool) returns (r: Option<Snapshot>)
      requires Valid()
      ensures r == LatestSnapshot(Abs(), key, read)
    {
      if key in latestByKey && latestByKey[key] in watchesByID {
        Enter(watchesByID[latestByKey[key]]);
        return Some(SnapshotOf(watchesByID[latestByKey[key]].View()));
      }
      var entry := db.GetLatestReviewWatch(key, read);
      r := if entry.Some? && entry.value.Some? then Some(SnapshotOfEntry(entry.value.value)) else None;
    }

    /** None is a missing login or an unreadable table; the maps are visited in any order. */
    method List(login: string, opts: ListOptions, read: bool) returns (r: Option<seq<Snapshot>>)
      requires Valid()
      ensures r.None? <==> login == "" || !read
      ensures r.Some? ==> r.value == Listing(Candidates(Abs(), login, opts), LimitOf(opts))
      ensures r.Some? ==> ListAnswers(Abs(), login, opts, r.value)
    {
      MirrorsIDs();
      ListingAnswers(Abs(), login, opts);
      if login == "" { return None; }
      var byID := CollectMemory(login, opts);
      if !read { return None; }
      var entries := ListRows(db.watches, login, opts);
      byID := MergeRows(byID, entries);
      var snapshots := ValuesOf(byID);
      ListingOf(byID, snapshots, LimitOf(opts));
      r := Some(Take(SortBy(snapshots, SnapshotBefore), LimitOf(opts)));
    }

    method CollectMemory(login: string, opts: ListOptions) returns (byID: map<string, Snapshot>)
      requires Valid()
      ensures byID == InMemory(Abs(), login, opts) && OwnIDs(byID)
    {
      byID := map[];
      var ids := watchesByID.Keys;
      while ids != {}
        invariant ids <= watchesByID.Keys
        invariant forall id :: id in byID <==> id in InMemory(Abs(), login, opts) && id !in ids
        invariant forall id :: id in byID ==> byID[id] == SnapshotOf(views[id]) && byID[id].watchID == id
        decreases |ids|
      {
        var id :| id in ids;
        ids := ids - {id};
        Enter(watchesByID[id]);
        var w := watchesByID[id];
        if Matches(login, opts, w.key, w.terminal) { byID := byID[id := SnapshotOf(w.View())]; }
      }
    }

    // ----- one poll -----

    /** The part of pollOnce that writes, when a fetch brought data; `stop` is pollOnce's result. */
    method CommitData(id: string, now: Time, data: ReviewData, read: TriggerRead, marked: bool, markedAt: Time,
            io: bool) returns (stop: bool)
      requires Valid()
      modifies watchesByID.Values, this`activeByKey, this`lost, this`sent, this`views, this`done, this`hist, db
      ensures Valid()
      ensures var p := AfterTriggerRead(now, data, read);
        var q := if p.Marking? then AfterMark(now, p.review, p.row, marked) else p;
        (Abs(), stop) == LockedStep(old(Abs()), cfg, id, q, now, io)
      ensures db.triggers ==
              if Answers(data, read) && marked then WithCompleted(old(db.triggers), read.value.value.id, markedAt)
              else old(db.triggers)
    {
      if read.None? {
        FinishState(id, now, Failed, Some(InternalError), TRIGGER_READ_TEXT, true, None, io);
        return true;
      }
      var entry := read.value;
      var requestedAt := if entry.Some? then Some(entry.value.requestedAt) else None;
      var prevReviewID := if entry.Some? then entry.value.prevReviewID else None;
      var review := DeriveStatus(data, requestedAt, prevReviewID);
      var entryID := if entry.Some? then Some(entry.value.id) else None;
      if data.rateLimitRemaining < LOW_BUDGET {
        var reset := if data.rateLimitReset == ZERO_TIME then None else Some(data.rateLimitReset);
        CommitLowBudget(id, now, review, reset, io);
        return true;
      }
      if DoneStatus(review).Some? {
        if entry.Some? && entry.value.completedAt.None? {
          var ok := db.UpdateCompletedAt(entry.value.id, markedAt, marked);
          if !ok {
            FinishState(id, now, Failed, Some(InternalError), TRIGGER_MARK_TEXT, true, None, io);
            return true;
          }
        }
        CommitDone(id, now, review, entryID, io);
        return true;
      }
      stop := CommitOk(id, now, review, entryID, io);
    }

    /** pollOnce, with the recovery of `run`, when nothing else runs in between; `markedAt` is the database's clock. */
    method PollOnce(id: string, started: Time, result: FetchResult, fetched: Time, read: TriggerRead, marked: bool,
            markedAt: Time, io: bool) returns (stop: bool)
      requires Valid()
      modifies watchesByID.Values, this`activeByKey, this`lost, this`sent, this`views, this`done, this`hist, db
      ensures Valid()
      ensures var begun := BeginPoll(old(Abs()), cfg, id, started);
        var p := if begun.Fetching? then FetchPhase(old(Abs()), id, result, fetched, read, marked) else begun;
        Lands(old(Abs()), cfg, id, p, fetched, io, Abs(), stop)
      ensures db.triggers ==
              if GetsData(old(Abs()), cfg, id, started, result) && Answers(result.data, read) && marked
              then WithCompleted(old(db.triggers), read.value.value.id, markedAt)
              else old(db.triggers)
    {
      if id !in watchesByID { return true; }
      assert Keyed();
      stop := PollWatch(watchesByID[id], started, result, fetched, read, marked, markedAt, io);
    }

    method PollWatch(w: WatchState, started: Time, result: FetchResult, fetched: Time, read: TriggerRead,
            marked: bool, markedAt: Time, io: bool) returns (stop: bool)
      requires Valid() && Holds(w)
      modifies watchesByID.Values, this`activeByKey, this`lost, this`sent, this`views, this`done, this`hist, db
      ensures Valid()
      ensures var begun := BeginPoll(old(Abs()), cfg, w.id, started);
        var p := if begun.Fetching? then FetchPhase(old(Abs()), w.id, result, fetched, read, marked) else begun;
        Lands(old(Abs()), cfg, w.id, p, fetched, io, Abs(), stop)
      ensures db.triggers ==
              if GetsData(old(Abs()), cfg, w.id, started, result) && Answers(result.data, read) && marked
              then WithCompleted(old(db.triggers), read.value.value.id, markedAt)
              else old(db.triggers)
    {
      stop := StopBeforeFetch(w, started, fetched, io);
      if !stop { stop := CommitFetch(w, result, fetched, read, marked, markedAt, io); }
    }

    method StopBeforeFetch(w: WatchState, now: Time, clock: Time, io: bool) returns (stop: bool)
      requires Valid() && Holds(w)
      modifies w, this`activeByKey, this`lost, this`sent, this`views, this`done, db`watches
      ensures Valid()
      ensures var p := BeginPoll(old(Abs()), cfg, w.id, now);
        if p.Fetching? then !stop && Abs() == old(Abs())
        else stop && Lands(old(Abs()), cfg, w.id, p, clock, io, Abs(), stop)
    {
      Enter(w);
      if now - w.startedAt >= cfg.maxWatchDuration {
        FinishState(w.id, now, Timeout, None, TIMEOUT_TEXT, false, None, io);
        return true;
      }
      if w.client.None? {
        FinishState(w.id, now, Failed, Some(InternalError), NO_CLIENT_TEXT, false, None, io);
        return true;
      }
      return false;
    }

    method CommitFetch(w: WatchState, result: FetchResult, now: Time, read: TriggerRead, marked: bool, markedAt: Time,
            io: bool) returns (stop: bool)
      requires Valid() && Holds(w)
      modifies watchesByID.Values, this`activeByKey, this`lost, this`sent, this`views, this`done, this`hist, db
      ensures Valid()
      ensures Lands(old(Abs()), cfg, w.id, FetchPhase(old(Abs()), w.id, result, now, read, marked), now, io, Abs(),
          stop)
      ensures db.triggers ==
              if result.Data? && Answers(result.data, read) && marked
              then WithCompleted(old(db.triggers), read.value.value.id, markedAt)
              else old(db.triggers)
    {
      match result
      case Panic(text) =>
        MarkStale(w.id, text, now, io);
        stop := true;
      case Data(data) =>
        stop := CommitData(w.id, now, data, read, marked, markedAt, io);
      case Failure(e) =>
        stop := CommitFailure(w, e, now, io);
    }

    method CommitFailure(w: WatchState, e: FetchError, now: Time, io: bool) returns (stop: bool)
      requires Valid() && Holds(w)
      modifies w, this`activeByKey, this`lost, this`sent, this`views, this`done, this`hist, db`watches
      ensures Valid()
      ensures var p := AfterFetch(Failure(e), now, w.id in old(done));
        (Abs(), stop) == if p.Exited? then (old(Abs()), true) else LockedStep(old(Abs()), cfg, w.id, p, now, io)
    {
      Enter(w);
      if e.canceled && w.cancelled { return true; }
      if e.deadlineExceeded {
        if !w.cancelled { FinishState(w.id, now, Failed, Some(GitHubError), POLL_TIMEOUT_TEXT, true, None, io); }
        return true;
      }
      stop := CommitRefusal(w, e, now, io);
    }

    method CommitRefusal(w: WatchState, e: FetchError, now: Time, io: bool) returns (stop: bool)
      requires Valid() && Holds(w) && !e.deadlineExceeded && !(e.canceled && w.cancelled)
      modifies w, this`activeByKey, this`lost, this`sent, this`views, this`done, this`hist, db`watches
      ensures Valid()
      ensures (Abs(), stop) == LockedStep(old(Abs()), cfg, w.id, AfterFetch(Failure(e), now, old(w.cancelled)), now, io)
    {
      if e.rateLimited {
        FinishState(w.id, now, RateLimited, None, e.text, true, None, io);
        return true;
      }
      if e.upstreamFailure {
        stop := HandleUpstreamFailure(w.id, now, e.text, io);
        return;
      }
      var reason := if e.auth then AuthExpired else GitHubError;
      var hint := if e.auth then Some(REAUTH_HINT) else None;
      FinishState(w.id, now, Failed, Some(reason), e.text, true, hint, io);
      return true;
    }
  }
}
