/** What a whole poll does to its watch, read off its answers alone. */
module PollAnswers {
  import opened Base
  import opened Domain
  import opened Store
  import opened Review
  import opened WatchCore
  import opened WatchInvariant
  import opened WatchSections
  import opened WatchSteps
  import opened WatchWorker
  import opened ManagerHelpers

  // ----- the meaning -----

  /** Ended like this, or, if the write was refused, as an internal failure (a stale watch stays stale). */
  ghost predicate Ends(w2: Watch, status: WatchStatus, reason: Option<FailureReason>, io: bool) {
    && w2.terminal
    && if io then w2.status == status && w2.failureReason == reason
       else if status == Stale then w2.status == Stale && w2.failureReason.None?
       else w2.status == Failed && w2.failureReason == Some(InternalError)
  }

  /** One more poll, at this time. */
  ghost predicate Counted(w: Watch, w2: Watch, now: Time) {
    w2.pollsDone == w.pollsDone + 1 && w2.lastPolledAt == Some(now) && w2.updatedAt == now
  }

  ghost predicate Shows(w2: Watch, review: ReviewStatus) {
    w2.reviewStatus == Some(review)
  }

  /** The trigger row that was read is linked, unless one is already. */
  ghost predicate Linked(w: Watch, w2: Watch, entry: Option<Trigger>) {
    w2.triggerLogID ==
    if w.triggerLogID.Some? then w.triggerLogID else if entry.Some? then Some(entry.value.id) else None
  }

  /** Still watched; or the write was refused. */
  ghost predicate GoesOn(w: Watch, w2: Watch, io: bool) {
    if io then !w2.terminal && w2.status == Watching && w2.token == w.token else Ends(w2, Watching, None, false)
  }

  /**
   A failed fetch: a deadline, a rate limit, an unreachable gateway, expired credentials, or something else,
   in this order.
   */
  ghost predicate FailureMeans(w: Watch, cfg: Config, e: FetchError, io: bool, w2: Watch) {
    && (e.deadlineExceeded ==> Ends(w2, Failed, Some(GitHubError), io))
    && (!e.deadlineExceeded && e.rateLimited ==> Ends(w2, RateLimited, None, io) && SaysWhy(w2, e, io))
    && (!e.deadlineExceeded && !e.rateLimited && e.upstreamFailure ==>
        && w2.upstreamFailureCount == w.upstreamFailureCount + 1
        && if w2.upstreamFailureCount >= cfg.upstreamFailureThreshold
           then Ends(w2, Failed, Some(AuthExpired), io) && w2.recoveryHint.Some?
           else GoesOn(w, w2, io) && (io ==> w2.lastError == Some(e.text)))
    && (!e.deadlineExceeded && !e.rateLimited && !e.upstreamFailure && e.auth ==>
        Ends(w2, Failed, Some(AuthExpired), io) && w2.recoveryHint.Some? && SaysWhy(w2, e, io))
    && (!e.deadlineExceeded && !e.rateLimited && !e.upstreamFailure && !e.auth ==>
        Ends(w2, Failed, Some(GitHubError), io) && SaysWhy(w2, e, io))
  }

  ghost predicate SaysWhy(w2: Watch, e: FetchError, io: bool) {
    io && e.text != "" ==> w2.lastError == Some(e.text)
  }

  /**
   Data: a low budget ends the watch; a finished review does, unless the open row cannot be completed; else it
   goes on.
   */
  ghost predicate DataMeans(w: Watch, data: ReviewData, entry: Option<Trigger>, marked: bool, io: bool, w2: Watch) {
    var review := StatusWith(data, entry);
    var open := entry.Some? && entry.value.completedAt.None?;
    if data.rateLimitRemaining < 10 then
      && Ends(w2, RateLimited, None, io) && Shows(w2, review)
      && w2.rateLimitResetAt == (if data.rateLimitReset == ZERO_TIME then None else Some(data.rateLimitReset))
    else if Finished(review) && open && !marked then
      Ends(w2, Failed, Some(InternalError), io)
    else
      ReviewMeans(w, review, entry, io, w2)
  }

  ghost predicate ReviewMeans(w: Watch, review: ReviewStatus, entry: Option<Trigger>, io: bool, w2: Watch) {
    && Shows(w2, review) && Linked(w, w2, entry)
    && if Finished(review) then Ends(w2, if review == ReviewCompleted then Completed else Blocked, None, io)
       else
         && GoesOn(w, w2, io)
         && w2.upstreamFailureCount == 0 && w2.rateLimitResetAt.None? && (io ==> w2.lastError.None?)
  }

  /** What one uninterrupted poll of a live watch means for it. */
  ghost predicate PollMeans(w: Watch, cfg: Config, started: Time, result: FetchResult, fetched: Time, read: TriggerRead,
          marked: bool, io: bool, w2: Watch)
  {
    if started - w.startedAt >= cfg.maxWatchDuration then
      Ends(w2, Timeout, None, io) && w2.pollsDone == w.pollsDone
    else
      match result
      case Panic(_) => Ends(w2, Stale, None, io) && w2.pollsDone == w.pollsDone
      case Failure(e) => Counted(w, w2, fetched) && FailureMeans(w, cfg, e, io, w2)
      case Data(data) =>
        && Counted(w, w2, fetched)
        && if read.None? then Ends(w2, Failed, Some(InternalError), io)
           else DataMeans(w, data, read.value, marked, io, w2)
  }

  // ----- what each critical section leaves -----

  lemma EndingLeaves(c: Core, cfg: Config, id: string, now: Time, status: WatchStatus, reason: Option<FailureReason>,
          text: string, counted: bool, hint: Option<string>, io: bool)
    requires Inv(c, cfg) && Live(c, id) && c.watches[id].startedAt <= now
        && EndsWell(c.watches[id], status, reason, hint)
    ensures var w := if counted then Polled(c.watches[id], now) else c.watches[id].(updatedAt := now);
      var c2 := FinishState(c, id, now, status, reason, text, counted, hint, io);
      id in c2.watches && c2.watches[id] == Left(Ended(w, status, reason, now, text, hint), status, now, io)
  {
    LiveDraft(c, cfg, id);
    var w := if counted then Polled(c.watches[id], now) else c.watches[id].(updatedAt := now);
    FinishSteps(c, cfg, w, status, reason, now, text, hint, io, false);
  }

  lemma PanicLeaves(c: Core, cfg: Config, id: string, text: string, now: Time, io: bool)
    requires Inv(c, cfg) && Live(c, id) && c.watches[id].startedAt <= now
    ensures var c2 := MarkStale(c, id, text, now, io);
      id in c2.watches && c2.watches[id] == Left(Ended(c.watches[id], Stale, None, now, text, None), Stale, now, io)
  {
    LiveDraft(c, cfg, id);
    FinishSteps(c, cfg, c.watches[id], Stale, None, now, text, None, io, false);
  }

  lemma LowLeaves(c: Core, cfg: Config, id: string, now: Time, review: ReviewStatus, reset: Option<Time>, io: bool)
    requires Inv(c, cfg) && Live(c, id) && c.watches[id].startedAt <= now
    ensures var w := Polled(c.watches[id], now).(reviewStatus := Some(review), lastError := None,
        rateLimitResetAt := reset);
      var c2 := CommitLowBudget(c, id, now, review, reset, io);
      id in c2.watches
      && c2.watches[id] == Left(Ended(w, RateLimited, None, now, LOW_BUDGET_TEXT, None), RateLimited, now, io)
  {
    LiveDraft(c, cfg, id);
    var w := Polled(c.watches[id], now).(reviewStatus := Some(review), lastError := None, rateLimitResetAt := reset);
    FinishSteps(c, cfg, w, RateLimited, None, now, LOW_BUDGET_TEXT, None, io, false);
  }

  lemma DoneLeaves(c: Core, cfg: Config, id: string, now: Time, review: ReviewStatus, entry: Option<int>, io: bool)
    requires Inv(c, cfg) && Live(c, id) && c.watches[id].startedAt <= now && DoneStatus(review).Some?
    ensures var w := Polled(c.watches[id], now).(reviewStatus := Some(review), lastError := None,
        rateLimitResetAt := None);
      var status := DoneStatus(review).value;
      var c2 := CommitDone(c, id, now, review, entry, io);
      id in c2.watches && c2.watches[id] == Left(Ended(LinkTrigger(w, entry), status, None, now, "", None), status,
          now, io)
  {
    LiveDraft(c, cfg, id);
    var w := Polled(c.watches[id], now).(reviewStatus := Some(review), lastError := None, rateLimitResetAt := None);
    FinishSteps(c, cfg, LinkTrigger(w, entry), DoneStatus(review).value, None, now, "", None, io, false);
  }

  lemma OkLeaves(c: Core, cfg: Config, id: string, now: Time, review: ReviewStatus, entry: Option<int>, io: bool)
    requires Inv(c, cfg) && ValidConfig(cfg) && Live(c, id) && c.watches[id].startedAt <= now
    ensures var (c2, stop) := CommitOk(c, id, now, review, entry, io);
      && id in c2.watches && c2.watches[id] == Left(OkWatch(c.watches[id], now, review, entry), Watching, now, io)
      && stop == !io
  {
    LiveDraft(c, cfg, id);
    CommitRewrites(c, OkWatch(c.watches[id], now, review, entry), Watching, now, io);
  }

  lemma EscalationLeaves(c: Core, cfg: Config, id: string, now: Time, text: string, io: bool)
    requires Inv(c, cfg) && Live(c, id) && c.watches[id].startedAt <= now
    requires c.watches[id].upstreamFailureCount + 1 >= cfg.upstreamFailureThreshold
    ensures var w := Failing(c.watches[id], now);
      var (c2, stop) := HandleUpstreamFailure(c, cfg, id, now, text, io);
      && id in c2.watches && stop
      && c2.watches[id] == Left(Ended(w, Failed, Some(AuthExpired), now, UPSTREAM_TEXT, Some(UPSTREAM_HINT)), Failed,
          now, io)
  {
    LiveDraft(c, cfg, id);
    var w := Failing(c.watches[id], now);
    FinishSteps(c, cfg, w, Failed, Some(AuthExpired), now, UPSTREAM_TEXT, Some(UPSTREAM_HINT), io, true);
  }

  lemma ToleratedLeaves(c: Core, cfg: Config, id: string, now: Time, text: string, io: bool)
    requires Inv(c, cfg) && Live(c, id) && c.watches[id].startedAt <= now
    requires c.watches[id].upstreamFailureCount + 1 < cfg.upstreamFailureThreshold
    ensures var (c2, stop) := HandleUpstreamFailure(c, cfg, id, now, text, io);
      && id in c2.watches && stop == !io
      && c2.watches[id] == Left(Failing(c.watches[id], now).(lastError := Some(text)), Watching, now, io)
  {
    LiveDraft(c, cfg, id);
    CommitRewrites(c, Failing(c.watches[id], now).(lastError := Some(text)), Watching, now, io);
  }

  // ----- endings by value -----

  lemma LeftEnds(w: Watch, status: WatchStatus, reason: Option<FailureReason>, now: Time, text: string,
          hint: Option<string>,
          io: bool)
    ensures var w2 := Left(Ended(w, status, reason, now, text, hint), status, now, io);
      && Ends(w2, status, reason, io) && w2.pollsDone == w.pollsDone && w2.lastPolledAt == w.lastPolledAt
      && w2.updatedAt == now && w2.reviewStatus == w.reviewStatus && w2.triggerLogID == w.triggerLogID
      && w2.upstreamFailureCount == w.upstreamFailureCount && w2.rateLimitResetAt == w.rateLimitResetAt
      && w2.recoveryHint == hint && (io && text != "" ==> w2.lastError == Some(text))
  {
  }

  lemma LeftGoesOn(w: Watch, w1: Watch, now: Time, io: bool)
    requires w1.status == Watching && !w1.terminal && w1.token == w.token && w1.updatedAt == now
    ensures var w2 := Left(w1, Watching, now, io);
      && GoesOn(w, w2, io) && w2.pollsDone == w1.pollsDone && w2.lastPolledAt == w1.lastPolledAt && w2.updatedAt == now
      && w2.reviewStatus == w1.reviewStatus && w2.triggerLogID == w1.triggerLogID
      && w2.upstreamFailureCount == w1.upstreamFailureCount && w2.rateLimitResetAt == w1.rateLimitResetAt
      && (io ==> w2.lastError == w1.lastError) && w2.terminal == !io
  {
  }

  // ----- the whole poll -----

  /** The phase in which one uninterrupted poll takes the mutex. */
  ghost function PollPhase(c: Core, cfg: Config, id: string, started: Time, result: FetchResult, fetched: Time,
          read: TriggerRead, marked: bool): Phase
  {
    var begun := BeginPoll(c, cfg, id, started);
    if begun.Fetching? then FetchPhase(c, id, result, fetched, read, marked) else begun
  }

  lemma OverdueMeans(c: Core, cfg: Config, id: string, started: Time, fetched: Time, io: bool, c2: Core, stop: bool)
    requires Inv(c, cfg) && Live(c, id) && c.watches[id].startedAt <= started
    requires started - c.watches[id].startedAt >= cfg.maxWatchDuration
    requires Lands(c, cfg, id, BeginPoll(c, cfg, id, started), fetched, io, c2, stop)
    ensures stop && id in c2.watches && Ends(c2.watches[id], Timeout, None, io)
    ensures c2.watches[id].pollsDone == c.watches[id].pollsDone
  {
    EndingLeaves(c, cfg, id, started, Timeout, None, TIMEOUT_TEXT, false, None, io);
  }

  lemma UpstreamEnds(c: Core, cfg: Config, id: string, e: FetchError, now: Time, io: bool)
    requires Inv(c, cfg) && Live(c, id) && c.watches[id].startedAt <= now
    requires !e.deadlineExceeded && !e.rateLimited && e.upstreamFailure
    ensures var (c2, stop) := HandleUpstreamFailure(c, cfg, id, now, e.text, io);
      && id in c2.watches && stop == c2.watches[id].terminal
      && Counted(c.watches[id], c2.watches[id], now) && FailureMeans(c.watches[id], cfg, e, io, c2.watches[id])
  {
    LiveDraft(c, cfg, id);
    var w := Failing(c.watches[id], now);
    if w.upstreamFailureCount >= cfg.upstreamFailureThreshold {
      EscalationLeaves(c, cfg, id, now, e.text, io);
      LeftEnds(w, Failed, Some(AuthExpired), now, UPSTREAM_TEXT, Some(UPSTREAM_HINT), io);
    } else {
      ToleratedLeaves(c, cfg, id, now, e.text, io);
      LeftGoesOn(c.watches[id], w.(lastError := Some(e.text)), now, io);
    }
  }

  lemma FailureEnds(c: Core, cfg: Config, id: string, e: FetchError, now: Time, io: bool, c2: Core, stop: bool)
    requires Inv(c, cfg) && Live(c, id) && c.watches[id].startedAt <= now
    requires Lands(c, cfg, id, AfterFetch(Failure(e), now, false), now, io, c2, stop)
    ensures id in c2.watches && stop == c2.watches[id].terminal
    ensures Counted(c.watches[id], c2.watches[id], now) && FailureMeans(c.watches[id], cfg, e, io, c2.watches[id])
  {
    var p := AfterFetch(Failure(e), now, false);
    if p.UpstreamFailing? {
      UpstreamEnds(c, cfg, id, e, now, io);
    } else {
      EndingLeaves(c, cfg, id, now, p.status, p.reason, p.text, true, p.hint, io);
      LeftEnds(Polled(c.watches[id], now), p.status, p.reason, now, p.text, p.hint, io);
    }
  }

  /** Where the data lead, read off the answers. */
  lemma DataPhase(c: Core, id: string, data: ReviewData, now: Time, read: TriggerRead, marked: bool)
    ensures var p := FetchPhase(c, id, Data(data), now, read, marked);
      if read.None? then p == Ending(now, Failed, Some(InternalError), TRIGGER_READ_TEXT, true, None)
      else
        var review, entry := StatusWith(data, read.value), read.value;
        var row := if entry.Some? then Some(entry.value.id) else None;
        if data.rateLimitRemaining < 10 then
          p == CommittingLow(now, review, if data.rateLimitReset == ZERO_TIME then None else Some(data.rateLimitReset))
        else if Finished(review) && entry.Some? && entry.value.completedAt.None? && !marked then
          p == Ending(now, Failed, Some(InternalError), TRIGGER_MARK_TEXT, true, None)
        else p == Committing(now, review, row)
  {
  }

  lemma UnreadableEnds(c: Core, cfg: Config, id: string, now: Time, text: string, io: bool)
    requires Inv(c, cfg) && Live(c, id) && c.watches[id].startedAt <= now
    ensures var c2 := FinishState(c, id, now, Failed, Some(InternalError), text, true, None, io);
      && id in c2.watches && c2.watches[id].terminal && Counted(c.watches[id], c2.watches[id], now)
      && Ends(c2.watches[id], Failed, Some(InternalError), io)
  {
    EndingLeaves(c, cfg, id, now, Failed, Some(InternalError), text, true, None, io);
    LeftEnds(Polled(c.watches[id], now), Failed, Some(InternalError), now, text, None, io);
  }

  lemma LowEnds(c: Core, cfg: Config, id: string, now: Time, review: ReviewStatus, reset: Option<Time>, io: bool)
    requires Inv(c, cfg) && Live(c, id) && c.watches[id].startedAt <= now
    ensures var c2 := CommitLowBudget(c, id, now, review, reset, io);
      && id in c2.watches && c2.watches[id].terminal && Counted(c.watches[id], c2.watches[id], now)
      && Ends(c2.watches[id], RateLimited, None, io) && Shows(c2.watches[id], review)
      && c2.watches[id].rateLimitResetAt == reset
  {
    LowLeaves(c, cfg, id, now, review, reset, io);
    var w := Polled(c.watches[id], now).(reviewStatus := Some(review), lastError := None, rateLimitResetAt := reset);
    LeftEnds(w, RateLimited, None, now, LOW_BUDGET_TEXT, None, io);
  }

  lemma DoneEnds(c: Core, cfg: Config, id: string, now: Time, review: ReviewStatus, entry: Option<Trigger>, io: bool)
    requires Inv(c, cfg) && Live(c, id) && c.watches[id].startedAt <= now && Finished(review)
    ensures var c2 := CommitDone(c, id, now, review, if entry.Some? then Some(entry.value.id) else None, io);
      && id in c2.watches && c2.watches[id].terminal && Counted(c.watches[id], c2.watches[id], now)
      && Ends(c2.watches[id], if review == ReviewCompleted then Completed else Blocked, None, io)
      && Shows(c2.watches[id], review) && Linked(c.watches[id], c2.watches[id], entry)
  {
    var row := if entry.Some? then Some(entry.value.id) else None;
    DoneLeaves(c, cfg, id, now, review, row, io);
    var w := Polled(c.watches[id], now).(reviewStatus := Some(review), lastError := None, rateLimitResetAt := None);
    LeftEnds(LinkTrigger(w, row), DoneStatus(review).value, None, now, "", None, io);
  }

  lemma OkGoesOn(c: Core, cfg: Config, id: string, now: Time, review: ReviewStatus, entry: Option<Trigger>, io: bool)
    requires Inv(c, cfg) && ValidConfig(cfg) && Live(c, id) && c.watches[id].startedAt <= now && !Finished(review)
    ensures var (c2, stop) := CommitOk(c, id, now, review, if entry.Some? then Some(entry.value.id) else None, io);
      && id in c2.watches && stop == c2.watches[id].terminal && Counted(c.watches[id], c2.watches[id], now)
      && GoesOn(c.watches[id], c2.watches[id], io)
      && Shows(c2.watches[id], review) && Linked(c.watches[id], c2.watches[id], entry)
      && c2.watches[id].upstreamFailureCount == 0 && c2.watches[id].rateLimitResetAt.None?
      && (io ==> c2.watches[id].lastError.None?)
  {
    var row := if entry.Some? then Some(entry.value.id) else None;
    LiveDraft(c, cfg, id);
    OkLeaves(c, cfg, id, now, review, row, io);
    LeftGoesOn(c.watches[id], OkWatch(c.watches[id], now, review, row), now, io);
  }

  /** The last section of a poll with data: a finished review ends the watch, any other is recorded. */
  lemma CommitEnds(c: Core, cfg: Config, id: string, now: Time, review: ReviewStatus, entry: Option<Trigger>, io: bool)
    requires Inv(c, cfg) && ValidConfig(cfg) && Live(c, id) && c.watches[id].startedAt <= now
    ensures var row := if entry.Some? then Some(entry.value.id) else None;
      var (c2, stop) := LockedStep(c, cfg, id, Committing(now, review, row), now, io);
      && id in c2.watches && stop == c2.watches[id].terminal && Counted(c.watches[id], c2.watches[id], now)
      && ReviewMeans(c.watches[id], review, entry, io, c2.watches[id])
  {
    if Finished(review) {
      DoneEnds(c, cfg, id, now, review, entry, io);
    } else {
      OkGoesOn(c, cfg, id, now, review, entry, io);
    }
  }

  lemma DataEnds(c: Core, cfg: Config, id: string, data: ReviewData, now: Time, read: TriggerRead, marked: bool,
          io: bool,
          c2: Core, stop: bool)
    requires Inv(c, cfg) && ValidConfig(cfg) && Live(c, id) && c.watches[id].startedAt <= now
    requires Lands(c, cfg, id, FetchPhase(c, id, Data(data), now, read, marked), now, io, c2, stop)
    ensures id in c2.watches && stop == c2.watches[id].terminal && Counted(c.watches[id], c2.watches[id], now)
    ensures if read.None? then Ends(c2.watches[id], Failed, Some(InternalError), io)
            else DataMeans(c.watches[id], data, read.value, marked, io, c2.watches[id])
  {
    DataPhase(c, id, data, now, read, marked);
    match FetchPhase(c, id, Data(data), now, read, marked) {
      case CommittingLow(_, review, reset) => LowEnds(c, cfg, id, now, review, reset, io);
      case Ending(_, _, _, text, _, _) => UnreadableEnds(c, cfg, id, now, text, io);
      case Committing(_, review, _) => CommitEnds(c, cfg, id, now, review, read.value, io);
    }
  }

  /**
   One uninterrupted poll of a live watch does to it what its answers mean, and stops the worker exactly if it
   ended.
   */
  lemma PollAnswer(c: Core, cfg: Config, id: string, started: Time, result: FetchResult, fetched: Time,
          read: TriggerRead,
          marked: bool, io: bool, c2: Core, stop: bool)
    requires Inv(c, cfg) && ValidConfig(cfg) && Live(c, id) && c.watches[id].startedAt <= started <= fetched
    requires Lands(c, cfg, id, PollPhase(c, cfg, id, started, result, fetched, read, marked), fetched, io, c2, stop)
    ensures id in c2.watches && stop == c2.watches[id].terminal
    ensures PollMeans(c.watches[id], cfg, started, result, fetched, read, marked, io, c2.watches[id])
  {
    LiveDraft(c, cfg, id);
    assert ReleasedAt(c, id);
    if started - c.watches[id].startedAt >= cfg.maxWatchDuration {
      OverdueMeans(c, cfg, id, started, fetched, io, c2, stop);
    } else {
      match result {
        case Panic(text) => PanicLeaves(c, cfg, id, text, fetched, io);
        case Failure(e) => FailureEnds(c, cfg, id, e, fetched, io, c2, stop);
        case Data(data) => DataEnds(c, cfg, id, data, fetched, read, marked, io, c2, stop);
      }
    }
  }

  /** A poll of an ended watch, or of an unknown one, changes nothing and stops the worker. */
  lemma PollOfEnded(c: Core, cfg: Config, id: string, started: Time, result: FetchResult, fetched: Time,
          read: TriggerRead,
          marked: bool, io: bool, c2: Core, stop: bool)
    requires Inv(c, cfg) && !Live(c, id)
    requires Lands(c, cfg, id, PollPhase(c, cfg, id, started, result, fetched, read, marked), fetched, io, c2, stop)
    ensures c2 == c && stop
  {
    assert ShapedAt(c, cfg, id);
  }

  // ----- the next request -----

  /**
   Completing the open row it read, a poll admits the next request exactly if that was the pull request's only
   open row.
   */
  lemma PollReadmits(ts: seq<Trigger>, t: Trigger, markedAt: Time)
    requires TriggerIDs(ts) && t in ts && t.completedAt.None?
    ensures !HasPending(WithCompleted(ts, t.id, markedAt), t.pr) <==> forall u :: u in ts && Open(u, t.pr) ==> u == t
  {
    var i :| 0 <= i < |ts| && ts[i] == t;
    CompletedEndsWait(ts, i, markedAt, t.pr);
  }
}
