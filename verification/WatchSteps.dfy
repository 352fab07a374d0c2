/** Every critical section of the manager, one by one, keeps the invariant. */
module WatchSteps {
  import opened Base
  import opened Domain
  import opened Store
  import opened Review
  import opened WatchCore
  import opened WatchInvariant
  import opened WatchSections

  // ----- endings -----

  lemma LiveDraft(c: Core, cfg: Config, id: string)
    requires Inv(c, cfg) && Live(c, id)
    ensures c.watches[id].id == id && WellShaped(c.watches[id], cfg) && Draft(c.watches[id], cfg)
  {
    assert WatchIndexed(c, id) && ShapedAt(c, cfg, id);
  }

  lemma FinishPolledSteps(c: Core, cfg: Config, id: string, now: Time, status: WatchStatus,
          reason: Option<FailureReason>, errText: string, hint: Option<string>, io: bool)
    requires Inv(c, cfg) && Live(c, id) && c.watches[id].startedAt <= now
    requires EndsWell(c.watches[id], status, reason, hint)
    ensures var c2 := FinishState(c, id, now, status, reason, errText, true, hint, io);
      Steps(c, cfg, c2, id, now, 1, io) && c2.watches[id].terminal
          && (io ==> c2.watches[id].status == status && c2.watches[id].failureReason == reason)
  {
    LiveDraft(c, cfg, id);
    FinishSteps(c, cfg, Polled(c.watches[id], now), status, reason, now, errText, hint, io, false);
  }

  lemma FinishUnpolledSteps(c: Core, cfg: Config, id: string, now: Time, status: WatchStatus,
          reason: Option<FailureReason>, errText: string, hint: Option<string>, io: bool)
    requires Inv(c, cfg) && Live(c, id) && c.watches[id].startedAt <= now
    requires EndsWell(c.watches[id], status, reason, hint)
    ensures var c2 := FinishState(c, id, now, status, reason, errText, false, hint, io);
      Steps(c, cfg, c2, id, now, 0, io) && c2.watches[id].terminal
          && (io ==> c2.watches[id].status == status && c2.watches[id].failureReason == reason)
  {
    LiveDraft(c, cfg, id);
    FinishSteps(c, cfg, c.watches[id].(updatedAt := now), status, reason, now, errText, hint, io, false);
  }

  lemma MarkStaleSteps(c: Core, cfg: Config, id: string, errText: string, now: Time, io: bool)
    requires Inv(c, cfg) && Live(c, id) && c.watches[id].startedAt <= now
    ensures var c2 := MarkStale(c, id, errText, now, io);
      Steps(c, cfg, c2, id, now, 0, io) && c2.watches[id].status == Stale
  {
    LiveDraft(c, cfg, id);
    FinishSteps(c, cfg, c.watches[id], Stale, None, now, errText, None, io, false);
  }

  lemma CommitLowBudgetSteps(c: Core, cfg: Config, id: string, now: Time, review: ReviewStatus, reset: Option<Time>,
          io: bool)
    requires Inv(c, cfg) && Live(c, id) && c.watches[id].startedAt <= now
    ensures var c2 := CommitLowBudget(c, id, now, review, reset, io);
      Steps(c, cfg, c2, id, now, 1, io) && c2.watches[id].terminal && (io ==> c2.watches[id].status == RateLimited)
  {
    LiveDraft(c, cfg, id);
    var w := Polled(c.watches[id], now).(reviewStatus := Some(review), lastError := None, rateLimitResetAt := reset);
    FinishSteps(c, cfg, w, RateLimited, None, now, LOW_BUDGET_TEXT, None, io, false);
  }

  lemma CommitDoneSteps(c: Core, cfg: Config, id: string, now: Time, review: ReviewStatus, entry: Option<int>, io: bool)
    requires Inv(c, cfg) && Live(c, id) && c.watches[id].startedAt <= now && DoneStatus(review).Some?
    ensures var c2 := CommitDone(c, id, now, review, entry, io);
      Steps(c, cfg, c2, id, now, 1, io) && c2.watches[id].terminal
          && (io ==> c2.watches[id].status == DoneStatus(review).value)
  {
    LiveDraft(c, cfg, id);
    var w := Polled(c.watches[id], now).(reviewStatus := Some(review), lastError := None, rateLimitResetAt := None);
    FinishSteps(c, cfg, LinkTrigger(w, entry), DoneStatus(review).value, None, now, "", None, io, false);
  }

  lemma CancelWatchSteps(c: Core, cfg: Config, id: string, now: Time, io: bool)
    requires Inv(c, cfg) && Live(c, id) && c.watches[id].startedAt <= now
    ensures var (c2, step) := CancelWatch(c, id, now, io);
      && Steps(c, cfg, c2, id, now, 0, io) && c2.watches[id].terminal && (io ==> c2.watches[id].status == Cancelled)
      && step == CancelDone(SnapshotOf(c2.watches[id]), c.watches[id].triggerLogID)
  {
    LiveDraft(c, cfg, id);
    FinishSteps(c, cfg, c.watches[id], Cancelled, None, now, CANCELLED_TEXT, None, io, false);
  }

  // ----- commits that can keep the watch live -----

  ghost function OkWatch(w: Watch, now: Time, review: ReviewStatus, entry: Option<int>): Watch {
    LinkTrigger(Polled(w, now).(reviewStatus := Some(review), lastError := None, upstreamFailureCount := 0,
        rateLimitResetAt := None), entry)
      .(status := Watching, workerRunning := true)
  }

  lemma OkForm(c: Core, cfg: Config, id: string, now: Time, review: ReviewStatus, entry: Option<int>, io: bool)
    requires Live(c, id) && c.watches[id].id == id && c.watches[id].startedAt <= now && WellShaped(c.watches[id], cfg)
    requires ValidConfig(cfg)
    requires var w := OkWatch(c.watches[id], now, review, entry);
      && CommitWatch(c, w, Watching, now, io).1 == io
      && Committed(c, CommitWatch(c, w, Watching, now, io).0, io, w, Watching, now)
    ensures Section(c, cfg, Left(OkWatch(c.watches[id], now, review, entry), Watching, now, io),
                    CommitOk(c, id, now, review, entry, io).0, Some(PollOk(id, review, io)),
                    !io || c.watches[id].reviewStatus != Some(review), io)
  {
    var w := OkWatch(c.watches[id], now, review, entry);
    CommitSection(c, cfg, w, Watching, now, io, CommitWatch(c, w, Watching, now, io).0,
        CommitOk(c, id, now, review, entry, io).0,
                  Some(PollOk(id, review, io)), !io || c.watches[id].reviewStatus != Some(review));
  }

  /** A poll that finds the review still running stops the worker exactly when its write failed. */
  lemma CommitOkSteps(c: Core, cfg: Config, id: string, now: Time, review: ReviewStatus, entry: Option<int>, io: bool)
    requires Inv(c, cfg) && ValidConfig(cfg) && Live(c, id) && c.watches[id].startedAt <= now
    ensures var (c2, stop) := CommitOk(c, id, now, review, entry, io);
      Steps(c, cfg, c2, id, now, 1, io) && stop == !io && c2.watches[id].terminal == stop
  {
    LiveDraft(c, cfg, id);
    var w := OkWatch(c.watches[id], now, review, entry);
    CommitRewrites(c, w, Watching, now, io);
    OkForm(c, cfg, id, now, review, entry, io);
    SectionSteps(c, cfg, Left(w, Watching, now, io), CommitOk(c, id, now, review, entry, io).0,
                 Some(PollOk(id, review, io)), !io || c.watches[id].reviewStatus != Some(review), io);
  }

  ghost function Failing(w: Watch, now: Time): Watch {
    Polled(w, now).(upstreamFailureCount := w.upstreamFailureCount + 1)
  }

  lemma UpstreamLiveForm(c: Core, cfg: Config, id: string, now: Time, errText: string, io: bool)
    requires Live(c, id) && c.watches[id].id == id && c.watches[id].startedAt <= now && WellShaped(c.watches[id], cfg)
    requires c.watches[id].upstreamFailureCount + 1 < cfg.upstreamFailureThreshold
    requires var w := Failing(c.watches[id], now).(lastError := Some(errText));
      && CommitWatch(c, w, Watching, now, io).1 == io
      && Committed(c, CommitWatch(c, w, Watching, now, io).0, io, w, Watching, now)
    ensures Section(c, cfg, Left(Failing(c.watches[id], now).(lastError := Some(errText)), Watching, now, io),
                    HandleUpstreamFailure(c, cfg, id, now, errText, io).0, Some(UpstreamFailed(id)), !io, io)
  {
    var w := Failing(c.watches[id], now).(lastError := Some(errText));
    CommitSection(c, cfg, w, Watching, now, io, CommitWatch(c, w, Watching, now, io).0,
                  HandleUpstreamFailure(c, cfg, id, now, errText, io).0, Some(UpstreamFailed(id)), !io);
  }

  lemma UpstreamLiveSteps(c: Core, cfg: Config, id: string, now: Time, errText: string, io: bool)
    requires Inv(c, cfg) && Live(c, id) && c.watches[id].startedAt <= now
    requires c.watches[id].upstreamFailureCount + 1 < cfg.upstreamFailureThreshold
    ensures var (c2, stop) := HandleUpstreamFailure(c, cfg, id, now, errText, io);
      && Steps(c, cfg, c2, id, now, 1, io) && stop == !io && c2.watches[id].terminal == stop
      && c2.watches[id].failureReason != Some(AuthExpired)
  {
    LiveDraft(c, cfg, id);
    var w := Failing(c.watches[id], now).(lastError := Some(errText));
    CommitRewrites(c, w, Watching, now, io);
    UpstreamLiveForm(c, cfg, id, now, errText, io);
    SectionSteps(c, cfg, Left(w, Watching, now, io), HandleUpstreamFailure(c, cfg, id, now, errText, io).0,
        Some(UpstreamFailed(id)), !io, io);
  }

  lemma UpstreamEndSteps(c: Core, cfg: Config, id: string, now: Time, errText: string, io: bool)
    requires Inv(c, cfg) && Live(c, id) && c.watches[id].startedAt <= now
    requires c.watches[id].upstreamFailureCount + 1 == cfg.upstreamFailureThreshold
    ensures var (c2, stop) := HandleUpstreamFailure(c, cfg, id, now, errText, io);
      && Steps(c, cfg, c2, id, now, 1, io) && stop && c2.watches[id].terminal
      && (c2.watches[id].failureReason == Some(AuthExpired) <==> io)
  {
    LiveDraft(c, cfg, id);
    FinishSteps(c, cfg, Failing(c.watches[id], now), Failed, Some(AuthExpired), now, UPSTREAM_TEXT,
        Some(UPSTREAM_HINT), io, true);
  }

  /**
   An upstream failure escalates exactly when it is the threshold-th one since the last ok commit,
   token swap or start; before that the watch stays live unless its write failed.
   */
  lemma UpstreamFailureSteps(c: Core, cfg: Config, id: string, now: Time, errText: string, io: bool)
    requires Inv(c, cfg) && Live(c, id) && c.watches[id].startedAt <= now
    ensures var (c2, stop) := HandleUpstreamFailure(c, cfg, id, now, errText, io);
      var last := FailuresSince(c.hist, id) + 1 == cfg.upstreamFailureThreshold;
      && Steps(c, cfg, c2, id, now, 1, io)
      && stop == (last || !io) && c2.watches[id].terminal == stop
      && (c2.watches[id].failureReason == Some(AuthExpired) <==> last && io)
  {
    LiveDraft(c, cfg, id);
    assert RecordedFor(c, id);
    if c.watches[id].upstreamFailureCount + 1 < cfg.upstreamFailureThreshold {
      UpstreamLiveSteps(c, cfg, id, now, errText, io);
    } else {
      UpstreamEndSteps(c, cfg, id, now, errText, io);
    }
  }

  /** When the write of an escalation is refused the reason is rewritten, but the hint stays. */
  lemma HintOutlivesReason(c: Core, cfg: Config, id: string, now: Time, errText: string)
    requires Inv(c, cfg) && Live(c, id) && c.watches[id].startedAt <= now
    requires c.watches[id].upstreamFailureCount + 1 == cfg.upstreamFailureThreshold
    ensures var w := HandleUpstreamFailure(c, cfg, id, now, errText, false).0.watches[id];
      w.terminal && w.failureReason == Some(InternalError) && w.recoveryHint == Some(UPSTREAM_HINT)
  {
    LiveDraft(c, cfg, id);
    FinishSteps(c, cfg, Failing(c.watches[id], now), Failed, Some(AuthExpired), now, UPSTREAM_TEXT,
        Some(UPSTREAM_HINT), false, true);
  }
}
