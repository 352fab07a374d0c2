/**
 One worker of the watch manager: the control flow of `run` and `pollOnce` as a state machine
 whose steps end where another goroutine can run.
 */
module WatchWorker {
  import opened Base
  import opened Domain
  import opened Store
  import opened Review
  import opened WatchCore

  // ----- what the outside world answers -----

  /** A failed fetch, by the questions pollOnce asks about the error, in its order. */
  datatype FetchError = FetchError(
    canceled: bool, deadlineExceeded: bool, rateLimited: bool, upstreamFailure: bool, auth: bool, text: string)

  datatype FetchResult = Data(data: ReviewData) | Failure(error: FetchError) | Panic(text: string)

  /** Reading the latest trigger_log row; None is a failed read. */
  type TriggerRead = Option<Option<Trigger>>

  /** The environment's answers for one worker step; a step looks at those its phase needs. */
  datatype Env = Env(result: FetchResult, trigger: TriggerRead, marked: bool, cancelledFirst: bool, io: bool)

  // ----- where a worker is -----

  datatype Phase =
    | Ready                                                // pollOnce is about to start
    | Fetching                                             // GetReviewData is running
    | Fetched(now: Time, data: ReviewData)                 // trigger_log not read yet
    | Marking(now: Time, review: ReviewStatus, row: int)   // the trigger row is to be completed
    | Committing(now: Time, review: ReviewStatus, entry: Option<int>)
    | CommittingLow(now: Time, review: ReviewStatus, reset: Option<Time>)
    | Ending(now: Time, status: WatchStatus, reason: Option<FailureReason>, text: string, counted: bool,
        hint: Option<string>)
    | UpstreamFailing(now: Time, text: string)
    | Panicked(text: string)
    | Waiting                                              // in the select of `run`
    | Exited

  /** `polls` counts the calls of pollOnce, the current or next one included. */
  datatype Worker = Worker(phase: Phase, polls: nat, tickerAt: Option<Time>)

  const TIMEOUT_TEXT := "watch exceeded max duration"
  const NO_CLIENT_TEXT := "watch client is unavailable"
  const POLL_TIMEOUT_TEXT := "github poll timed out"
  const TRIGGER_READ_TEXT := "failed to read trigger_log"
  const TRIGGER_MARK_TEXT := "failed to update trigger_log completed_at"
  const REAUTH_HINT := "Re-authenticate with GitHub to continue watching."

  // ----- the steps of pollOnce outside the mutex -----

  function BeginPoll(c: Core, cfg: Config, id: string, now: Time): Phase {
    if id !in c.watches then Exited
    else if now - c.watches[id].startedAt >= cfg.maxWatchDuration then
      Ending(now, Timeout, None, TIMEOUT_TEXT, false, None)
    else if c.watches[id].client.None? then Ending(now, Failed, Some(InternalError), NO_CLIENT_TEXT, false, None)
    else Fetching
  }

  function AfterFetch(result: FetchResult, now: Time, contextDone: bool): Phase {
    match result
    case Panic(text) => Panicked(text)
    case Data(data) => Fetched(now, data)
    case Failure(e) =>
      if e.canceled && contextDone then Exited
      else if e.deadlineExceeded then
        if contextDone then Exited else Ending(now, Failed, Some(GitHubError), POLL_TIMEOUT_TEXT, true, None)
      else if e.rateLimited then Ending(now, RateLimited, None, e.text, true, None)
      else if e.upstreamFailure then UpstreamFailing(now, e.text)
      else if e.auth then Ending(now, Failed, Some(AuthExpired), e.text, true, Some(REAUTH_HINT))
      else Ending(now, Failed, Some(GitHubError), e.text, true, None)
  }

  function AfterTriggerRead(now: Time, data: ReviewData, read: TriggerRead): Phase {
    match read
    case None => Ending(now, Failed, Some(InternalError), TRIGGER_READ_TEXT, true, None)
    case Some(entry) =>
      var requestedAt := if entry.Some? then Some(entry.value.requestedAt) else None;
      var prev := if entry.Some? then entry.value.prevReviewID else None;
      var id := if entry.Some? then Some(entry.value.id) else None;
      var review := DeriveStatus(data, requestedAt, prev);
      if data.rateLimitRemaining < LOW_BUDGET then
        CommittingLow(now, review, if data.rateLimitReset == ZERO_TIME then None else Some(data.rateLimitReset))
      else if DoneStatus(review).Some? && entry.Some? && entry.value.completedAt.None? then
        Marking(now, review, entry.value.id)
      else Committing(now, review, id)
  }

  function AfterMark(now: Time, review: ReviewStatus, entry: int, marked: bool): Phase {
    if marked then Committing(now, review, Some(entry))
    else Ending(now, Failed, Some(InternalError), TRIGGER_MARK_TEXT, true, None)
  }

  /** Where a poll arrives before its critical section, from the answer of its fetch on. */
  function FetchPhase(c: Core, id: string, result: FetchResult, now: Time, read: TriggerRead, marked: bool): Phase {
    var answered := AfterFetch(result, now, id in c.done);
    if !answered.Fetched? then answered
    else
      var derived := AfterTriggerRead(answered.now, answered.data, read);
      if derived.Marking? then AfterMark(derived.now, derived.review, derived.row, marked) else derived
  }

  // ----- the steps that take the mutex -----

  predicate Locks(phase: Phase) {
    phase.Committing? || phase.CommittingLow? || phase.Ending? || phase.UpstreamFailing? || phase.Panicked?
  }

  /** The critical section a phase runs, and whether `run` returns after it. */
  function LockedStep(c: Core, cfg: Config, id: string, phase: Phase, clock: Time, io: bool): (Core, bool)
    requires Locks(phase)
  {
    match phase
    case Committing(now, review, entry) =>
      if DoneStatus(review).Some? then (CommitDone(c, id, now, review, entry, io), true)
      else CommitOk(c, id, now, review, entry, io)
    case CommittingLow(now, review, reset) => (CommitLowBudget(c, id, now, review, reset, io), true)
    case Ending(now, status, reason, text, counted, hint) =>
      (FinishState(c, id, now, status, reason, text, counted, hint, io), true)
    case UpstreamFailing(now, text) => HandleUpstreamFailure(c, cfg, id, now, text, io)
    case Panicked(text) => (MarkStale(c, id, text, clock, io), true)
  }

  /** c2 is c after the critical section of the phase, if the poll gets to one; `stop` tells `run` to return. */
  ghost predicate Lands(c: Core, cfg: Config, id: string, phase: Phase, clock: Time, io: bool, c2: Core, stop: bool) {
    if phase.Exited? then c2 == c && stop else Locks(phase) && (c2, stop) == LockedStep(c, cfg, id, phase, clock, io)
  }

  /** The clock reading a phase carries into its critical section; only a recovered panic reads it there. */
  function ReadAt(phase: Phase, clock: Time): Time {
    match phase
    case Committing(now, _, _) => now
    case CommittingLow(now, _, _) => now
    case Ending(now, _, _, _, _, _) => now
    case UpstreamFailing(now, _) => now
    case _ => clock
  }

  // ----- `run` -----

  /** The ticker is created when the first poll returns; its k-th tick comes k intervals later or after. */
  function AfterPoll(k: Worker, stop: bool, clock: Time): Worker {
    if stop then k.(phase := Exited)
    else k.(phase := Waiting, tickerAt := if k.tickerAt.None? then Some(clock) else k.tickerAt)
  }

  predicate TickDue(cfg: Config, k: Worker, clock: Time) {
    k.tickerAt.Some? && k.tickerAt.value + k.polls * cfg.pollInterval <= clock
  }
}
