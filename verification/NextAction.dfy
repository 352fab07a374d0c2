/** What a client is told to do next about a watch, and the URI a watch is read under (internal/tools/watch.go). */
module NextAction {
  import opened Base
  import opened Domain
  import opened Store
  import opened WatchCore
  import opened WatchInvariant
  import opened WatchSections
  import opened WatchSystem
  import opened WatchTheorems
  import opened ManagerHelpers
  import opened WatchList
  import opened WatchListTheorems

  datatype Next = PollAfter | ReadReviewThreads | StartNewWatch | ReauthAndStartNewWatch | CheckFailure

  function DurationSecondsCeil(d: Time): int {
    if d <= 0 then 1
    else
      var seconds := (d + SECOND - 1) / SECOND;
      if seconds < 1 then 1 else seconds
  }

  function SecondsUntilNextPoll(lastPolledAt: Option<Time>, pollInterval: Time, now: Time): int {
    var interval := if pollInterval <= 0 then 90 * SECOND else pollInterval;
    if lastPolledAt.None? then 1
    else
      var remaining := lastPolledAt.value + interval - now;
      if remaining <= 0 then 1 else DurationSecondsCeil(remaining)
  }

  function SecondsUntilRateLimitReset(resetAt: Option<Time>, fallback: Time, now: Time): int {
    if resetAt.None? then DurationSecondsCeil(fallback)
    else
      var remaining := resetAt.value - now;
      if remaining <= 0 then 1 else DurationSecondsCeil(remaining)
  }

  function Recommend(s: Snapshot, pollInterval: Time, now: Time): (Next, Option<int>) {
    match s.watchStatus
    case Watching => (PollAfter, Some(SecondsUntilNextPoll(s.lastPolledAt, pollInterval, now)))
    case Completed => (ReadReviewThreads, None)
    case Blocked => (ReadReviewThreads, None)
    case RateLimited => (StartNewWatch, Some(SecondsUntilRateLimitReset(s.rateLimitResetAt, pollInterval, now)))
    case Cancelled => (StartNewWatch, None)
    case Stale => (StartNewWatch, None)
    case Timeout => (StartNewWatch, None)
    case Failed => (if s.failureReason == Some(AuthExpired) then ReauthAndStartNewWatch else CheckFailure, None)
  }

  // ----- waiting times -----

  /** The least number of seconds, at least one, that covers the duration. */
  lemma CeilIsLeast(d: Time, n: int)
    ensures DurationSecondsCeil(d) >= 1 && DurationSecondsCeil(d) * SECOND >= d
    ensures n >= 1 && n * SECOND >= d ==> DurationSecondsCeil(d) <= n
  {
  }

  /** A client that waits as told arrives when the next poll is due, and no shorter wait would do. */
  lemma PollWaitIsLeast(last: Time, interval: Time, now: Time, n: int)
    requires interval > 0 && n >= 1
    ensures now + SecondsUntilNextPoll(Some(last), interval, now) * SECOND >= last + interval
    ensures now + n * SECOND >= last + interval ==> SecondsUntilNextPoll(Some(last), interval, now) <= n
  {
    CeilIsLeast(last + interval - now, n);
  }

  /** The same for a rate limit: the wait ends after the reset, and is the least that does. */
  lemma ResetWaitIsLeast(reset: Time, fallback: Time, now: Time, n: int)
    requires n >= 1
    ensures now + SecondsUntilRateLimitReset(Some(reset), fallback, now) * SECOND >= reset
    ensures now + n * SECOND >= reset ==> SecondsUntilRateLimitReset(Some(reset), fallback, now) <= n
  {
    CeilIsLeast(reset - now, n);
  }

  // ----- the action fits the watch -----

  /** The action and the wait that fit a snapshot, each case exactly. */
  ghost predicate ActionFits(s: Snapshot, told: (Next, Option<int>), pollInterval: Time, now: Time) {
    var (next, wait) := told;
    && (next == PollAfter <==> !s.terminal)
    && (next == ReadReviewThreads <==> s.watchStatus == Completed || s.watchStatus == Blocked)
    && (next == StartNewWatch <==>
        s.watchStatus == RateLimited || s.watchStatus == Cancelled || s.watchStatus == Stale
            || s.watchStatus == Timeout)
    && (next == ReauthAndStartNewWatch <==> s.failureReason == Some(AuthExpired))
    && (next == CheckFailure <==> s.failureReason.Some? && s.failureReason != Some(AuthExpired))
    && (next == ReadReviewThreads ==> s.reviewStatus == Some(ReviewCompleted) || s.reviewStatus == Some(ReviewBlocked))
    && (wait.Some? <==> !s.terminal || s.watchStatus == RateLimited)
    && (!s.terminal ==>
        match s.lastPolledAt
        case None => wait == Some(1)
        case Some(last) => LeastWait(wait.value, last + pollInterval, now))
    && (s.watchStatus == RateLimited ==>
        match s.rateLimitResetAt
        case None => LeastWait(wait.value, now + pollInterval, now)
        case Some(reset) => LeastWait(wait.value, reset, now))
  }

  /** The least number of seconds, at least one, after which that time has come. */
  ghost predicate LeastWait(seconds: int, due: Time, now: Time) {
    seconds >= 1 && now + seconds * SECOND >= due && (seconds == 1 || now + (seconds - 1) * SECOND < due)
  }

  lemma CeilIsLeastWait(due: Time, now: Time)
    ensures LeastWait(DurationSecondsCeil(due - now), due, now)
  {
  }

  /** For every snapshot whose status, reason and liveness fit each other. */
  lemma RecommendFits(s: Snapshot, pollInterval: Time, now: Time)
    requires pollInterval > 0
    requires !s.terminal <==> s.watchStatus == Watching
    requires s.watchStatus == Failed <==> s.failureReason.Some?
    requires s.watchStatus == Completed ==> s.reviewStatus == Some(ReviewCompleted)
    requires s.watchStatus == Blocked ==> s.reviewStatus == Some(ReviewBlocked)
    ensures ActionFits(s, Recommend(s, pollInterval, now), pollInterval, now)
  {
    if s.lastPolledAt.Some? { CeilIsLeastWait(s.lastPolledAt.value + pollInterval, now); }
    if s.rateLimitResetAt.Some? { CeilIsLeastWait(s.rateLimitResetAt.value, now); }
    CeilIsLeastWait(now + pollInterval, now);
  }

  ghost predicate Fits(s: Snapshot, cfg: Config, now: Time) {
    ActionFits(s, Recommend(s, cfg.pollInterval, now), cfg.pollInterval, now)
  }

  lemma ShapedActionFits(w: Watch, cfg: Config, now: Time)
    requires WellShaped(w, cfg) && ValidConfig(cfg)
    ensures Fits(SnapshotOf(w), cfg, now)
  {
    RecommendFits(SnapshotOf(w), cfg.pollInterval, now);
  }

  /** A row of any process, with its last write taken or lost. */
  lemma RowActionFits(c: Core, cfg: Config, i: nat, now: Time)
    requires Inv(c, cfg) && ValidConfig(cfg) && i < |c.rows|
    ensures Fits(SnapshotOfEntry(c.rows[i]), cfg, now)
  {
    assert RowShaped(c.rows, i);
    RecommendFits(SnapshotOfEntry(c.rows[i]), cfg.pollInterval, now);
  }

  /**
   In every run, across restarts and lost writes, whatever GetByID returns, from memory or from a row: a
   client is told to poll exactly while the snapshot is live, and to re-authenticate exactly when it shows
   that reason.
   */
  lemma ActionByIDFits(cfg: Config, start: Time, events: seq<Event>, id: string, read: bool, now: Time)
    requires ValidConfig(cfg) && SnapshotByID(Reached(cfg, start, events).core, id, read).Some?
    ensures var s := SnapshotByID(Reached(cfg, start, events).core, id, read).value;
      Fits(s, cfg, now)
  {
    var c := Reached(cfg, start, events).core;
    ReachedInv(cfg, start, events);
    if id in c.watches {
      assert ShapedAt(c, cfg, id);
      ShapedActionFits(c.watches[id], cfg, now);
    } else {
      RowActionFits(c, cfg, Find(c.rows, id), now);
    }
  }

  /** The same of what GetLatest returns. */
  lemma ActionForLatestFits(cfg: Config, start: Time, events: seq<Event>, key: WatchKey, read: bool, now: Time)
    requires ValidConfig(cfg) && LatestSnapshot(Reached(cfg, start, events).core, key, read).Some?
    ensures var s := LatestSnapshot(Reached(cfg, start, events).core, key, read).value;
      Fits(s, cfg, now)
  {
    var c := Reached(cfg, start, events).core;
    ReachedInv(cfg, start, events);
    if key in c.latest && c.latest[key] in c.watches {
      assert ShapedAt(c, cfg, c.latest[key]);
      ShapedActionFits(c.watches[c.latest[key]], cfg, now);
    } else {
      RowActionFits(c, cfg, LatestRow(c.rows, key).value, now);
    }
  }

  /** And of everything List can return. */
  lemma ListedActionFits(cfg: Config, start: Time, events: seq<Event>, login: string, opts: ListOptions, id: string,
          now: Time)
    requires ValidConfig(cfg) && id in Candidates(Reached(cfg, start, events).core, login, opts)
    ensures var s := Candidates(Reached(cfg, start, events).core, login, opts)[id];
      Fits(s, cfg, now)
  {
    var c := Reached(cfg, start, events).core;
    ReachedInv(cfg, start, events);
    if id in InMemory(c, login, opts) {
      assert ShapedAt(c, cfg, id);
      ShapedActionFits(c.watches[id], cfg, now);
    } else {
      var x :| x in ListRows(c.rows, login, opts) && x.e.id == id
          && Candidates(c, login, opts)[id] == SnapshotOfEntry(x.e);
      FetchedSelected(c.rows, login, opts, x);
      RowActionFits(c, cfg, x.n, now);
    }
  }

  // ----- URIs -----

  function ParseWatchIDFromURI(uri: string): Option<string> {
    if !(URI_PREFIX <= uri) then None
    else
      var id := uri[|URI_PREFIX|..];
      if id == "" || '/' in id || '?' in id || '#' in id then None else Some(id)
  }

  /** An ID is read exactly from its own URI, if it is not empty and has no separator. */
  lemma ParsesExactly(uri: string, id: string)
    ensures ParseWatchIDFromURI(uri) == Some(id) <==>
            uri == ResourceURI(id) && id != "" && '/' !in id && '?' !in id && '#' !in id
  {
    if URI_PREFIX <= uri { assert uri == URI_PREFIX + uri[|URI_PREFIX|..]; }
    assert ResourceURI(id)[|URI_PREFIX|..] == id;
  }

  /** Every ID the manager mints is read back from its URI. */
  lemma MintedIDParses(now: Time, n: nat)
    ensures ParseWatchIDFromURI(ResourceURI(WatchID(now, n))) == Some(WatchID(now, n))
  {
    var id := WatchID(now, n);
    var digits := IntText(now);
    forall i | 0 <= i < |id| ensures id[i] != '/' && id[i] != '?' && id[i] != '#' {
      if 3 <= i < 3 + |digits| {
        assert id[i] == digits[i - 3];
      } else if i > 3 + |digits| {
        assert id[i] == IntText(n)[i - 4 - |digits|];
      }
    }
    ParsesExactly(ResourceURI(id), id);
  }
}
