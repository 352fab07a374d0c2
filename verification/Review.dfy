/**
 The review status of a pull request, as internal/github/client.go reads it from GitHub:
 the paginated folds of GetReviewData and the decision of DeriveStatus.
 */
module Review {
  import opened Base
  import opened Domain

  const COPILOT_LOGINS: seq<string> :=
    ["Copilot", "github-copilot[bot]", "copilot-pull-request-reviewer[bot]", "github-copilot"]

  predicate IsCopilot(login: string) {
    login in COPILOT_LOGINS
  }

  const CHANGES_REQUESTED := "CHANGES_REQUESTED"

  // ----- what the API answers -----

  datatype Rate = Rate(remaining: int, reset: Time)

  /** One page of a listing; `rate` is None when the client got no response object. */
  datatype Page<+T> = PageError | Page(items: seq<T>, rate: Option<Rate>)

  /** A submitted review; `submittedAt` is ZERO_TIME when GitHub sent none. */
  datatype ReviewItem = ReviewItem(login: string, id: int, state: string, submittedAt: Time)

  datatype TimelineItem = TimelineItem(event: string, reviewer: Option<string>, createdAt: Time)

  // ----- what the rest of the program sees -----

  datatype PullRequestReview = PullRequestReview(id: int, state: string, submittedAt: Option<Time>)

  datatype ReviewData = ReviewData(
    isCopilotInReviewers: bool,
    latestCopilotReview: Option<PullRequestReview>,
    rateLimitRemaining: int,
    rateLimitReset: Time,
    reviewRequestedAt: Option<Time>,
    workStartedAt: Option<Time>,
    skippedTimeline: bool)

  const NO_DATA := ReviewData(false, None, 0, ZERO_TIME, None, None, false)

  function ReviewOf(item: ReviewItem): PullRequestReview {
    PullRequestReview(item.id, item.state, if item.submittedAt == ZERO_TIME then None else Some(item.submittedAt))
  }

  function SubmittedOrZero(r: PullRequestReview): Time {
    if r.submittedAt.Some? then r.submittedAt.value else ZERO_TIME
  }

  /** The four names Copilot reviews under. */
  lemma CopilotNames(login: string)
    ensures IsCopilot(login) <==>
            || login == "Copilot" || login == "github-copilot[bot]"
            || login == "copilot-pull-request-reviewer[bot]" || login == "github-copilot"
  {
  }

  predicate IsRequest(ev: TimelineItem) {
    ev.event == "review_requested" && ev.reviewer.Some? && IsCopilot(ev.reviewer.value)
  }

  predicate IsWorkStart(ev: TimelineItem) {
    ev.event == "copilot_work_started"
  }

  /** `best` is the first Copilot review with the latest submission time. */
  ghost predicate IsLatestReview(best: Option<PullRequestReview>, items: seq<ReviewItem>) {
    match best
    case None => forall j :: 0 <= j < |items| ==> !IsCopilot(items[j].login)
    case Some(r) =>
      exists i :: 0 <= i < |items| && IsCopilot(items[i].login) && r == ReviewOf(items[i]) && FirstLatest(items, i)
  }

  ghost predicate FirstLatest(items: seq<ReviewItem>, i: nat)
    requires i < |items|
  {
    forall j :: 0 <= j < |items| && IsCopilot(items[j].login) ==>
      items[j].submittedAt <= items[i].submittedAt && (j < i ==> items[j].submittedAt < items[i].submittedAt)
  }

  /** `t` is the greatest creation time of the events the predicate accepts. */
  ghost predicate IsLatestEvent(t: Option<Time>, events: seq<TimelineItem>, accepts: TimelineItem -> bool) {
    match t
    case None => forall ev :: ev in events ==> !accepts(ev)
    case Some(v) =>
      && (exists ev :: ev in events && accepts(ev) && ev.createdAt == v)
      && (forall ev :: ev in events && accepts(ev) ==> ev.createdAt <= v)
  }

  function Items<T>(pages: seq<Page<T>>): seq<T> {
    if pages == [] then []
    else Items(pages[..|pages| - 1]) + (match pages[|pages| - 1] case PageError => [] case Page(items, _) => items)
  }

  lemma ItemsExtend<T>(pages: seq<Page<T>>, n: nat)
    requires n < |pages|
    ensures Items(pages[..n + 1]) ==
            Items(pages[..n]) + (match pages[n] case PageError => [] case Page(items, _) => items)
  {
    assert pages[..n + 1][..n] == pages[..n];
  }

  /** The number of pages a listing loop reads: it stops at an error and after a missing response. */
  function Consumed<T>(pages: seq<Page<T>>): (n: nat)
    ensures StopsAfter(pages, n)
  {
    if pages == [] || pages[0].PageError? then 0
    else if pages[0].rate.None? then 1
    else
      var n := Consumed(pages[1..]);
      assert forall i :: 0 < i < 1 + n ==> pages[i] == pages[1..][i - 1];
      assert n < |pages[1..]| ==> pages[1 + n] == pages[1..][n];
      1 + n
  }

  predicate StopsAfter<T>(pages: seq<Page<T>>, n: nat) {
    && n <= |pages|
    && (forall i :: 0 <= i < n ==> pages[i].Page?)
    && (forall i :: 0 <= i < n - 1 ==> pages[i].rate.Some?)
    && (n < |pages| ==> pages[n].PageError? || (n > 0 && pages[n - 1].rate.None?))
  }

  lemma StopUnique<T>(pages: seq<Page<T>>, n: nat)
    requires StopsAfter(pages, n)
    ensures n == Consumed(pages)
  {
    var m := Consumed(pages);
    assert m > 0 ==> pages[m - 1].Page?;
    assert n > 0 ==> pages[n - 1].Page?;
  }

  /** The listing ended without an error. */
  predicate Complete<T>(pages: seq<Page<T>>) {
    var n := Consumed(pages);
    n == |pages| || (n > 0 && pages[n - 1].rate.None?)
  }

  function Seen<T>(pages: seq<Page<T>>): seq<T> {
    Items(pages[..Consumed(pages)])
  }

  /** The rate-limit budget after reading pages, starting from an earlier answer's budget. */
  function Budget<T>(pages: seq<Page<T>>, before: Rate): Rate {
    if pages == [] then before
    else
      match pages[|pages| - 1]
      case Page(_, Some(rate)) => rate
      case _ => Budget(pages[..|pages| - 1], before)
  }

  lemma BudgetExtend<T>(pages: seq<Page<T>>, n: nat, before: Rate)
    requires n < |pages|
    ensures Budget(pages[..n + 1], before) ==
            (match pages[n] case Page(_, Some(rate)) => rate case _ => Budget(pages[..n], before))
  {
    assert pages[..n + 1][..n] == pages[..n];
  }

  // ----- GetReviewData -----

  const LOW_BUDGET := 10

  ghost predicate SomeCopilot(users: seq<string>) {
    exists u :: u in users && IsCopilot(u)
  }

  /** What GetReviewData must return for these answers, said without reference to its loops. */
  ghost predicate Summarises(data: ReviewData, users: seq<string>, first: Rate,
                             reviews: seq<Page<ReviewItem>>, timeline: seq<Page<TimelineItem>>)
  {
    var middle := Budget(reviews[..Consumed(reviews)], first);
    var last := Budget(timeline[..Consumed(timeline)], middle);
    && data.isCopilotInReviewers == SomeCopilot(users)
    && if first.remaining < LOW_BUDGET then
         data == NO_DATA.(isCopilotInReviewers := SomeCopilot(users),
                          rateLimitRemaining := first.remaining, rateLimitReset := first.reset)
       else
         && IsLatestReview(data.latestCopilotReview, Seen(reviews))
         && if !data.isCopilotInReviewers && data.latestCopilotReview.None? then
              data == NO_DATA.(rateLimitRemaining := middle.remaining, rateLimitReset := middle.reset)
            else if middle.remaining < LOW_BUDGET then
              && data.skippedTimeline && data.reviewRequestedAt.None? && data.workStartedAt.None?
              && data.rateLimitRemaining == middle.remaining && data.rateLimitReset == middle.reset
            else
              && !data.skippedTimeline
              && IsLatestEvent(data.reviewRequestedAt, Seen(timeline), IsRequest)
              && IsLatestEvent(data.workStartedAt, Seen(timeline), IsWorkStart)
              && data.rateLimitRemaining == last.remaining && data.rateLimitReset == last.reset
  }

  /** The first answer's budget; a missing response leaves the zero value in place. */
  function FirstBudget(rate: Option<Rate>): Rate {
    if rate.Some? then rate.value else Rate(0, ZERO_TIME)
  }

  method GetReviewData(reviewers: Page<string>, reviews: seq<Page<ReviewItem>>, timeline: seq<Page<TimelineItem>>)
    returns (r: Result<ReviewData, ()>)
    ensures r.Ok? <==>
      reviewers.Page? &&
      (FirstBudget(reviewers.rate).remaining >= LOW_BUDGET ==>
        Complete(reviews))
    ensures r.Ok? ==> Summarises(r.value, reviewers.items, FirstBudget(reviewers.rate), reviews, timeline)
  {
    if reviewers.PageError? { return Err(()); }
    var first := FirstBudget(reviewers.rate);
    var data := NO_DATA.(rateLimitRemaining := first.remaining, rateLimitReset := first.reset);
    data := data.(isCopilotInReviewers := exists u :: u in reviewers.items && IsCopilot(u));
    if data.rateLimitRemaining < LOW_BUDGET { return Ok(data); }

    var ok, best, budget := ReadReviews(reviews, first);
    if !ok { return Err(()); }
    data := data.(latestCopilotReview := best, rateLimitRemaining := budget.remaining, rateLimitReset := budget.reset);

    // the timeline is read only when it can matter and the budget allows it
    if !data.isCopilotInReviewers && data.latestCopilotReview.None? { return Ok(data); }
    if data.rateLimitRemaining < LOW_BUDGET { return Ok(data.(skippedTimeline := true)); }
    var requested, started, left := ReadTimeline(timeline, budget);
    return Ok(data.(reviewRequestedAt := requested, workStartedAt := started,
                    rateLimitRemaining := left.remaining, rateLimitReset := left.reset));
  }

  method ReadReviews(reviews: seq<Page<ReviewItem>>, first: Rate)
    returns (ok: bool, best: Option<PullRequestReview>, budget: Rate)
    ensures ok <==> Complete(reviews)
    ensures ok ==> IsLatestReview(best, Seen(reviews))
    ensures ok ==> budget == Budget(reviews[..Consumed(reviews)], first)
  {
    best, budget := None, first;
    var page := 0;
    var more := |reviews| > 0;
    while more
      invariant 0 <= page <= |reviews|
      invariant more ==> page < |reviews|
      invariant ReadSoFar(reviews, page, more)
      invariant IsLatestReview(best, Items(reviews[..page]))
      invariant budget == Budget(reviews[..page], first)
      decreases |reviews| - page, more
    {
      if reviews[page].PageError? {
        StopUnique(reviews, page);
        return false, None, first;
      }
      ItemsExtend(reviews, page);
      BudgetExtend(reviews, page, first);
      if reviews[page].rate.Some? { budget := reviews[page].rate.value; }
      best := FoldReviews(best, reviews[page].items, Items(reviews[..page]));
      more := reviews[page].rate.Some? && page + 1 < |reviews|;
      page := page + 1;
    }
    StopUnique(reviews, page);
    ok := true;
  }

  method ReadTimeline(timeline: seq<Page<TimelineItem>>, middle: Rate)
    returns (requested: Option<Time>, started: Option<Time>, budget: Rate)
    ensures IsLatestEvent(requested, Seen(timeline), IsRequest)
    ensures IsLatestEvent(started, Seen(timeline), IsWorkStart)
    ensures budget == Budget(timeline[..Consumed(timeline)], middle)
  {
    requested, started, budget := None, None, middle;
    var page := 0;
    var more := |timeline| > 0;
    while more
      invariant 0 <= page <= |timeline|
      invariant more ==> page < |timeline|
      invariant ReadSoFar(timeline, page, more)
      invariant IsLatestEvent(requested, Items(timeline[..page]), IsRequest)
      invariant IsLatestEvent(started, Items(timeline[..page]), IsWorkStart)
      invariant budget == Budget(timeline[..page], middle)
      decreases |timeline| - page, more
    {
      if timeline[page].PageError? {
        // the timeline is best effort: keep what earlier pages gave
        break;
      }
      ItemsExtend(timeline, page);
      BudgetExtend(timeline, page, middle);
      if timeline[page].rate.Some? { budget := timeline[page].rate.value; }
      requested, started := FoldTimeline(requested, started, timeline[page].items, Items(timeline[..page]));
      more := timeline[page].rate.Some? && page + 1 < |timeline|;
      page := page + 1;
    }
    StopUnique(timeline, page);
  }

  /** The state of a listing loop: pages read so far, and whether another one follows. */
  predicate ReadSoFar<T>(pages: seq<Page<T>>, n: nat, more: bool)
    requires n <= |pages|
  {
    && (forall i :: 0 <= i < n ==> pages[i].Page?)
    && (forall i :: 0 <= i < n - 1 ==> pages[i].rate.Some?)
    && (more ==> (n > 0 ==> pages[n - 1].rate.Some?))
    && (!more ==> n == |pages| || (n > 0 && pages[n - 1].rate.None?))
  }

  method FoldReviews(latest: Option<PullRequestReview>, page: seq<ReviewItem>, ghost earlier: seq<ReviewItem>)
    returns (best: Option<PullRequestReview>)
    requires IsLatestReview(latest, earlier)
    ensures IsLatestReview(best, earlier + page)
  {
    best := latest;
    assert earlier + page[..0] == earlier;
    for i := 0 to |page|
      invariant IsLatestReview(best, earlier + page[..i])
    {
      var r := page[i];
      ghost var before, after := earlier + page[..i], earlier + page[..i + 1];
      assert after == before + [r];
      if !IsCopilot(r.login) {
        LatestReviewSkips(best, before, r);
        continue;
      }
      var prevSat := if best.Some? then SubmittedOrZero(best.value) else ZERO_TIME;
      if best.None? || r.submittedAt > prevSat {
        best := Some(ReviewOf(r));
        assert FirstLatest(after, |before|) && after[|before|] == r;
      } else {
        LatestReviewSkips(best, before, r);
      }
    }
    assert page[..|page|] == page;
  }

  lemma LatestReviewSkips(best: Option<PullRequestReview>, before: seq<ReviewItem>, r: ReviewItem)
    requires IsLatestReview(best, before)
    requires !IsCopilot(r.login) || (best.Some? && r.submittedAt <= SubmittedOrZero(best.value))
    ensures IsLatestReview(best, before + [r])
  {
    var after := before + [r];
    if best.Some? {
      var i :| 0 <= i < |before| && IsCopilot(before[i].login) && best.value == ReviewOf(before[i])
          && FirstLatest(before, i);
      assert after[i] == before[i] && FirstLatest(after, i);
    }
  }

  method FoldTimeline(requestedAt: Option<Time>, startedAt: Option<Time>, page: seq<TimelineItem>,
          ghost earlier: seq<TimelineItem>)
    returns (requested: Option<Time>, started: Option<Time>)
    requires IsLatestEvent(requestedAt, earlier, IsRequest) && IsLatestEvent(startedAt, earlier, IsWorkStart)
    ensures IsLatestEvent(requested, earlier + page, IsRequest) && IsLatestEvent(started, earlier + page, IsWorkStart)
  {
    requested, started := requestedAt, startedAt;
    assert earlier + page[..0] == earlier;
    for i := 0 to |page|
      invariant IsLatestEvent(requested, earlier + page[..i], IsRequest)
      invariant IsLatestEvent(started, earlier + page[..i], IsWorkStart)
    {
      var ev := page[i];
      ghost var before := earlier + page[..i];
      assert earlier + page[..i + 1] == before + [ev];
      var wasRequested, wasStarted := requested, started;
      if ev.event == "review_requested" {
        if ev.reviewer.Some? && IsCopilot(ev.reviewer.value) {
          if requested.None? || ev.createdAt > requested.value { requested := Some(ev.createdAt); }
        }
      } else if ev.event == "copilot_work_started" {
        if started.None? || ev.createdAt > started.value { started := Some(ev.createdAt); }
      }
      LatestEventExtends(wasRequested, requested, before, ev, IsRequest);
      LatestEventExtends(wasStarted, started, before, ev, IsWorkStart);
    }
    assert page[..|page|] == page;
  }

  lemma LatestEventExtends(t: Option<Time>, newer: Option<Time>, before: seq<TimelineItem>, ev: TimelineItem,
          accepts: TimelineItem -> bool)
    requires IsLatestEvent(t, before, accepts)
    requires newer == if accepts(ev) && (t.None? || ev.createdAt > t.value) then Some(ev.createdAt) else t
    ensures IsLatestEvent(newer, before + [ev], accepts)
  {
    assert ev in before + [ev];
    assert forall e :: e in before + [ev] <==> e in before || e == ev;
  }

  // ----- DeriveStatus -----

  function DeriveStatus(data: ReviewData, requestedAt: Option<Time>, prevReviewID: Option<string>): ReviewStatus {
    if data.latestCopilotReview.Some? && Relevant(data, requestedAt, prevReviewID) then
      if data.latestCopilotReview.value.state == CHANGES_REQUESTED then ReviewBlocked else ReviewCompleted
    else if data.isCopilotInReviewers then
      if data.workStartedAt.Some? &&
         (data.reviewRequestedAt.None? || data.workStartedAt.value > data.reviewRequestedAt.value)
      then InProgress else Pending
    else NotRequested
  }

  /** The latest review answers the current request; the ID of the review before it decides when known. */
  predicate Relevant(data: ReviewData, requestedAt: Option<Time>, prevReviewID: Option<string>)
    requires data.latestCopilotReview.Some?
  {
    var review := data.latestCopilotReview.value;
    var effective := if data.reviewRequestedAt.Some? then data.reviewRequestedAt else requestedAt;
    if effective.None? then true
    else if prevReviewID.Some? then IntText(review.id) != prevReviewID.value
    else
      var sat := SubmittedOrZero(review);
      sat != ZERO_TIME && sat >= effective.value
  }

  predicate IsDone(status: ReviewStatus) {
    status == ReviewCompleted || status == ReviewBlocked
  }
}
