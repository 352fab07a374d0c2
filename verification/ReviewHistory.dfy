/**
 The review cycle as an automaton over the events of a pull request, and the proof that the
 status derived from GitHub's paginated answers is the phase of that automaton.
 */
module ReviewHistory {
  import opened Base
  import opened Domain
  import opened Review

  datatype PrEvent =
    | Requested(at: Time)
    | WorkStarted(at: Time)
    | Reviewed(at: Time, id: int, state: string)
    | ReviewerRemoved(at: Time)

  ghost predicate Chronological(h: seq<PrEvent>) {
    && (forall i :: 0 <= i < |h| ==> h[i].at > ZERO_TIME)
    && (forall i, j :: 0 <= i < j < |h| ==> h[i].at < h[j].at)
  }

  /** The automaton: one step per event. */
  function Next(phase: ReviewStatus, e: PrEvent): ReviewStatus {
    match e
    case Requested(_) => Pending
    case WorkStarted(_) => if phase == Pending then InProgress else phase
    case Reviewed(_, _, state) => if state == CHANGES_REQUESTED then ReviewBlocked else ReviewCompleted
    case ReviewerRemoved(_) => if phase == Pending || phase == InProgress then NotRequested else phase
  }

  function Phase(h: seq<PrEvent>): ReviewStatus {
    if h == [] then NotRequested else Next(Phase(h[..|h| - 1]), h[|h| - 1])
  }

  /** GitHub lists Copilot as a requested reviewer from a request until a review or a removal. */
  function InReviewers(h: seq<PrEvent>): bool {
    if h == [] then false
    else
      match h[|h| - 1]
      case Requested(_) => true
      case Reviewed(_, _, _) => false
      case ReviewerRemoved(_) => false
      case WorkStarted(_) => InReviewers(h[..|h| - 1])
  }

  function LastRequest(h: seq<PrEvent>): Option<Time> {
    if h == [] then None
    else if h[|h| - 1].Requested? then Some(h[|h| - 1].at)
    else LastRequest(h[..|h| - 1])
  }

  function LastWork(h: seq<PrEvent>): Option<Time> {
    if h == [] then None
    else if h[|h| - 1].WorkStarted? then Some(h[|h| - 1].at)
    else LastWork(h[..|h| - 1])
  }

  function LastReview(h: seq<PrEvent>): (r: Option<PullRequestReview>)
    ensures r.Some? ==> r.value.submittedAt.Some?
  {
    if h == [] then None
    else
      var e := h[|h| - 1];
      if e.Reviewed? then Some(PullRequestReview(e.id, e.state, Some(e.at)))
      else LastReview(h[..|h| - 1])
  }

  // ----- what GitHub answers about a history -----

  /** The listings show exactly the Copilot events of the history, in any order, among other users' entries. */
  ghost predicate Shows(users: seq<string>, reviews: seq<ReviewItem>, timeline: seq<TimelineItem>, h: seq<PrEvent>) {
    && SomeCopilot(users) == InReviewers(h)
    && ShowsReviews(reviews, h)
    && ShowsRequests(timeline, h)
    && ShowsWork(timeline, h)
  }

  ghost predicate ShowsReviews(reviews: seq<ReviewItem>, h: seq<PrEvent>) {
    && (forall item :: item in reviews && IsCopilot(item.login) ==>
          Reviewed(item.submittedAt, item.id, item.state) in h)
    && (forall e :: e in h && e.Reviewed? ==>
          exists item :: item in reviews && IsCopilot(item.login)
              && Reviewed(item.submittedAt, item.id, item.state) == e)
  }

  ghost predicate ShowsRequests(timeline: seq<TimelineItem>, h: seq<PrEvent>) {
    && (forall ev :: ev in timeline && AsksCopilot(ev) ==> Requested(ev.createdAt) in h)
    && (forall e :: e in h && e.Requested? ==> exists ev :: ev in timeline && AsksCopilot(ev) && ev.createdAt == e.at)
  }

  /** A request event counts if it names Copilot as the reviewer. */
  ghost predicate AsksCopilot(ev: TimelineItem) {
    ev.event == "review_requested" && ev.reviewer.Some? && IsCopilot(ev.reviewer.value)
  }

  ghost predicate ShowsWork(timeline: seq<TimelineItem>, h: seq<PrEvent>) {
    && (forall ev :: ev in timeline && ev.event == "copilot_work_started" ==> WorkStarted(ev.createdAt) in h)
    && (forall e :: e in h && e.WorkStarted? ==>
          exists ev :: ev in timeline && ev.event == "copilot_work_started" && ev.createdAt == e.at)
  }

  // ----- the last event of each kind is the greatest one -----

  lemma {:induction false} LastRequestGreatest(h: seq<PrEvent>)
    requires Chronological(h)
    ensures LastRequest(h).Some? ==> Requested(LastRequest(h).value) in h
    ensures forall e :: e in h && e.Requested? ==> LastRequest(h).Some? && e.at <= LastRequest(h).value
  {
    if h != [] {
      LastRequestGreatest(h[..|h| - 1]);
      assert h == h[..|h| - 1] + [h[|h| - 1]];
    }
  }

  lemma {:induction false} LastWorkGreatest(h: seq<PrEvent>)
    requires Chronological(h)
    ensures LastWork(h).Some? ==> WorkStarted(LastWork(h).value) in h
    ensures forall e :: e in h && e.WorkStarted? ==> LastWork(h).Some? && e.at <= LastWork(h).value
  {
    if h != [] {
      LastWorkGreatest(h[..|h| - 1]);
      assert h == h[..|h| - 1] + [h[|h| - 1]];
    }
  }

  lemma {:induction false} LastReviewGreatest(h: seq<PrEvent>)
    requires Chronological(h)
    ensures LastReview(h).Some? ==>
      var r := LastReview(h).value; r.submittedAt.Some? && Reviewed(r.submittedAt.value, r.id, r.state) in h
    ensures forall e :: e in h && e.Reviewed? ==> LastReview(h).Some? && e.at <= LastReview(h).value.submittedAt.value
  {
    if h != [] {
      LastReviewGreatest(h[..|h| - 1]);
      assert h == h[..|h| - 1] + [h[|h| - 1]];
    }
  }

  /** Strictly increasing times: an instant names its event. */
  lemma SameInstantSameEvent(h: seq<PrEvent>, a: PrEvent, b: PrEvent)
    requires Chronological(h) && a in h && b in h && a.at == b.at
    ensures a == b
  {
    var i :| 0 <= i < |h| && h[i] == a;
    var j :| 0 <= j < |h| && h[j] == b;
    if i < j { assert h[i].at < h[j].at; } else if j < i { assert h[j].at < h[i].at; }
  }

  lemma FetchedReviewIsLast(best: Option<PullRequestReview>, reviews: seq<ReviewItem>, h: seq<PrEvent>)
    requires Chronological(h) && ShowsReviews(reviews, h)
    requires IsLatestReview(best, reviews)
    ensures best == LastReview(h)
  {
    LastReviewGreatest(h);
    if best.None? {
      assert forall item :: item in reviews ==> !IsCopilot(item.login);
      assert forall e :: e in h ==> !e.Reviewed?;
    } else {
      var i :| 0 <= i < |reviews| && IsCopilot(reviews[i].login) && best.value == ReviewOf(reviews[i])
          && FirstLatest(reviews, i);
      var top := reviews[i];
      var e := Reviewed(top.submittedAt, top.id, top.state);
      assert top in reviews && e in h;
      var r := LastReview(h).value;
      var last := Reviewed(r.submittedAt.value, r.id, r.state);
      var item :| item in reviews && IsCopilot(item.login) && Reviewed(item.submittedAt, item.id, item.state) == last;
      assert item.submittedAt <= top.submittedAt;
      SameInstantSameEvent(h, e, last);
      assert e.at > ZERO_TIME;
    }
  }

  lemma FetchedRequestIsLast(requested: Option<Time>, timeline: seq<TimelineItem>, h: seq<PrEvent>)
    requires Chronological(h) && ShowsRequests(timeline, h)
    requires IsLatestEvent(requested, timeline, IsRequest)
    ensures requested == LastRequest(h)
  {
    LastRequestGreatest(h);
    if LastRequest(h).Some? { assert Requested(LastRequest(h).value).Requested?; }
    if requested.Some? {
      var ev :| ev in timeline && IsRequest(ev) && ev.createdAt == requested.value;
      assert Requested(ev.createdAt) in h && Requested(ev.createdAt).Requested?;
    }
  }

  lemma FetchedWorkIsLast(started: Option<Time>, timeline: seq<TimelineItem>, h: seq<PrEvent>)
    requires Chronological(h) && ShowsWork(timeline, h)
    requires IsLatestEvent(started, timeline, IsWorkStart)
    ensures started == LastWork(h)
  {
    LastWorkGreatest(h);
    if LastWork(h).Some? { assert WorkStarted(LastWork(h).value).WorkStarted?; }
    if started.Some? {
      var ev :| ev in timeline && IsWorkStart(ev) && ev.createdAt == started.value;
      assert WorkStarted(ev.createdAt) in h && WorkStarted(ev.createdAt).WorkStarted?;
    }
  }

  // ----- the phase read off the last events -----

  lemma EarlierEvents(h: seq<PrEvent>)
    requires Chronological(h) && h != []
    ensures var n := |h| - 1;
      && Chronological(h[..n])
      && (LastRequest(h[..n]).Some? ==> LastRequest(h[..n]).value < h[n].at)
      && (LastWork(h[..n]).Some? ==> LastWork(h[..n]).value < h[n].at)
      && (LastReview(h[..n]).Some? ==> LastReview(h[..n]).value.submittedAt.value < h[n].at)
  {
    var n := |h| - 1;
    LastRequestGreatest(h[..n]);
    LastWorkGreatest(h[..n]);
    LastReviewGreatest(h[..n]);
    assert forall e :: e in h[..n] ==> e.at < h[n].at;
  }

  lemma {:induction false} PhaseOfRequested(h: seq<PrEvent>)
    requires Chronological(h)
    ensures InReviewers(h) <==> Phase(h) == Pending || Phase(h) == InProgress
    ensures InReviewers(h) ==> LastRequest(h).Some?
    ensures InReviewers(h) ==>
      (Phase(h) == InProgress <==> LastWork(h).Some? && LastWork(h).value > LastRequest(h).value)
  {
    if h != [] {
      PhaseOfRequested(h[..|h| - 1]);
      EarlierEvents(h);
    }
  }

  /** The latest review is not older than the latest request. */
  predicate ReviewAnswers(h: seq<PrEvent>) {
    LastReview(h).Some? && (LastRequest(h).None? || LastReview(h).value.submittedAt.value >= LastRequest(h).value)
  }

  lemma {:induction false} PhaseOfReviewed(h: seq<PrEvent>)
    requires Chronological(h)
    ensures ReviewAnswers(h) <==> IsDone(Phase(h))
    ensures IsDone(Phase(h)) ==>
      Phase(h) == if LastReview(h).value.state == CHANGES_REQUESTED then ReviewBlocked else ReviewCompleted
  {
    if h != [] {
      PhaseOfReviewed(h[..|h| - 1]);
      EarlierEvents(h);
    }
  }

  /** The data are what GitHub shows of the history; the timeline is read only when it can matter. */
  ghost predicate FullyShown(data: ReviewData, h: seq<PrEvent>) {
    && data.isCopilotInReviewers == InReviewers(h) && data.latestCopilotReview == LastReview(h)
    && (data.isCopilotInReviewers || data.latestCopilotReview.Some? ==>
          data.reviewRequestedAt == LastRequest(h) && data.workStartedAt == LastWork(h))
  }

  /**
   Whatever pages GitHub cuts its answers into and whatever order the entries come in, what is fetched shows
   the history.
   */
  lemma FetchedIsShown(h: seq<PrEvent>, data: ReviewData, users: seq<string>, first: Rate,
                       reviews: seq<Page<ReviewItem>>, timeline: seq<Page<TimelineItem>>)
    requires Chronological(h)
    requires Summarises(data, users, first, reviews, timeline)
    requires Shows(users, Seen(reviews), Seen(timeline), h)
    requires data.rateLimitRemaining >= LOW_BUDGET
    ensures FullyShown(data, h)
  {
    FetchedReviewIsLast(data.latestCopilotReview, Seen(reviews), h);
    if data.isCopilotInReviewers || data.latestCopilotReview.Some? {
      FetchedRequestIsLast(data.reviewRequestedAt, Seen(timeline), h);
      FetchedWorkIsLast(data.workStartedAt, Seen(timeline), h);
    }
  }

  /** So the status derived without a trigger entry is the phase of the review cycle. */
  lemma StatusIsPhase(h: seq<PrEvent>, data: ReviewData, users: seq<string>, first: Rate,
                      reviews: seq<Page<ReviewItem>>, timeline: seq<Page<TimelineItem>>)
    requires Chronological(h)
    requires Summarises(data, users, first, reviews, timeline)
    requires Shows(users, Seen(reviews), Seen(timeline), h)
    requires data.rateLimitRemaining >= LOW_BUDGET
    ensures DeriveStatus(data, None, None) == Phase(h)
  {
    FetchedIsShown(h, data, users, first, reviews, timeline);
    PhaseOfRequested(h);
    PhaseOfReviewed(h);
    LastReviewGreatest(h);
  }

  // ----- the trigger entry -----

  ghost predicate DistinctReviews(h: seq<PrEvent>) {
    forall i, j :: 0 <= i < j < |h| && h[i].Reviewed? && h[j].Reviewed? ==> h[i].id != h[j].id
  }

  /** A phase seen without the timeline: work in progress cannot be told from pending. */
  function WithoutTimeline(phase: ReviewStatus): ReviewStatus {
    if phase == InProgress then Pending else phase
  }

  /** The same when the timeline could not be read. */
  ghost predicate ShownWithoutTimeline(data: ReviewData, h: seq<PrEvent>) {
    && data.isCopilotInReviewers == InReviewers(h) && data.latestCopilotReview == LastReview(h)
    && data.reviewRequestedAt.None? && data.workStartedAt.None?
  }

  /** The entry's previous review ID tells a stale last review from an answering one. */
  predicate IDTells(h: seq<PrEvent>, prev: string) {
    LastReview(h).Some? ==> (IntText(LastReview(h).value.id) == prev <==> !ReviewAnswers(h))
  }

  /**
   With a trigger entry the status is the phase exactly if the entry's review ID tells the last review
   rightly; an entry without one is decided by the timeline, and by its own time only if the timeline
   shows no request.
   */
  lemma TriggerEntryAgrees(h: seq<PrEvent>, data: ReviewData, requestedAt: Time, prev: Option<string>)
    requires Chronological(h) && FullyShown(data, h)
    ensures DeriveStatus(data, Some(requestedAt), prev) == Phase(h) <==>
            if prev.Some? then IDTells(h, prev.value)
            else LastReview(h).Some? && LastRequest(h).None? ==> LastReview(h).value.submittedAt.value >= requestedAt
  {
    PhaseOfRequested(h);
    PhaseOfReviewed(h);
    LastReviewGreatest(h);
  }

  /**
   Without the timeline the same ID decides; without the ID the entry's time must part the reviews as the last
   request does.
   */
  lemma TriggerEntryWithoutTimeline(h: seq<PrEvent>, data: ReviewData, requestedAt: Time, prev: Option<string>)
    requires Chronological(h) && ShownWithoutTimeline(data, h)
    ensures DeriveStatus(data, Some(requestedAt), prev) == WithoutTimeline(Phase(h)) <==>
            if prev.Some? then IDTells(h, prev.value)
            else LastReview(h).Some? ==> (LastReview(h).value.submittedAt.value >= requestedAt <==> ReviewAnswers(h))
  {
    PhaseOfRequested(h);
    PhaseOfReviewed(h);
    LastReviewGreatest(h);
  }

  /**
   An entry recorded at a request holds the ID of the review before it. It tells rightly until Copilot
   has reviewed that request and is then asked again without a new entry: exactly then it is wrong.
   */
  lemma RecordedIDTells(before: seq<PrEvent>, request: PrEvent, after: seq<PrEvent>)
    requires request.Requested? && LastReview(before).Some?
    requires Chronological(before + [request] + after) && DistinctReviews(before + [request] + after)
    ensures var h := before + [request] + after;
      IDTells(h, IntText(LastReview(before).value.id)) <==> !(LastReview(after).Some? && !ReviewAnswers(h))
  {
    var h := before + [request] + after;
    LastReviewSplit(before + [request], after);
    LastRequestSplit(before + [request], after);
    LastReviewSplit(before, [request]);
    assert LastRequest(before + [request]) == Some(request.at);
    LastReviewGreatest(h);
    LastRequestGreatest(h);
    LastReviewIn(before);
    var prev := LastReview(before).value;
    if LastReview(after).Some? {
      LastReviewIn(after);
      var last := LastReview(after).value;
      assert Reviewed(prev.submittedAt.value, prev.id, prev.state) in before
          && Reviewed(last.submittedAt.value, last.id, last.state) in after;
      DifferentReviews(before, request, after, prev, last);
      if IntText(last.id) == IntText(prev.id) { IntTextInjective(last.id, prev.id); }
    } else {
      var i :| 0 <= i < |before| && before[i] == Reviewed(prev.submittedAt.value, prev.id, prev.state);
      assert h[i] == before[i] && h[|before|] == request;
    }
  }

  lemma DifferentReviews(before: seq<PrEvent>, request: PrEvent, after: seq<PrEvent>, a: PullRequestReview,
          b: PullRequestReview)
    requires DistinctReviews(before + [request] + after) && a.submittedAt.Some? && b.submittedAt.Some?
    requires Reviewed(a.submittedAt.value, a.id, a.state) in before
        && Reviewed(b.submittedAt.value, b.id, b.state) in after
    ensures a.id != b.id
  {
    var h := before + [request] + after;
    var i :| 0 <= i < |before| && before[i] == Reviewed(a.submittedAt.value, a.id, a.state);
    var j :| 0 <= j < |after| && after[j] == Reviewed(b.submittedAt.value, b.id, b.state);
    assert h[i] == before[i] && h[|before| + 1 + j] == after[j];
  }

  lemma {:induction false} LastReviewIn(h: seq<PrEvent>)
    ensures LastReview(h).Some? ==>
      var r := LastReview(h).value; r.submittedAt.Some? && Reviewed(r.submittedAt.value, r.id, r.state) in h
  {
    if h != [] { LastReviewIn(h[..|h| - 1]); }
  }

  lemma {:induction false} LastReviewSplit(a: seq<PrEvent>, b: seq<PrEvent>)
    ensures LastReview(a + b) == if LastReview(b).Some? then LastReview(b) else LastReview(a)
  {
    if b == [] {
      assert a + b == a;
    } else {
      assert (a + b)[..|a + b| - 1] == a + b[..|b| - 1];
      LastReviewSplit(a, b[..|b| - 1]);
    }
  }

  lemma {:induction false} LastRequestSplit(a: seq<PrEvent>, b: seq<PrEvent>)
    ensures LastRequest(a + b) == if LastRequest(b).Some? then LastRequest(b) else LastRequest(a)
  {
    if b == [] {
      assert a + b == a;
    } else {
      assert (a + b)[..|a + b| - 1] == a + b[..|b| - 1];
      LastRequestSplit(a, b[..|b| - 1]);
    }
  }

  /**
   The failing history: review 7, a request recorded with it, review 8, and a request on GitHub, which
   leaves no entry. Copilot is pending, but the old entry makes review 8 count as the answer.
   */
  lemma UnrecordedRequestCounterexample(t: Time, state: string, requestedAt: Time)
    requires t > ZERO_TIME && state != CHANGES_REQUESTED
    ensures var h := [Reviewed(t, 7, state), Requested(t + 1), Reviewed(t + 2, 8, state), Requested(t + 3)];
      var data := ReviewData(InReviewers(h), LastReview(h), 5000, ZERO_TIME, LastRequest(h), LastWork(h), false);
      && Chronological(h) && FullyShown(data, h)
      && Phase(h) == Pending && DeriveStatus(data, Some(requestedAt), Some(IntText(7))) == ReviewCompleted
  {
    var h := [Reviewed(t, 7, state), Requested(t + 1), Reviewed(t + 2, 8, state), Requested(t + 3)];
    var h3 := [Reviewed(t, 7, state), Requested(t + 1), Reviewed(t + 2, 8, state)];
    assert h[..3] == h3;
    assert LastReview(h) == LastReview(h3) == Some(PullRequestReview(8, state, Some(t + 2)));
    if IntText(8) == IntText(7) { IntTextInjective(8, 7); }
  }
}
