/** request_copilot_review (internal/tools/request.go): its guards and the trigger row it records. */
module Request {
  import opened Base
  import opened Domain
  import opened Store
  import opened Database
  import opened Review

  const MANUAL := "MANUAL"

  // ----- the row to record -----

  /** The submission time of the review that exists when the request is made. */
  function Submitted(data: ReviewData): Option<Time> {
    if data.latestCopilotReview.None? || SubmittedOrZero(data.latestCopilotReview.value) == ZERO_TIME then None
    else Some(SubmittedOrZero(data.latestCopilotReview.value))
  }

  /** One second after that review is later than every request on record. */
  predicate RecordsReview(ts: seq<Trigger>, pr: PullRequest, data: ReviewData)
    requires TriggerIDs(ts)
  {
    Submitted(data).Some? &&
    (LatestTrigger(ts, pr).None? || Submitted(data).value + SECOND > LatestTrigger(ts, pr).value.requestedAt)
  }

  function AfterRequest(ts: seq<Trigger>, pr: PullRequest, data: ReviewData, now: Time): seq<Trigger>
    requires TriggerIDs(ts)
  {
    if RecordsReview(ts, pr, data) then
      Inserted(ts, pr, MANUAL, Submitted(data).value + SECOND, Some(IntText(data.latestCopilotReview.value.id)))
    else Inserted(ts, pr, MANUAL, now, None)
  }

  // ----- the handler -----

  datatype Outcome =
    | InputRefused | StoreUnreadable | GitHubFailed | NotRecorded
    | RefusedPending | RefusedReviewer
    | Accepted

  /** What the outside world answers; None is an error. */
  datatype Answers = Answers(
    pendingRead: bool, data: Option<ReviewData>, requested: bool, latestRead: bool, io: bool, now: Time)

  predicate ValidRequest(pr: PullRequest) {
    pr.owner != "" && pr.repo != "" && pr.number > 0
  }

  /** The reasons to refuse or fail before the request reaches GitHub, in their order. */
  function Guard(ts: seq<Trigger>, pr: PullRequest, env: Answers): Option<Outcome> {
    if !ValidRequest(pr) then Some(InputRefused)
    else if !env.pendingRead then Some(StoreUnreadable)
    else if HasPending(ts, pr) then Some(RefusedPending)
    else if env.data.None? then Some(GitHubFailed)
    else if env.data.value.isCopilotInReviewers then Some(RefusedReviewer)
    else if !env.requested then Some(GitHubFailed)
    else None
  }

  /** A row is recorded exactly when the request is accepted, and it is open. */
  method RequestReview(db: DB, pr: PullRequest, env: Answers) returns (r: Outcome)
    requires TriggerIDs(db.triggers)
    modifies db`triggers
    ensures Guard(old(db.triggers), pr, env).Some? ==> r == Guard(old(db.triggers), pr, env).value
    ensures r == Accepted ==> ValidRequest(pr) && !HasPending(old(db.triggers), pr) && env.data.Some? && env.requested
    ensures db.triggers ==
            if r == Accepted then AfterRequest(old(db.triggers), pr, env.data.value, env.now) else old(db.triggers)
    ensures r == Accepted <==> Succeeds(old(db.triggers), pr, env)
    ensures db.triggers == Apply(old(db.triggers), Request(pr, env))
    ensures
      var valid := pr.owner != "" && pr.repo != "" && pr.number > 0;
      var pending := exists t :: t in old(db.triggers) && t.pr == pr && t.completedAt.None?;
      && (r == InputRefused <==> !valid)
      && (r == RefusedPending <==> valid && env.pendingRead && pending)
      && (r == RefusedReviewer <==>
          valid && env.pendingRead && !pending && env.data.Some? && env.data.value.isCopilotInReviewers)
      && (r == GitHubFailed <==>
          valid && env.pendingRead && !pending &&
          (env.data.None? || (!env.data.value.isCopilotInReviewers && !env.requested)))
      && (valid && !env.pendingRead ==> r == StoreUnreadable)
    ensures r == Accepted ==> RowFor(old(db.triggers), db.triggers, pr, env)
  {
    if Guard(db.triggers, pr, env).None? { AcceptedRow(db.triggers, pr, env); }
    if !ValidRequest(pr) { return InputRefused; }
    if !env.pendingRead { return StoreUnreadable; }
    if HasPending(db.triggers, pr) { return RefusedPending; }
    if env.data.None? { return GitHubFailed; }
    var data := env.data.value;
    if data.isCopilotInReviewers { return RefusedReviewer; }
    if !env.requested { return GitHubFailed; }
    var id: Option<int>;
    if data.latestCopilotReview.Some? && data.latestCopilotReview.value.submittedAt.Some? {
      var sat := data.latestCopilotReview.value.submittedAt.value;
      if sat != ZERO_TIME {
        var candidate := sat + SECOND;
        var latest := db.GetLatest(pr, env.latestRead);
        if latest.None? { return StoreUnreadable; }
        if latest.value.None? || candidate > latest.value.value.requestedAt {
          id := db.InsertWithPrevReviewID(pr, MANUAL, candidate, IntText(data.latestCopilotReview.value.id), env.io);
        } else {
          id := db.Insert(pr, MANUAL, env.now, env.io);
        }
      } else {
        id := db.Insert(pr, MANUAL, env.now, env.io);
      }
    } else {
      id := db.Insert(pr, MANUAL, env.now, env.io);
    }
    return if id.None? then NotRecorded else Accepted;
  }

  /**
   One open MANUAL row is added for the pull request. It holds the ID of the review that is there, and is
   dated a second after it, exactly if that is later than every request of the pull request on record; else
   it is dated now.
   */
  ghost predicate RowFor(ts: seq<Trigger>, ts2: seq<Trigger>, pr: PullRequest, env: Answers) {
    && env.data.Some? && |ts2| == |ts| + 1 && ts2[..|ts|] == ts
    && var row := ts2[|ts|];
       && row.pr == pr && row.kind == "MANUAL" && row.completedAt.None?
       && match env.data.value.latestCopilotReview
          case None => row.prevReviewID.None? && row.requestedAt == ToSecond(env.now)
          case Some(review) =>
            var sat := if review.submittedAt.Some? then review.submittedAt.value else ZERO_TIME;
            if sat != ZERO_TIME && forall t :: t in ts && t.pr == pr ==> sat + SECOND > t.requestedAt then
              row.prevReviewID == Some(IntText(review.id)) && row.requestedAt == ToSecond(sat + SECOND)
            else
              row.prevReviewID.None? && row.requestedAt == ToSecond(env.now)
  }

  lemma AcceptedRow(ts: seq<Trigger>, pr: PullRequest, env: Answers)
    requires TriggerIDs(ts) && env.data.Some?
    ensures RowFor(ts, AfterRequest(ts, pr, env.data.value, env.now), pr, env)
  {
    var latest := LatestTrigger(ts, pr);
    if latest.Some? && Submitted(env.data.value).Some?
        && Submitted(env.data.value).value + SECOND > latest.value.requestedAt {
      forall t | t in ts && t.pr == pr ensures Submitted(env.data.value).value + SECOND > t.requestedAt {
        assert t == latest.value || TriggerNewer(latest.value, t);
      }
    }
  }

  // ----- what the row does to the review that was there -----

  lemma InsertedFacts(ts: seq<Trigger>, pr: PullRequest, kind: string, requestedAt: Time, prev: Option<string>)
    requires TriggerIDs(ts)
    ensures var ts2 := Inserted(ts, pr, kind, requestedAt, prev);
      && TriggerIDs(ts2) && |ts2| == |ts| + 1 && ts2[..|ts|] == ts
      && forall t :: t in ts2 <==> t in ts || t == ts2[|ts|]
  {
    var ts2 := Inserted(ts, pr, kind, requestedAt, prev);
    assert ts2 == ts + [ts2[|ts|]];
  }

  /** Rows are numbered, and their request times are whole seconds. */
  ghost predicate Table(ts: seq<Trigger>) {
    TriggerIDs(ts) && forall i :: 0 <= i < |ts| ==> ToSecond(ts[i].requestedAt) == ts[i].requestedAt
  }

  lemma InsertedIsLatest(ts: seq<Trigger>, pr: PullRequest, kind: string, requestedAt: Time, prev: Option<string>)
    requires Table(ts)
    ensures var ts2 := Inserted(ts, pr, kind, requestedAt, prev);
      && Table(ts2)
      && (LatestTrigger(ts2, pr) == Some(ts2[|ts|]) <==>
          LatestTrigger(ts, pr).None? || ToSecond(requestedAt) >= LatestTrigger(ts, pr).value.requestedAt)
  {
    var ts2, latest := Inserted(ts, pr, kind, requestedAt, prev), LatestTrigger(ts, pr);
    InsertedFacts(ts, pr, kind, requestedAt, prev);
    assert ts2[..|ts2| - 1] == ts;
    if latest.Some? {
      assert latest.value.id <= |ts|;
      assert TriggerNewer(ts2[|ts|], latest.value) <==> ToSecond(requestedAt) >= latest.value.requestedAt;
    }
  }

  lemma RecordedRowIsLatest(ts: seq<Trigger>, pr: PullRequest, candidate: Time, prev: Option<string>)
    requires Table(ts) && (LatestTrigger(ts, pr).Some? ==> candidate > LatestTrigger(ts, pr).value.requestedAt)
    ensures var ts2 := Inserted(ts, pr, MANUAL, candidate, prev);
      Table(ts2) && LatestTrigger(ts2, pr) == Some(ts2[|ts|])
  {
    InsertedIsLatest(ts, pr, MANUAL, candidate, prev);
    var latest := LatestTrigger(ts, pr);
    if latest.Some? { ToSecondMonotone(latest.value.requestedAt, candidate); }
  }

  /**
   The new row is the one every later status check reads, exactly if it records the review or is not
   dated before the last request.
   */
  lemma NewRowIsLatest(ts: seq<Trigger>, pr: PullRequest, data: ReviewData, now: Time)
    requires Table(ts)
    ensures var ts2 := AfterRequest(ts, pr, data, now);
      && Table(ts2) && |ts2| == |ts| + 1 && ts2[..|ts|] == ts
      && (LatestTrigger(ts2, pr) == Some(ts2[|ts|]) <==>
          || RecordsReview(ts, pr, data) || LatestTrigger(ts, pr).None?
          || ToSecond(now) >= LatestTrigger(ts, pr).value.requestedAt)
  {
    if RecordsReview(ts, pr, data) {
      RecordedRowIsLatest(ts, pr, Submitted(data).value + SECOND, Some(IntText(data.latestCopilotReview.value.id)));
    } else {
      InsertedIsLatest(ts, pr, MANUAL, now, None);
    }
  }

  /** The status every later check derives: from what GitHub shows then and the newest row. */
  function StatusRead(ts: seq<Trigger>, pr: PullRequest, data: ReviewData): ReviewStatus
    requires TriggerIDs(ts)
  {
    var latest := LatestTrigger(ts, pr);
    if latest.None? then DeriveStatus(data, None, None)
    else DeriveStatus(data, Some(latest.value.requestedAt), latest.value.prevReviewID)
  }

  /**
   A request that recorded the existing review makes exactly that review stale: whatever GitHub's
   timeline says, a later check reports a finished review if and only if it sees one with another ID.
   */
  lemma RecordedReviewIsStale(ts: seq<Trigger>, pr: PullRequest, data: ReviewData, now: Time, later: ReviewData)
    requires Table(ts) && RecordsReview(ts, pr, data)
    ensures Table(AfterRequest(ts, pr, data, now))
    ensures IsDone(StatusRead(AfterRequest(ts, pr, data, now), pr, later)) <==>
            later.latestCopilotReview.Some? && later.latestCopilotReview.value.id != data.latestCopilotReview.value.id
  {
    NewRowIsLatest(ts, pr, data, now);
    if later.latestCopilotReview.Some?
        && IntText(later.latestCopilotReview.value.id) == IntText(data.latestCopilotReview.value.id) {
      IntTextInjective(later.latestCopilotReview.value.id, data.latestCopilotReview.value.id);
    }
  }

  /** The last request on record is dated after the clock: it came within a second of the review it recorded. */
  predicate DatedAhead(ts: seq<Trigger>, pr: PullRequest, now: Time)
    requires TriggerIDs(ts)
  {
    LatestTrigger(ts, pr).Some? && LatestTrigger(ts, pr).value.requestedAt > ToSecond(now)
  }

  /**
   When the request is recorded at the current time instead, later checks read the new row, or the last
   one if that is dated ahead. An older row with a review ID makes the review that was there count as
   finished exactly if it recorded another one; otherwise that review counts as finished exactly if
   GitHub's timeline dates the last request no later than it, so never while the timeline is absent or
   not older than the row that is read.
   */
  lemma FallbackReviewIsStale(ts: seq<Trigger>, pr: PullRequest, data: ReviewData, now: Time, later: ReviewData)
    requires Table(ts) && data.latestCopilotReview.Some? && !RecordsReview(ts, pr, data)
    requires later.latestCopilotReview == data.latestCopilotReview
    ensures var ts2 := AfterRequest(ts, pr, data, now);
      var read := if DatedAhead(ts, pr, now) then LatestTrigger(ts, pr) else Some(ts2[|ts|]);
      && Table(ts2) && LatestTrigger(ts2, pr) == read
      && (IsDone(StatusRead(ts2, pr, later)) <==>
            if read.value.prevReviewID.Some? then
              read.value.prevReviewID.value != IntText(data.latestCopilotReview.value.id)
            else
              && Submitted(data).Some? && later.reviewRequestedAt.Some?
              && later.reviewRequestedAt.value <= Submitted(data).value)
      && (read.value.prevReviewID.None? &&
          (later.reviewRequestedAt.None? || later.reviewRequestedAt.value >= read.value.requestedAt) ==>
            !IsDone(StatusRead(ts2, pr, later)))
  {
    NewRowIsLatest(ts, pr, data, now);
    if DatedAhead(ts, pr, now) { AheadRowStays(ts, pr, now); }
  }

  lemma AheadRowStays(ts: seq<Trigger>, pr: PullRequest, now: Time)
    requires Table(ts) && DatedAhead(ts, pr, now)
    ensures var ts2 := Inserted(ts, pr, MANUAL, now, None);
      Table(ts2) && LatestTrigger(ts2, pr) == LatestTrigger(ts, pr)
  {
    var ts2 := Inserted(ts, pr, MANUAL, now, None);
    InsertedFacts(ts, pr, MANUAL, now, None);
    LatestTriggerUnique(ts2, pr, LatestTrigger(ts, pr).value);
  }

  // ----- runs of requests and completions -----

  /** Completing covers polls, waits and cancellations: all of them run UpdateCompletedAt on some row. */
  datatype Op =
    | Request(pr: PullRequest, env: Answers)
    | Complete(id: int, now: Time)

  function Apply(ts: seq<Trigger>, op: Op): (r: seq<Trigger>)
    requires TriggerIDs(ts)
    ensures TriggerIDs(r)
  {
    match op
    case Request(pr, env) => if Succeeds(ts, pr, env) then AfterRequest(ts, pr, env.data.value, env.now) else ts
    case Complete(id, now) => WithCompleted(ts, id, now)
  }

  /** The run in which RequestReview records a row. */
  predicate Succeeds(ts: seq<Trigger>, pr: PullRequest, env: Answers) {
    Guard(ts, pr, env).None? && env.io && (Submitted(env.data.value).Some? ==> env.latestRead)
  }

  function RunOps(ts: seq<Trigger>, ops: seq<Op>): (r: seq<Trigger>)
    requires TriggerIDs(ts)
    ensures TriggerIDs(r)
  {
    if ops == [] then ts else Apply(RunOps(ts, ops[..|ops| - 1]), ops[|ops| - 1])
  }

  /** Only the last row of a pull request can be open. */
  ghost predicate OpenIsLast(ts: seq<Trigger>) {
    forall i, j :: 0 <= i < j < |ts| && ts[i].pr == ts[j].pr ==> ts[i].completedAt.Some?
  }

  lemma AppendKeepsOpenIsLast(ts: seq<Trigger>, ts2: seq<Trigger>)
    requires OpenIsLast(ts) && |ts2| == |ts| + 1 && ts2[..|ts|] == ts && !HasPending(ts, ts2[|ts|].pr)
    ensures OpenIsLast(ts2)
  {
    assert forall t :: t in ts ==> !Open(t, ts2[|ts|].pr);
    assert forall i :: 0 <= i < |ts| ==> ts2[i] == ts[i] && ts[i] in ts;
  }

  lemma ApplyKeepsOpenIsLast(ts: seq<Trigger>, op: Op)
    requires Table(ts) && OpenIsLast(ts)
    ensures Table(Apply(ts, op)) && OpenIsLast(Apply(ts, op))
  {
    if op.Request? && Succeeds(ts, op.pr, op.env) {
      NewRowIsLatest(ts, op.pr, op.env.data.value, op.env.now);
      AppendKeepsOpenIsLast(ts, Apply(ts, op));
    }
  }

  lemma {:induction false} RunKeepsOpenIsLast(ops: seq<Op>)
    ensures Table(RunOps([], ops)) && OpenIsLast(RunOps([], ops))
  {
    if ops != [] {
      RunKeepsOpenIsLast(ops[..|ops| - 1]);
      ApplyKeepsOpenIsLast(RunOps([], ops[..|ops| - 1]), ops[|ops| - 1]);
    }
  }

  /** In every run a pull request has at most one open row, and completing it admits the next request. */
  lemma AtMostOneOpen(ops: seq<Op>, pr: PullRequest, i: nat, j: nat, now: Time)
    requires var ts := RunOps([], ops); i < |ts| && j < |ts| && Open(ts[i], pr) && Open(ts[j], pr)
    ensures i == j
    ensures !HasPending(WithCompleted(RunOps([], ops), RunOps([], ops)[i].id, now), pr)
  {
    RunKeepsOpenIsLast(ops);
    var ts := RunOps([], ops);
    var ts2 := WithCompleted(ts, ts[i].id, now);
    forall t | t in ts2 ensures !Open(t, pr) {
      var k :| 0 <= k < |ts2| && ts2[k] == t;
      assert ts[k].pr == pr ==> k == i || ts[k].completedAt.Some?;
    }
  }

  // ----- is the open row the one that is read? -----

  predicate Aged(data: ReviewData, now: Time) {
    Submitted(data).Some? ==> Submitted(data).value + SECOND <= now
  }

  /** The clock of a request never runs back, and the review it finds is at least a second old. */
  ghost predicate Steady(ops: seq<Op>) {
    && (forall i :: 0 <= i < |ops| && ops[i].Request? && ops[i].env.data.Some? ==>
          Aged(ops[i].env.data.value, ops[i].env.now))
    && (forall i, j :: 0 <= i < j < |ops| && ops[i].Request? && ops[j].Request? ==> ops[i].env.now <= ops[j].env.now)
  }

  ghost predicate RequestedBy(ts: seq<Trigger>, now: Time) {
    forall i :: 0 <= i < |ts| ==> ts[i].requestedAt <= ToSecond(now)
  }

  ghost predicate InRequestOrder(ts: seq<Trigger>) {
    forall i, j :: 0 <= i < j < |ts| && ts[i].pr == ts[j].pr ==> ts[i].requestedAt <= ts[j].requestedAt
  }

  lemma InsertKeepsOrder(ts: seq<Trigger>, pr: PullRequest, requestedAt: Time, prev: Option<string>, now: Time)
    requires Table(ts) && InRequestOrder(ts) && RequestedBy(ts, now) && requestedAt <= now
    requires forall t :: t in ts && t.pr == pr ==>
      t.requestedAt <= requestedAt || ToSecond(requestedAt) == ToSecond(now)
    ensures InRequestOrder(Inserted(ts, pr, MANUAL, requestedAt, prev))
        && RequestedBy(Inserted(ts, pr, MANUAL, requestedAt, prev), now)
  {
    ToSecondMonotone(requestedAt, now);
    forall i | 0 <= i < |ts| && ts[i].pr == pr ensures ts[i].requestedAt <= ToSecond(requestedAt) {
      assert ts[i] in ts;
      if ts[i].requestedAt <= requestedAt { ToSecondMonotone(ts[i].requestedAt, requestedAt); }
    }
  }

  lemma RequestKeepsOrder(ts: seq<Trigger>, pr: PullRequest, data: ReviewData, now: Time)
    requires Table(ts) && InRequestOrder(ts) && RequestedBy(ts, now)
    requires Submitted(data).Some? ==> Submitted(data).value + SECOND <= now
    ensures InRequestOrder(AfterRequest(ts, pr, data, now)) && RequestedBy(AfterRequest(ts, pr, data, now), now)
  {
    if RecordsReview(ts, pr, data) {
      InsertKeepsOrder(ts, pr, Submitted(data).value + SECOND, Some(IntText(data.latestCopilotReview.value.id)), now);
    } else {
      InsertKeepsOrder(ts, pr, now, None, now);
    }
  }

  lemma {:induction false} SteadyRun(ops: seq<Op>, now: Time)
    requires Steady(ops) && forall i :: 0 <= i < |ops| && ops[i].Request? ==> ops[i].env.now <= now
    ensures InRequestOrder(RunOps([], ops)) && RequestedBy(RunOps([], ops), now)
  {
    if ops != [] {
      var before, op := ops[..|ops| - 1], ops[|ops| - 1];
      RunKeepsOpenIsLast(before);
      var at := if op.Request? then op.env.now else now;
      SteadyRun(before, at);
      ToSecondMonotone(at, now);
      if op.Request? && Succeeds(RunOps([], before), op.pr, op.env) {
        RequestKeepsOrder(RunOps([], before), op.pr, op.env.data.value, at);
      }
    }
  }

  lemma LastOpenRow(ts: seq<Trigger>, pr: PullRequest, i: nat)
    requires Table(ts) && OpenIsLast(ts) && i < |ts| && Open(ts[i], pr)
    requires forall t :: t in ts && t.pr == pr ==> t.requestedAt <= ts[i].requestedAt
    ensures LatestTrigger(ts, pr) == Some(ts[i])
  {
    assert forall k :: i < k < |ts| ==> ts[k].pr != pr;
    forall t | t in ts && t.pr == pr && t != ts[i] ensures TriggerNewer(ts[i], t) {
      var k :| 0 <= k < |ts| && ts[k] == t;
    }
    LatestTriggerUnique(ts, pr, ts[i]);
  }

  /** In every run an open row is the one GetLatest returns exactly if no row of its pull request is dated later. */
  lemma OpenRowIsRead(ops: seq<Op>, pr: PullRequest, i: nat)
    requires i < |RunOps([], ops)| && Open(RunOps([], ops)[i], pr)
    ensures LatestTrigger(RunOps([], ops), pr) == Some(RunOps([], ops)[i]) <==>
            forall t :: t in RunOps([], ops) && t.pr == pr ==> t.requestedAt <= RunOps([], ops)[i].requestedAt
  {
    var ts := RunOps([], ops);
    RunKeepsOpenIsLast(ops);
    if forall t :: t in ts && t.pr == pr ==> t.requestedAt <= ts[i].requestedAt { LastOpenRow(ts, pr, i); }
  }

  lemma OpenRowIsNewest(ts: seq<Trigger>, pr: PullRequest, i: nat)
    requires OpenIsLast(ts) && InRequestOrder(ts) && i < |ts| && Open(ts[i], pr)
    ensures forall t :: t in ts && t.pr == pr ==> t.requestedAt <= ts[i].requestedAt
  {
    assert forall k :: i < k < |ts| ==> ts[k].pr != pr;
    forall t | t in ts && t.pr == pr ensures t.requestedAt <= ts[i].requestedAt {
      var k :| 0 <= k < |ts| && ts[k] == t;
    }
  }

  /** So in every steady run: completing the row a poll read then admits the next request. */
  lemma SteadyRunsReadTheOpenRow(ops: seq<Op>, pr: PullRequest, i: nat, now: Time)
    requires Steady(ops) && i < |RunOps([], ops)| && Open(RunOps([], ops)[i], pr)
    ensures LatestTrigger(RunOps([], ops), pr) == Some(RunOps([], ops)[i])
    ensures !HasPending(WithCompleted(RunOps([], ops), LatestTrigger(RunOps([], ops), pr).value.id, now), pr)
  {
    var late := LastClock(ops);
    SteadyRun(ops, late);
    RunKeepsOpenIsLast(ops);
    OpenRowIsNewest(RunOps([], ops), pr, i);
    LastOpenRow(RunOps([], ops), pr, i);
    AtMostOneOpen(ops, pr, i, i, now);
  }

  /** A time no request of the run is later than. */
  lemma {:induction false} LastClock(ops: seq<Op>) returns (t: Time)
    ensures forall i :: 0 <= i < |ops| && ops[i].Request? ==> ops[i].env.now <= t
  {
    t := 0;
    if ops != [] {
      t := LastClock(ops[..|ops| - 1]);
      var op := ops[|ops| - 1];
      if op.Request? && op.env.now > t { t := op.env.now; }
    }
  }

  const REVIEWED := ReviewData(false, Some(PullRequestReview(7, "COMMENTED", Some(100 * SECOND))), 5000, 0, None,
      None, false)

  lemma RunThree(a: Op, b: Op, c: Op)
    ensures RunOps([], [a, b, c]) == Apply(Apply(Apply([], a), b), c)
  {
    assert [a, b, c][..2] == [a, b] && [a, b][..1] == [a] && [a][..0] == [];
    assert RunOps([], [a, b]) == Apply(RunOps([], [a]), b);
  }

  function Ask(pr: PullRequest, t: Time): Op {
    Request(pr, Answers(true, Some(REVIEWED), true, true, true, t))
  }

  /** The row of a request made within a second of the review: dated a second after the review. */
  function Early(pr: PullRequest): Trigger {
    Trigger(1, pr, MANUAL, 101 * SECOND, None, Some(IntText(7)))
  }

  lemma FirstAsk(pr: PullRequest)
    requires ValidRequest(pr)
    ensures Apply([], Ask(pr, 100 * SECOND + 200)) == [Early(pr)]
  {
  }

  lemma SecondAsk(pr: PullRequest, done: Trigger)
    requires ValidRequest(pr) && done == Early(pr).(completedAt := Some(100 * SECOND))
    ensures TriggerIDs([done])
    ensures Apply([done], Ask(pr, 100 * SECOND + 700)) == [done, Trigger(2, pr, MANUAL, 100 * SECOND, None, None)]
  {
    LatestTriggerUnique([done], pr, done);
  }

  /**
   Not in every run: a request within a second of the review is dated in the future, so the next one,
   after a cancellation, is dated before it. GetLatest then returns the finished row, and completing
   the row a poll read leaves the open one pending.
   */
  lemma UnsteadyCounterexample(pr: PullRequest)
    requires ValidRequest(pr)
    ensures var ops := [Ask(pr, 100 * SECOND + 200), Complete(1, 100 * SECOND + 500), Ask(pr, 100 * SECOND + 700)];
      var ts := RunOps([], ops);
      && |ts| == 2 && Open(ts[1], pr) && LatestTrigger(ts, pr) == Some(ts[0]) && ts[0].completedAt.Some?
      && HasPending(WithCompleted(ts, LatestTrigger(ts, pr).value.id, 101 * SECOND), pr)
  {
    var done := Early(pr).(completedAt := Some(100 * SECOND));
    var row2 := Trigger(2, pr, MANUAL, 100 * SECOND, None, None);
    RunThree(Ask(pr, 100 * SECOND + 200), Complete(1, 100 * SECOND + 500), Ask(pr, 100 * SECOND + 700));
    FirstAsk(pr);
    assert WithCompleted([Early(pr)], 1, 100 * SECOND + 500) == [done];
    SecondAsk(pr, done);
    LatestTriggerUnique([done, row2], pr, done);
    var ts3 := WithCompleted([done, row2], 1, 101 * SECOND);
    assert ts3[1] == row2 && row2 in ts3;
  }
}
