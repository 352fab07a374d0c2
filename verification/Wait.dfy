/** wait_for_copilot_review (internal/tools/wait.go): the bounded loop of polls. */
module Wait {
  import opened Base
  import opened Domain
  import opened Store
  import opened Review

  datatype WaitInput = WaitInput(pr: PullRequest, pollIntervalSeconds: int, maxPolls: int)

  /** Defaults for values that are not positive. */
  function Normalised(input: WaitInput): WaitInput {
    input.(pollIntervalSeconds := if input.pollIntervalSeconds <= 0 then 120 else input.pollIntervalSeconds,
           maxPolls := if input.maxPolls <= 0 then 5 else input.maxPolls)
  }

  const MAX_TOTAL_WAIT := 1800

  predicate ValidWait(input: WaitInput) {
    && input.pr.owner != "" && input.pr.repo != "" && input.pr.number > 0
    && Normalised(input).pollIntervalSeconds <= 3600 && Normalised(input).maxPolls <= 100
    && Normalised(input).pollIntervalSeconds * (Normalised(input).maxPolls - 1) <= MAX_TOTAL_WAIT
  }

  // ----- what one poll meets -----

  datatype Answer<+T> = Good(value: T) | Canceled | Broken

  /** `stopped`: the context is done before the poll, while the loop waits. */
  datatype PollEnv = PollEnv(stopped: bool, data: Answer<ReviewData>, entry: Answer<Option<Trigger>>, marked: bool)

  /** A poll that brought a status. */
  datatype Seen = Seen(data: ReviewData, entry: Option<Trigger>, status: ReviewStatus)

  datatype PollKind =
    | Quiet(seen: Seen)      // not finished: the loop goes on
    | Finished(seen: Seen)
    | LimitLow(seen: Seen)
    | Stopped                // cancelled
    | Failing                // an error is returned

  function SeenWith(data: ReviewData, entry: Option<Trigger>): Seen {
    Seen(data, entry,
         DeriveStatus(data, if entry.Some? then Some(entry.value.requestedAt) else None,
                      if entry.Some? then entry.value.prevReviewID else None))
  }

  /** The row a finished poll completes. */
  function ToComplete(seen: Seen): Option<int> {
    if IsDone(seen.status) && seen.entry.Some? && seen.entry.value.completedAt.None?
    then Some(seen.entry.value.id)
    else None
  }

  function KindOf(env: PollEnv, first: bool): PollKind {
    if (!first && env.stopped) || env.data.Canceled? then Stopped
    else if env.data.Broken? then Failing
    else if env.entry.Canceled? then Stopped
    else if env.entry.Broken? then Failing
    else
      var seen := SeenWith(env.data.value, env.entry.value);
      if env.data.value.rateLimitRemaining < LOW_BUDGET then LimitLow(seen)
      else if !IsDone(seen.status) then Quiet(seen)
      else if ToComplete(seen).Some? && !env.marked then Failing
      else Finished(seen)
  }

  /** The first poll that is not quiet, or the number of polls. */
  function Decisive(polls: seq<PollEnv>): (k: nat)
    ensures k <= |polls|
    ensures forall i :: 0 <= i < k ==> KindOf(polls[i], i == 0).Quiet?
    ensures k < |polls| ==> !KindOf(polls[k], k == 0).Quiet?
  {
    if polls == [] then 0
    else
      var n := |polls| - 1;
      var k := Decisive(polls[..n]);
      if k < n || !KindOf(polls[n], n == 0).Quiet? then k else n + 1
  }

  // ----- what the caller gets -----

  datatype WaitResult =
    | Refused | Errored
    | Interrupted(last: Option<Seen>, pollsDone: nat)
    | Throttled(seen: Seen, pollsDone: nat)
    | Done(seen: Seen, pollsDone: nat)
    | TimedOut(seen: Seen, pollsDone: nat)

  /** What the last quiet poll before this one saw. */
  function LastSeen(polls: seq<PollEnv>, k: nat): Option<Seen>
    requires k <= Decisive(polls)
  {
    if k == 0 then None else Some(KindOf(polls[k - 1], k == 1).seen)
  }

  /** The result is told by the decisive poll alone. */
  function Told(polls: seq<PollEnv>, stoppedAtEnd: bool): WaitResult
    requires |polls| > 0
  {
    var k := Decisive(polls);
    if k == |polls| then
      if stoppedAtEnd then Interrupted(LastSeen(polls, k), k) else TimedOut(LastSeen(polls, k).value, k)
    else
      match KindOf(polls[k], k == 0)
      case Finished(seen) => Done(seen, k + 1)
      case LimitLow(seen) => Throttled(seen, k + 1)
      case Stopped => Interrupted(LastSeen(polls, k), k)
      case Failing => Errored
  }

  /**
   `polls` is what the polls would meet. At most one row is completed: the open row of the poll that
   saw the review finished. The loop waits between polls only, so no longer than the ceiling.
   */
  method WaitForReview(input: WaitInput, client: bool, polls: seq<PollEnv>, stoppedAtEnd: bool)
    returns (r: WaitResult, completed: Option<int>, waited: nat)
    requires |polls| == if Normalised(input).maxPolls > 0 then Normalised(input).maxPolls else 0
    ensures r == if !ValidWait(input) then Refused else if !client then Errored else Told(polls, stoppedAtEnd)
    ensures forall i :: completed == Some(i) <==>
      r.Done? && r.seen.entry.Some? && r.seen.entry.value.completedAt.None? && r.seen.entry.value.id == i
    ensures r.Done? ==> r.seen.status == ReviewCompleted || r.seen.status == ReviewBlocked
    ensures waited <= MAX_TOTAL_WAIT
  {
    completed, waited := None, 0;
    if !ValidWait(input) { return Refused, None, 0; }
    var params := Normalised(input);
    if !client { return Errored, None, 0; }
    var last: Option<Seen> := None;
    for poll := 0 to params.maxPolls
      invariant forall i :: 0 <= i < poll ==> KindOf(polls[i], i == 0).Quiet?
      invariant last == if poll == 0 then None else Some(KindOf(polls[poll - 1], poll == 1).seen)
      invariant completed.None?
      invariant waited == if poll == 0 then 0 else params.pollIntervalSeconds * (poll - 1)
    {
      var env := polls[poll];
      QuietSoFar(polls, poll);
      WaitBound(params.pollIntervalSeconds, poll, params.maxPolls);
      if poll > 0 {
        waited := params.pollIntervalSeconds * poll;
        if env.stopped { return Interrupted(last, poll), None, waited; }
      }
      if env.data.Canceled? { return Interrupted(last, poll), None, waited; }
      if env.data.Broken? { return Errored, None, waited; }
      var data := env.data.value;
      if env.entry.Canceled? { return Interrupted(last, poll), None, waited; }
      if env.entry.Broken? { return Errored, None, waited; }
      var seen := SeenWith(data, env.entry.value);
      if data.rateLimitRemaining < LOW_BUDGET { return Throttled(seen, poll + 1), None, waited; }
      if ToComplete(seen).Some? {
        if !env.marked { return Errored, None, waited; }
        return Done(seen, poll + 1), ToComplete(seen), waited;
      }
      last := Some(seen);
      if IsDone(seen.status) { return Done(seen, poll + 1), None, waited; }
    }
    QuietSoFar(polls, params.maxPolls);
    if stoppedAtEnd { return Interrupted(last, params.maxPolls), None, waited; }
    r := TimedOut(last.value, params.maxPolls);
  }

  /** After quiet polls the decisive one is the next or a later one. */
  lemma QuietSoFar(polls: seq<PollEnv>, k: nat)
    requires k <= |polls| && forall i :: 0 <= i < k ==> KindOf(polls[i], i == 0).Quiet?
    ensures Decisive(polls) >= k
    ensures k < |polls| && !KindOf(polls[k], k == 0).Quiet? ==> Decisive(polls) == k
  {
    forall i {:trigger polls[i]} | 0 <= i < k ensures i != Decisive(polls) { assert KindOf(polls[i], i == 0).Quiet?; }
  }

  lemma WaitBound(interval: int, poll: nat, maxPolls: int)
    requires interval > 0 && poll < maxPolls && interval * (maxPolls - 1) <= MAX_TOTAL_WAIT
    ensures interval * poll <= MAX_TOTAL_WAIT
  {
  }

  // ----- what the polls mean for the result -----

  /** The status a poll brings, if it brings data and an entry. */
  ghost function StatusIn(env: PollEnv): ReviewStatus
    requires env.data.Good? && env.entry.Good?
  {
    match env.entry.value
    case None => DeriveStatus(env.data.value, None, None)
    case Some(e) => DeriveStatus(env.data.value, Some(e.requestedAt), e.prevReviewID)
  }

  /** What a poll saw. */
  ghost predicate Saw(seen: Seen, env: PollEnv)
    requires env.data.Good? && env.entry.Good?
  {
    seen == Seen(env.data.value, env.entry.value, StatusIn(env))
  }

  /** The poll brought a status from a sufficient budget, and the context was not done before it. */
  ghost predicate Usable(polls: seq<PollEnv>, i: nat)
    requires i < |polls|
  {
    && (i == 0 || !polls[i].stopped)
    && polls[i].data.Good? && polls[i].entry.Good? && polls[i].data.value.rateLimitRemaining >= 10
  }

  ghost predicate Unfinished(polls: seq<PollEnv>, k: nat)
    requires k <= |polls|
  {
    forall i :: 0 <= i < k ==>
      Usable(polls, i) && StatusIn(polls[i]) != ReviewCompleted && StatusIn(polls[i]) != ReviewBlocked
  }

  lemma UnfinishedIsQuiet(polls: seq<PollEnv>, k: nat)
    requires k <= |polls| && Unfinished(polls, k)
    ensures Decisive(polls) >= k
    ensures k < |polls| && !KindOf(polls[k], k == 0).Quiet? ==> Decisive(polls) == k
  {
    forall i | 0 <= i < k ensures KindOf(polls[i], i == 0).Quiet? { assert Usable(polls, i); }
    QuietSoFar(polls, k);
  }

  /** The first finished review ends the wait, unless the open row it answers cannot be completed. */
  lemma FinishedReviewIsTold(polls: seq<PollEnv>, k: nat, stoppedAtEnd: bool)
    requires k < |polls| && Unfinished(polls, k) && Usable(polls, k)
    requires StatusIn(polls[k]) == ReviewCompleted || StatusIn(polls[k]) == ReviewBlocked
    ensures var open := polls[k].entry.value.Some? && polls[k].entry.value.value.completedAt.None?;
      var r := Told(polls, stoppedAtEnd);
      if open && !polls[k].marked then r == Errored else r.Done? && Saw(r.seen, polls[k]) && r.pollsDone == k + 1
  {
    UnfinishedIsQuiet(polls, k);
  }

  /** After the last poll without a finished review the wait times out, with what that poll saw. */
  lemma TimeoutIsTold(polls: seq<PollEnv>)
    requires |polls| > 0 && Unfinished(polls, |polls|)
    ensures var r, last := Told(polls, false), polls[|polls| - 1];
      Usable(polls, |polls| - 1) && r.TimedOut? && Saw(r.seen, last) && r.pollsDone == |polls|
    ensures Told(polls, true).Interrupted? && Told(polls, true).pollsDone == |polls|
  {
    UnfinishedIsQuiet(polls, |polls|);
    assert Usable(polls, |polls| - 1);
  }

  /** What ends the wait before that: a cancellation, a failed call, or a low budget. */
  lemma OtherEndIsTold(polls: seq<PollEnv>, k: nat, stoppedAtEnd: bool)
    requires k < |polls| && Unfinished(polls, k) && !Usable(polls, k)
    ensures var env, r := polls[k], Told(polls, stoppedAtEnd);
      if (k > 0 && env.stopped) || env.data.Canceled? || (env.data.Good? && env.entry.Canceled?) then
        && r.Interrupted? && r.pollsDone == k
        && (if k == 0 then r.last.None? else Usable(polls, k - 1) && r.last.Some? && Saw(r.last.value, polls[k - 1]))
      else if env.data.Broken? || env.entry.Broken? then r == Errored
      else r.Throttled? && Saw(r.seen, env) && r.pollsDone == k + 1
  {
    UnfinishedIsQuiet(polls, k);
    if k > 0 { assert Usable(polls, k - 1); }
  }

  /** Which inputs are waited for: defaults of two minutes and five polls, and the three ceilings. */
  lemma ValidWaitMeans(input: WaitInput)
    ensures var seconds := if input.pollIntervalSeconds <= 0 then 120 else input.pollIntervalSeconds;
      var polls := if input.maxPolls <= 0 then 5 else input.maxPolls;
      ValidWait(input) <==>
      && input.pr.owner != "" && input.pr.repo != "" && input.pr.number > 0
      && seconds <= 3600 && polls <= 100 && seconds * (polls - 1) <= 1800
  {
  }
}
