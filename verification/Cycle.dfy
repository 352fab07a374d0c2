/** get_pr_review_cycle_status (internal/tools/cycle.go): thread folds and the recommended action. */
module Cycle {
  import opened Base
  import opened Domain
  import opened Store
  import opened Review
  import opened CheckRuns

  /** `createdAt` is None when it is not an RFC 3339 time. */
  datatype Comment = Comment(author: string, createdAt: Option<Time>)

  datatype Thread = Thread(id: string, isResolved: bool, comments: seq<Comment>)

  // ----- strings.TrimSpace -----

  predicate IsSpace(c: char) {
    var n := c as int;
    || 9 <= n <= 13 || n == 32 || n == 0x85 || n == 0xA0 || n == 0x1680 || 0x2000 <= n <= 0x200a
    || n == 0x2028 || n == 0x2029 || n == 0x202f || n == 0x205f || n == 0x3000
  }

  function TrimLeft(s: string): string {
    if s != "" && IsSpace(s[0]) then TrimLeft(s[1..]) else s
  }

  function TrimRight(s: string): string {
    if s != "" && IsSpace(s[|s| - 1]) then TrimRight(s[..|s| - 1]) else s
  }

  function TrimSpace(s: string): string {
    TrimRight(TrimLeft(s))
  }

  // ----- what the folds mean -----

  /** The distinct authors of a thread's comments. */
  function Authors(t: Thread): set<string> {
    set c | c in t.comments && TrimSpace(c.author) != "" :: TrimSpace(c.author)
  }

  predicate Replied(t: Thread) {
    t.isResolved || |Authors(t)| >= 2
  }

  function Unreplied(threads: seq<Thread>): seq<string> {
    if threads == [] then []
    else
      var n := |threads| - 1;
      Unreplied(threads[..n]) + if Replied(threads[n]) then [] else [threads[n].id]
  }

  function Unresolved(threads: seq<Thread>): nat {
    if threads == [] then 0
    else
      var n := |threads| - 1;
      Unresolved(threads[..n]) + if threads[n].isResolved then 0 else 1
  }

  /** A Copilot comment whose time can be read and is after year 1. */
  predicate Timed(c: Comment) {
    IsCopilot(c.author) && c.createdAt.Some? && c.createdAt.value > ZERO_TIME
  }

  ghost predicate Comments(threads: seq<Thread>, c: Comment) {
    exists t :: t in threads && c in t.comments
  }

  // ----- the folds -----

  method ComputeAllReplied(threads: seq<Thread>) returns (allReplied: bool, unreplied: seq<string>)
    ensures unreplied == Unreplied(threads)
    ensures allReplied <==> forall t :: t in threads ==> Replied(t)
  {
    allReplied, unreplied := true, [];
    for i := 0 to |threads|
      invariant unreplied == Unreplied(threads[..i])
      invariant allReplied <==> forall j :: 0 <= j < i ==> Replied(threads[j])
    {
      assert threads[..i + 1][..i] == threads[..i];
      var t := threads[i];
      if t.isResolved { continue; }
      var authors := CollectAuthors(t);
      if |authors| < 2 {
        allReplied := false;
        unreplied := unreplied + [t.id];
      }
    }
    assert threads[..|threads|] == threads;
  }

  method CollectAuthors(t: Thread) returns (authors: set<string>)
    ensures authors == Authors(t)
  {
    authors := {};
    for i := 0 to |t.comments|
      invariant authors == set c | c in t.comments[..i] && TrimSpace(c.author) != "" :: TrimSpace(c.author)
    {
      assert t.comments[..i + 1] == t.comments[..i] + [t.comments[i]];
      var key := TrimSpace(t.comments[i].author);
      if key != "" { authors := authors + {key}; }
    }
    assert t.comments[..|t.comments|] == t.comments;
  }

  method CountUnresolved(threads: seq<Thread>) returns (n: nat)
    ensures n == Unresolved(threads)
  {
    n := 0;
    for i := 0 to |threads|
      invariant n == Unresolved(threads[..i])
    {
      assert threads[..i + 1][..i] == threads[..i];
      if !threads[i].isResolved { n := n + 1; }
    }
    assert threads[..|threads|] == threads;
  }

  /** The greatest time of a timed Copilot comment, if there is one. */
  method FindLatestCommentAt(threads: seq<Thread>) returns (r: Option<Time>)
    ensures r.None? <==> forall c :: Comments(threads, c) ==> !Timed(c)
    ensures r.Some? ==> exists c :: Comments(threads, c) && Timed(c) && c.createdAt == r
    ensures r.Some? ==> forall c :: Comments(threads, c) && Timed(c) ==> c.createdAt.value <= r.value
  {
    var latest := ZERO_TIME;
    for i := 0 to |threads|
      invariant LatestOf(latest, threads[..i])
    {
      latest := LaterOf(latest, threads[..i], threads[i]);
      assert threads[..i + 1] == threads[..i] + [threads[i]];
    }
    assert threads[..|threads|] == threads;
    r := if latest == ZERO_TIME then None else Some(latest);
  }

  /** The running maximum over these threads. */
  ghost predicate LatestOf(latest: Time, threads: seq<Thread>) {
    && (latest == ZERO_TIME || exists c :: Comments(threads, c) && Timed(c) && c.createdAt == Some(latest))
    && forall c :: Comments(threads, c) && Timed(c) ==> c.createdAt.value <= latest
  }

  method LaterOf(before: Time, ghost threads: seq<Thread>, t: Thread) returns (latest: Time)
    requires LatestOf(before, threads) && before >= ZERO_TIME
    ensures LatestOf(latest, threads + [t]) && latest >= ZERO_TIME
  {
    latest := before;
    for i := 0 to |t.comments|
      invariant latest >= before
      invariant latest == before ||
        exists j :: 0 <= j < i && Timed(t.comments[j]) && t.comments[j].createdAt == Some(latest)
      invariant forall j :: 0 <= j < i && Timed(t.comments[j]) ==> t.comments[j].createdAt.value <= latest
    {
      var c := t.comments[i];
      if !IsCopilot(c.author) { continue; }
      if c.createdAt.Some? && c.createdAt.value > latest { latest := c.createdAt.value; }
    }
    assert t in threads + [t];
    forall c | Comments(threads, c) ensures Comments(threads + [t], c) {
      var u :| u in threads && c in u.comments;
      assert u in threads + [t];
    }
  }

  // ----- the decision -----

  datatype Action = Wait | ReplyResolve | RequestRereview | ReadyToMerge | Escalate

  /** The switch that determines recommended_action. */
  function Decide(status: ReviewStatus, unresolved: nat, rereview: bool, allReplied: bool, ciOK: bool, elapsed: int,
          threshold: int): Action
  {
    if status == NotRequested then Wait
    else if status == Pending || status == InProgress then Wait
    else if unresolved > 0 then ReplyResolve
    else if rereview then
      if IsDone(status) && allReplied then RequestRereview else ReplyResolve
    else if (unresolved == 0 && ciOK) || (elapsed >= threshold && ciOK) then ReadyToMerge
    else Wait
  }

  // ----- the handler -----

  /** `lastCommentAt`: None is omitted or empty, Some(None) is not a time. */
  datatype CycleInput = CycleInput(
    pr: PullRequest, lastCommentAt: Option<Option<Time>>, cyclesDone: int, maxCycles: int, fixType: string)

  /** What the outside world answers; None is an error, and for the two settings: unset or not a number. */
  datatype CycleEnv = CycleEnv(
    client: bool, ci: Option<CIStatus>, threads: Option<seq<Thread>>, data: Option<ReviewData>,
    entry: Option<Option<Trigger>>, now: Time, maxCyclesSetting: Option<int>, thresholdSetting: Option<int>)

  datatype CycleError = BadInput | CallFailed | LowBudget | StoreUnreadable | BadTime

  datatype CycleOutput = CycleOutput(
    terminate: bool, action: Action, rereviewRequired: bool, cyclesDone: int, maxCycles: int,
    ci: CIStatus, unresolved: nat, allReplied: bool, unreplied: seq<string>)

  predicate ValidCycleInput(input: CycleInput) {
    && input.pr.owner != "" && input.pr.repo != "" && input.pr.number > 0
    && input.cyclesDone >= 0 && input.maxCycles >= 0
    && input.fixType in ["logic", "spec_change", "trivial", "none"]
  }

  function Setting(value: Option<int>, default: int): int {
    if value.Some? && value.value > 0 then value.value else default
  }

  function MaxCycles(input: CycleInput, env: CycleEnv): int {
    if input.maxCycles <= 0 then Setting(env.maxCyclesSetting, 3) else input.maxCycles
  }

  predicate NeedsRereview(input: CycleInput) {
    input.fixType == "logic" || input.fixType == "spec_change"
  }

  function StatusOf(data: ReviewData, entry: Option<Trigger>): ReviewStatus {
    match entry
    case None => DeriveStatus(data, None, None)
    case Some(e) => DeriveStatus(data, Some(e.requestedAt), e.prevReviewID)
  }

  const MINUTE: Time := 60 * SECOND

  /** Whole minutes since then, not negative. */
  function MinutesSince(now: Time, t: Time): int {
    if now - t >= MINUTE then (now - t) / MINUTE else 0
  }

  /** The first thing that keeps the handler from answering, in the order of its checks. */
  function Fails(input: CycleInput, env: CycleEnv): Option<CycleError> {
    if !ValidCycleInput(input) then Some(BadInput)
    else if !env.client || env.ci.None? || env.threads.None? then Some(CallFailed)
    else if input.cyclesDone >= MaxCycles(input, env) then None
    else if env.data.None? then Some(CallFailed)
    else if env.data.value.rateLimitRemaining < LOW_BUDGET then Some(LowBudget)
    else if env.entry.None? then Some(StoreUnreadable)
    else if input.lastCommentAt == Some(None) then Some(BadTime)
    else None
  }

  /** The answer, as a condition on it; the elapsed time does not occur. */
  ghost predicate Answers(out: CycleOutput, input: CycleInput, env: CycleEnv)
    requires Fails(input, env).None?
  {
    var threads := env.threads.value;
    && out.cyclesDone == input.cyclesDone && out.maxCycles == MaxCycles(input, env)
        && out.rereviewRequired == NeedsRereview(input)
    && out.ci == env.ci.value
    && out.unresolved == Unresolved(threads) && out.unreplied == Unreplied(threads)
    && out.allReplied == (forall t :: t in threads ==> Replied(t))
    && out.terminate == (out.action == ReadyToMerge || out.action == Escalate)
    && out.action == RightAction(input, env)
  }

  /** What to do next, case by case. */
  ghost function RightAction(input: CycleInput, env: CycleEnv): Action
    requires Fails(input, env).None?
  {
    var open := exists t :: t in env.threads.value && !t.isResolved;
    if input.cyclesDone >= MaxCycles(input, env) then Escalate
    else if !IsDone(StatusOf(env.data.value, env.entry.value)) then Wait
    else if open then ReplyResolve
    else if NeedsRereview(input) then RequestRereview
    else if env.ci.value.ok then ReadyToMerge
    else Wait
  }

  method CycleStatus(input: CycleInput, env: CycleEnv) returns (r: Result<CycleOutput, CycleError>)
    ensures Fails(input, env).Some? ==> r == Err(Fails(input, env).value)
    ensures Fails(input, env).None? ==> r.Ok? && Answers(r.value, input, env)
  {
    if !ValidCycleInput(input) { return Err(BadInput); }
    if !env.client { return Err(CallFailed); }
    var maxCycles := MaxCycles(input, env);
    var threshold := Setting(env.thresholdSetting, 6);
    var rereview := NeedsRereview(input);
    if env.ci.None? { return Err(CallFailed); }
    var ci := env.ci.value;
    if env.threads.None? { return Err(CallFailed); }
    var threads := env.threads.value;
    if input.cyclesDone >= maxCycles {
      var unresolved := CountUnresolved(threads);
      var allReplied, unreplied := ComputeAllReplied(threads);
      return Ok(CycleOutput(true, Escalate, rereview, input.cyclesDone, maxCycles, ci, unresolved, allReplied,
          unreplied));
    }
    var unresolved := CountUnresolved(threads);
    var allReplied, unreplied := ComputeAllReplied(threads);
    if env.data.None? { return Err(CallFailed); }
    var data := env.data.value;
    if data.rateLimitRemaining < LOW_BUDGET { return Err(LowBudget); }
    if env.entry.None? { return Err(StoreUnreadable); }
    var status := StatusOf(data, env.entry.value);
    var elapsed := 0;
    if input.lastCommentAt.Some? {
      if input.lastCommentAt.value.None? { return Err(BadTime); }
      elapsed := MinutesSince(env.now, input.lastCommentAt.value.value);
    } else {
      var latest := FindLatestCommentAt(threads);
      if latest.Some? { elapsed := MinutesSince(env.now, latest.value); }
    }
    var action := Decide(status, unresolved, rereview, allReplied, ci.ok, elapsed, threshold);
    DecisionIsRight(input, env, allReplied, elapsed, threshold);
    r := Ok(CycleOutput(action == ReadyToMerge || action == Escalate, action, rereview, input.cyclesDone, maxCycles,
        ci, unresolved, allReplied, unreplied));
  }

  // ----- properties -----

  lemma {:induction false} UnresolvedMeans(threads: seq<Thread>)
    ensures Unresolved(threads) == 0 <==> forall t :: t in threads ==> t.isResolved
  {
    if threads != [] {
      var n := |threads| - 1;
      assert threads == threads[..n] + [threads[n]];
      UnresolvedMeans(threads[..n]);
    }
  }

  /** The guard before a re-review never fails: with no open thread every thread counts as replied. */
  lemma NoOpenThreadMeansAllReplied(threads: seq<Thread>)
    requires Unresolved(threads) == 0
    ensures forall t :: t in threads ==> Replied(t)
    ensures Unreplied(threads) == []
  {
    UnresolvedMeans(threads);
    NoneUnreplied(threads);
  }

  lemma {:induction false} NoneUnreplied(threads: seq<Thread>)
    requires forall t :: t in threads ==> Replied(t)
    ensures Unreplied(threads) == []
  {
    if threads != [] { NoneUnreplied(threads[..|threads| - 1]); }
  }

  /** Whatever the elapsed time and the threshold are, the switch takes the right action. */
  lemma DecisionIsRight(input: CycleInput, env: CycleEnv, allReplied: bool, elapsed: int, threshold: int)
    requires Fails(input, env).None? && input.cyclesDone < MaxCycles(input, env)
    requires allReplied <==> forall t :: t in env.threads.value ==> Replied(t)
    ensures Decide(StatusOf(env.data.value, env.entry.value), Unresolved(env.threads.value), NeedsRereview(input),
                   allReplied, env.ci.value.ok, elapsed, threshold) == RightAction(input, env)
  {
    UnresolvedMeans(env.threads.value);
    if Unresolved(env.threads.value) == 0 { NoOpenThreadMeansAllReplied(env.threads.value); }
  }

  /**
   A pull request is declared ready exactly if its current request has a finished review, no thread is
   open, CI is green, the fix needs no re-review and cycles remain; the cycle terminates exactly on a
   ready or an escalated pull request, and unanswered threads never hold back a re-review.
   */
  lemma ReadyExactlyWhen(input: CycleInput, env: CycleEnv, out: CycleOutput)
    requires Fails(input, env).None? && Answers(out, input, env)
    ensures out.action == ReadyToMerge <==>
      && input.cyclesDone < out.maxCycles
      && IsDone(StatusOf(env.data.value, env.entry.value))
      && out.unresolved == 0 && out.ci.ok && !out.rereviewRequired
    ensures out.action == RequestRereview <==>
      && input.cyclesDone < out.maxCycles
      && IsDone(StatusOf(env.data.value, env.entry.value))
      && out.unresolved == 0 && out.rereviewRequired
    ensures out.action == RequestRereview ==> out.allReplied
    ensures out.action == Escalate <==> input.cyclesDone >= out.maxCycles
    ensures out.action == ReplyResolve <==>
      && input.cyclesDone < out.maxCycles
      && IsDone(StatusOf(env.data.value, env.entry.value)) && out.unresolved > 0
    ensures out.terminate <==> out.action == ReadyToMerge || input.cyclesDone >= out.maxCycles
    ensures out.rereviewRequired <==> input.fixType == "logic" || input.fixType == "spec_change"
    ensures out.maxCycles ==
            if input.maxCycles > 0 then input.maxCycles
            else if env.maxCyclesSetting.Some? && env.maxCyclesSetting.value > 0 then env.maxCyclesSetting.value
            else 3
  {
    UnresolvedMeans(env.threads.value);
    if out.unresolved == 0 { NoOpenThreadMeansAllReplied(env.threads.value); }
  }

  /** What is refused and what fails, each exactly; an escalation needs neither review nor trigger row. */
  lemma FailsExactlyWhen(input: CycleInput, env: CycleEnv)
    ensures var known := input.fixType in {"logic", "spec_change", "trivial", "none"};
      var named := input.pr.owner != "" && input.pr.repo != "" && input.pr.number > 0;
      var valid := named && input.cyclesDone >= 0 && input.maxCycles >= 0 && known;
      var fetched := env.client && env.ci.Some? && env.threads.Some?;
      var over := input.cyclesDone >= MaxCycles(input, env);
      var enough := env.data.Some? && env.data.value.rateLimitRemaining >= 10;
      && (Fails(input, env) == Some(BadInput) <==> !valid)
      && (Fails(input, env) == Some(CallFailed) <==> valid && (!fetched || (!over && env.data.None?)))
      && (Fails(input, env) == Some(LowBudget) <==> valid && fetched && !over && env.data.Some? && !enough)
      && (Fails(input, env) == Some(StoreUnreadable) <==> valid && fetched && !over && enough && env.entry.None?)
      && (Fails(input, env) == Some(BadTime) <==>
          valid && fetched && !over && enough && env.entry.Some? && input.lastCommentAt == Some(None))
  {
  }

  // ----- what the folds over threads mean -----

  /** What is cut off on the left is spaces, and no more can be. */
  lemma {:induction false} TrimLeftMeans(s: string) returns (n: nat)
    ensures n <= |s| && TrimLeft(s) == s[n..] && (forall i :: 0 <= i < n ==> IsSpace(s[i]))
    ensures n < |s| ==> !IsSpace(s[n])
  {
    n := 0;
    if s != "" && IsSpace(s[0]) {
      var rest := TrimLeftMeans(s[1..]);
      n := rest + 1;
      assert forall i :: 0 < i < n ==> s[i] == s[1..][i - 1];
    }
  }

  lemma {:induction false} TrimRightMeans(s: string) returns (n: nat)
    ensures n <= |s| && TrimRight(s) == s[..n] && (forall i :: n <= i < |s| ==> IsSpace(s[i]))
    ensures n > 0 ==> !IsSpace(s[n - 1])
  {
    n := |s|;
    if s != "" && IsSpace(s[|s| - 1]) { n := TrimRightMeans(s[..|s| - 1]); }
  }

  lemma TwoElements(a: set<string>)
    ensures |a| >= 2 <==> exists x, y :: x in a && y in a && x != y
  {
    if a != {} {
      var x :| x in a;
      var rest := a - {x};
      assert a == rest + {x};
      if rest != {} {
        var y :| y in rest;
        assert x in a && y in a && x != y;
      }
    }
  }

  /** A thread is replied to exactly if it is resolved or has comments of two authors, blank ones apart. */
  lemma RepliedMeans(t: Thread)
    ensures Replied(t) <==>
            t.isResolved ||
            exists c, d :: c in t.comments && d in t.comments && TrimSpace(c.author) != "" && TrimSpace(d.author) != ""
                           && TrimSpace(c.author) != TrimSpace(d.author)
  {
    TwoElements(Authors(t));
    if exists x, y :: x in Authors(t) && y in Authors(t) && x != y {
      var x, y :| x in Authors(t) && y in Authors(t) && x != y;
      var c :| c in t.comments && TrimSpace(c.author) == x;
      var d :| d in t.comments && TrimSpace(d.author) == y;
    }
    forall c, d | c in t.comments && d in t.comments && TrimSpace(c.author) != "" && TrimSpace(d.author) != ""
                  && TrimSpace(c.author) != TrimSpace(d.author)
      ensures TrimSpace(c.author) in Authors(t) && TrimSpace(d.author) in Authors(t)
    {
    }
  }

  /** Exactly the threads that are not replied to are listed. */
  lemma {:induction false} UnrepliedMeans(threads: seq<Thread>, id: string)
    ensures id in Unreplied(threads) <==> exists t :: t in threads && t.id == id && !Replied(t)
  {
    if threads != [] {
      var n := |threads| - 1;
      assert threads == threads[..n] + [threads[n]];
      UnrepliedMeans(threads[..n], id);
    }
  }

  /** The count of open threads. */
  lemma {:induction false} UnresolvedCount(threads: seq<Thread>)
    ensures Unresolved(threads) == |set i | 0 <= i < |threads| && !threads[i].isResolved|
  {
    if threads != [] {
      var n := |threads| - 1;
      UnresolvedCount(threads[..n]);
      var all := set i | 0 <= i < |threads| && !threads[i].isResolved;
      var rest := set i | 0 <= i < n && !threads[..n][i].isResolved;
      assert all == if threads[n].isResolved then rest else rest + {n};
    }
  }
}
