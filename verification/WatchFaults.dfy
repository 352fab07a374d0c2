/** What refused writes and late clock readings do to a watch: exactly when, for how long, and in which runs. */
module WatchFaults {
  import opened Base
  import opened Domain
  import opened Store
  import opened Review
  import opened WatchCore
  import opened WatchInvariant
  import opened WatchSections
  import opened WatchSteps
  import opened WatchLifecycle
  import opened WatchWorker
  import opened WatchSystem
  import opened WatchSafety
  import opened WatchTheorems

  // ----- lost endings -----

  /** In every run an ended watch's row is active exactly if its last write was refused. */
  lemma EndedRowActiveExactly(cfg: Config, start: Time, events: seq<Event>, id: string)
    requires ValidConfig(cfg) && id in Reached(cfg, start, events).core.watches
    requires Reached(cfg, start, events).core.watches[id].terminal
    ensures var c := Reached(cfg, start, events).core;
      Find(c.rows, id) < |c.rows| && (c.rows[Find(c.rows, id)].isActive <==> id in c.lost)
  {
    ReachedInv(cfg, start, events);
    assert RowMatches(Reached(cfg, start, events).core, id);
  }

  /**
   On an open manager, starting a key that has no live watch fails, although the database takes the
   write, exactly if an ended watch of the key lost its last write in this process.
   */
  lemma StartFailsExactly(cfg: Config, start: Time, events: seq<Event>, input: StartInput, trigger: Option<int>)
    requires ValidConfig(cfg) && ValidStart(input)
    requires !Reached(cfg, start, events).core.closed && input.key !in Reached(cfg, start, events).core.active
    ensures var s := Reached(cfg, start, events);
      StartLocked(s.core, input, trigger, s.clock, true).1 == PersistFailed <==>
      exists id :: LostEnding(s.core, id, input.key)
  {
    ReachedInv(cfg, start, events);
    var s := Reached(cfg, start, events);
    assert s.core.(active := s.core.active - {input.key}) == s.core;
    NextIDFresh(cfg, s);
    StartNewSteps(s.core, cfg, input, trigger, s.clock, true);
    StartBlockedByLostWatch(s.core, cfg, input.key);
  }

  lemma LostKeyHasNoWatch(cfg: Config, s: Sys, id: string, key: WatchKey)
    requires SysInv(cfg, s) && LostEnding(s.core, id, key)
    ensures key !in s.core.active
  {
    var c := s.core;
    assert KeyIndexed(c, key) && RowMatches(c, id);
    forall x | Live(c, x) ensures c.watches[x].key != key {
      assert RowMatches(c, x) && RowsApart(c.rows, Find(c.rows, id), Find(c.rows, x));
    }
  }

  lemma LostKeyBlocks(cfg: Config, s: Sys, id: string, input: StartInput, trigger: Option<int>, io: bool)
    requires SysInv(cfg, s) && ValidConfig(cfg) && ValidStart(input) && LostEnding(s.core, id, input.key)
    ensures !StartLocked(s.core, input, trigger, s.clock, io).1.Running?
  {
    LostKeyHasNoWatch(cfg, s, id, input.key);
    if !s.core.closed {
      assert s.core.(active := s.core.active - {input.key}) == s.core;
      NextIDFresh(cfg, s);
      StartNewSteps(s.core, cfg, input, trigger, s.clock, io);
      StartBlockedByLostWatch(s.core, cfg, input.key);
    }
  }

  lemma LostEndingStays(cfg: Config, s: Sys, future: seq<Event>, id: string, key: WatchKey)
    requires SysInv(cfg, s) && ValidConfig(cfg) && SameProcess(future) && LostEnding(s.core, id, key)
    ensures LostEnding(Run(cfg, s, future).core, id, key)
  {
    RunAdvances(cfg, s, future);
    assert FollowsAt(s.core, Run(cfg, s, future).core, id);
  }

  /**
   After the refused write of an ending no Start of that key succeeds for the rest of the process, whatever
   the database takes.
   */
  lemma LostKeyStaysBlocked(cfg: Config, start: Time, past: seq<Event>, future: seq<Event>, id: string,
          input: StartInput, trigger: Option<int>, io: bool)
    requires ValidConfig(cfg) && SameProcess(future) && ValidStart(input)
    requires LostEnding(Reached(cfg, start, past).core, id, input.key)
    ensures var s := Run(cfg, Reached(cfg, start, past), future);
      !StartLocked(s.core, input, trigger, s.clock, io).1.Running?
  {
    ReachedInv(cfg, start, past);
    RunKeeps(cfg, Reached(cfg, start, past), future);
    LostEndingStays(cfg, Reached(cfg, start, past), future, id, input.key);
    LostKeyBlocks(cfg, Run(cfg, Reached(cfg, start, past), future), id, input, trigger, io);
  }

  // ----- runs -----

  /** One more event. */
  lemma ReachedNext(cfg: Config, start: Time, events: seq<Event>, e: Event)
    ensures Reached(cfg, start, events + [e]) == Step(cfg, Reached(cfg, start, events), e)
  {
    assert (events + [e])[..|events|] == events;
  }

  /** The state after the first Start of all. */
  lemma FirstStart(cfg: Config, start: Time, input: StartInput)
    requires ValidConfig(cfg) && ValidStart(input)
    ensures var s := Reached(cfg, start, [StartCall(input, None, true)]);
      var w := NewWatch(WatchID(start, 1), input, None, start);
      && SysInv(cfg, s) && s.clock == start && Live(s.core, w.id) && s.core.watches[w.id] == w
      && s.core.active == map[input.key := w.id] && !s.core.closed
      && |s.core.rows| == 1 && s.core.watches.Keys == {w.id}
      && w.id in s.workers && s.workers[w.id] == Worker(Ready, 1, None)
  {
    var e := StartCall(input, None, true);
    var s0 := Init(start);
    ReachedInv(cfg, start, [e]);
    InitInv(cfg, start);
    assert Reached(cfg, start, []) == s0 && [] + [e] == [e];
    ReachedNext(cfg, start, [], e);
    assert s0.core.(active := s0.core.active - {input.key}) == s0.core;
    StartNewForm(s0.core, input, None, start, true);
  }

  /** The failing run: a start, and a cancel whose write is refused; the key is blocked from then on. */
  lemma BlockedRun(cfg: Config, start: Time, input: StartInput, future: seq<Event>, trigger: Option<int>, io: bool)
    requires ValidConfig(cfg) && ValidStart(input) && SameProcess(future)
    ensures var run := [StartCall(input, None, true), CancelByID(input.key.login, WatchID(start, 1), false)];
      var s := Run(cfg, Reached(cfg, start, run), future);
      && LostEnding(Reached(cfg, start, run).core, WatchID(start, 1), input.key)
      && |Reached(cfg, start, run).core.rows| == 1 && Reached(cfg, start, run).core.watches.Keys == {WatchID(start, 1)}
      && !StartLocked(s.core, input, trigger, s.clock, io).1.Running?
  {
    var first, cancel := StartCall(input, None, true), CancelByID(input.key.login, WatchID(start, 1), false);
    var s1 := Reached(cfg, start, [first]);
    FirstStart(cfg, start, input);
    ReachedNext(cfg, start, [first], cancel);
    CancelWatchSteps(s1.core, cfg, WatchID(start, 1), start, false);
    assert [first] + [cancel] == [first, cancel];
    LostKeyStaysBlocked(cfg, start, [first, cancel], future, WatchID(start, 1), input, trigger, io);
  }

  // ----- hints -----

  /**
   In every run a live watch has no hint, an AUTH_EXPIRED one has, and any other watch has one only if
   it was degraded: its last write was refused, and its reason and error text say so.
   */
  lemma HintsAreAccounted(cfg: Config, start: Time, events: seq<Event>, id: string)
    requires ValidConfig(cfg) && id in Reached(cfg, start, events).core.watches
    ensures var c := Reached(cfg, start, events).core;
      var w := c.watches[id];
      && (w.recoveryHint.Some? <==> w.failureReason == Some(AuthExpired) || StrayHint(w))
      && (w.recoveryHint.Some? ==> w.terminal)
      && (StrayHint(w) ==> id in c.lost && Find(c.rows, id) < |c.rows| && c.rows[Find(c.rows, id)].isActive)
  {
    ReachedInv(cfg, start, events);
    var c := Reached(cfg, start, events).core;
    assert ShapedAt(c, cfg, id) && RowMatches(c, id);
  }

  /**
   An ending leaves a hint on a watch that is not AUTH_EXPIRED exactly if it was to be AUTH_EXPIRED and its
   write is refused.
   */
  lemma HintStraysExactly(c: Core, cfg: Config, w: Watch, status: WatchStatus, reason: Option<FailureReason>, now: Time,
        errText: string, hint: Option<string>, io: bool, escalated: bool)
    requires Inv(c, cfg) && Live(c, w.id) && Draft(w, cfg) && Follows(c.watches[w.id], w)
    requires EndsWell(w, status, reason, hint) && w.startedAt <= now
    requires w.upstreamFailureCount == c.watches[w.id].upstreamFailureCount + if escalated then 1 else 0
    ensures var w2 := Finish(c, w, status, reason, now, errText, hint, io).watches[w.id];
      w2.recoveryHint.Some? && w2.failureReason != Some(AuthExpired) <==> reason == Some(AuthExpired) && !io
  {
    FinishSteps(c, cfg, w, status, reason, now, errText, hint, io, escalated);
  }

  // ----- clock readings -----

  /** The only step that moves a watch's `updatedAt` back. */
  ghost predicate CommitsLate(s: Sys, e: Event, id: string) {
    && e.WorkerMove? && e.id == id && id in s.workers && Locks(s.workers[id].phase) && Live(s.core, id)
    && ReadAt(s.workers[id].phase, s.clock) < s.core.watches[id].updatedAt
  }

  lemma LockedMoveStamps(cfg: Config, s: Sys, x: string, env: Env, id: string)
    requires SysInv(cfg, s) && ValidConfig(cfg) && x in s.workers && Locks(s.workers[x].phase) && id in s.core.watches
    ensures var c2 := MoveWorker(cfg, s, x, env).core;
      && id in c2.watches
      && c2.watches[id].updatedAt ==
         if x == id && Live(s.core, id) then ReadAt(s.workers[id].phase, s.clock) else s.core.watches[id].updatedAt
  {
    LockedMoveForm(cfg, s, x, env);
    if Live(s.core, x) {
      var polls := LockedStepMoves(cfg, s, x, env.io);
    } else {
      assert WorkerFine(cfg, s, x);
      LateStepIsNothing(cfg, s, x, env.io);
    }
  }

  lemma StartStamps(cfg: Config, s: Sys, e: Event, id: string)
    requires SysInv(cfg, s) && ValidConfig(cfg) && e.StartCall? && id in s.core.watches
    ensures var c2 := Step(cfg, s, e).core; id in c2.watches && c2.watches[id].updatedAt >= s.core.watches[id].updatedAt
  {
    var c := s.core;
    assert KeyIndexed(c, e.input.key) && StampedAt(c, s.clock, id);
    if ValidStart(e.input) && !c.closed {
      if e.input.key in c.active {
        var x := c.active[e.input.key];
        assert StampedAt(c, s.clock, x) && WatchIndexed(c, x);
        ReuseSteps(c, cfg, x, e.input.token, e.trigger, s.clock, e.io);
      } else {
        assert c.(active := c.active - {e.input.key}) == c;
        NextIDFresh(cfg, s);
        StartNewForm(c, e.input, e.trigger, s.clock, e.io);
      }
    }
  }

  lemma CancelStamps(cfg: Config, s: Sys, x: string, io: bool, id: string)
    requires SysInv(cfg, s) && x in s.core.watches && id in s.core.watches
    ensures var c2 := CancelWatch(s.core, x, s.clock, io).0;
      id in c2.watches && c2.watches[id].updatedAt >= s.core.watches[id].updatedAt
  {
    assert StampedAt(s.core, s.clock, id) && StampedAt(s.core, s.clock, x);
    if Live(s.core, x) { CancelWatchSteps(s.core, cfg, x, s.clock, io); }
  }

  /**
   `updatedAt` goes back exactly when a poll commits with a clock reading older than the last change of its
   live watch.
   */
  lemma UpdatedAtGoesBackExactly(cfg: Config, s: Sys, e: Event, id: string)
    requires SysInv(cfg, s) && ValidConfig(cfg) && id in s.core.watches && !e.Restart?
    ensures var c2 := Step(cfg, s, e).core;
      && id in c2.watches
      && (c2.watches[id].updatedAt < s.core.watches[id].updatedAt <==> CommitsLate(s, e, id))
  {
    match e {
      case StartCall(_, _, _) => StartStamps(cfg, s, e, id);
      case WorkerMove(x, env) =>
        if x in s.workers && Locks(s.workers[x].phase) { LockedMoveStamps(cfg, s, x, env, id); }
      case CancelByID(_, x, io) => if x in s.core.watches { CancelStamps(cfg, s, x, io, id); }
      case CancelLatest(key, io) =>
        assert KeyIndexed(s.core, key);
        if key in s.core.active { CancelStamps(cfg, s, s.core.active[key], io, id); }
      case CloseCall(keys, accepted) =>
        if forall k :: k in s.core.active ==> k in keys {
          assert StampedAt(s.core, s.clock, id);
          CloseSteps(s.core, cfg, keys, s.clock, accepted);
          assert ClosedAs(s.core, Step(cfg, s, e).core, s.clock, id);
        }
      case _ =>
    }
  }

  lemma ReachedUpdatedAt(cfg: Config, start: Time, events: seq<Event>, e: Event, id: string)
    requires ValidConfig(cfg) && id in Reached(cfg, start, events).core.watches && !e.Restart?
    ensures var s, s2 := Reached(cfg, start, events), Reached(cfg, start, events + [e]);
      && id in s2.core.watches
      && (s2.core.watches[id].updatedAt < s.core.watches[id].updatedAt <==> CommitsLate(s, e, id))
  {
    ReachedInv(cfg, start, events);
    ReachedNext(cfg, start, events, e);
    UpdatedAtGoesBackExactly(cfg, Reached(cfg, start, events), e, id);
  }

  const QUIET := ReviewData(false, None, 5000, ZERO_TIME, None, None, false)

  /** Every answer of a poll that finds no review and no trigger row. */
  const QUIET_POLL := Env(Data(QUIET), Some(None), true, false, true)

  /** A poll that has fetched and read, but not committed yet. */
  ghost function PollUnderWay(start: Time, input: StartInput): seq<Event> {
    var move := WorkerMove(WatchID(start, 1), QUIET_POLL);
    [StartCall(input, None, true)] + [move] + [move] + [move]
  }

  lemma PollUnderWayReached(cfg: Config, start: Time, input: StartInput)
    requires ValidConfig(cfg) && ValidStart(input)
    ensures var s := Reached(cfg, start, PollUnderWay(start, input));
      var w := NewWatch(WatchID(start, 1), input, None, start);
      && s.clock == start && Live(s.core, w.id) && s.core.watches[w.id] == w
      && s.core.active == map[input.key := w.id] && !s.core.closed
      && w.id in s.workers && s.workers[w.id] == Worker(Committing(start, NotRequested, None), 1, None)
  {
    var first, move := StartCall(input, None, true), WorkerMove(WatchID(start, 1), QUIET_POLL);
    FirstStart(cfg, start, input);
    ReachedNext(cfg, start, [first], move);
    ReachedNext(cfg, start, [first] + [move], move);
    ReachedNext(cfg, start, [first] + [move] + [move], move);
  }

  /** The run: fetch, then another Start with a new token at a later clock, then the commit of the fetch. */
  lemma LateCommitRun(cfg: Config, start: Time, input: StartInput, token: string, later: Time)
    requires ValidConfig(cfg) && ValidStart(input) && token != "" && token != input.token && start < later
    ensures var swapped :=
        PollUnderWay(start, input) + [Advance(later)] + [StartCall(input.(token := token), None, true)];
      var committed := swapped + [WorkerMove(WatchID(start, 1), QUIET_POLL)];
      var s, s2 := Reached(cfg, start, swapped), Reached(cfg, start, committed);
      && WatchID(start, 1) in s.core.watches && s.core.watches[WatchID(start, 1)].updatedAt == later
      && WatchID(start, 1) in s2.core.watches && s2.core.watches[WatchID(start, 1)].updatedAt < later
  {
    var id, again := WatchID(start, 1), StartCall(input.(token := token), None, true);
    var begun := PollUnderWay(start, input);
    PollUnderWayReached(cfg, start, input);
    ReachedNext(cfg, start, begun, Advance(later));
    ReachedNext(cfg, start, begun + [Advance(later)], again);
    var s := Reached(cfg, start, begun + [Advance(later)]);
    ReachedInv(cfg, start, begun + [Advance(later)]);
    ReuseSteps(s.core, cfg, id, token, None, later, true);
    ReachedUpdatedAt(cfg, start, begun + [Advance(later)] + [again], WorkerMove(id, QUIET_POLL), id);
  }
}
