/** Each critical section keeps the invariant, changes no ended watch and no finished row. */
module WatchSections {
  import opened Base
  import opened Domain
  import opened Store
  import opened Review
  import opened WatchCore
  import opened WatchInvariant

  // ===== what the history says =====

  /** Upstream failures of a watch since its last ok commit, token swap or start. */
  ghost function FailuresSince(h: seq<Commit>, id: string): nat {
    if h == [] then 0
    else
      var n := |h| - 1;
      if h[n].id != id then FailuresSince(h[..n], id)
      else
        match h[n]
        case UpstreamFailed(_) => FailuresSince(h[..n], id) + 1
        case ClosedByManager(_) => FailuresSince(h[..n], id)
        case _ => 0
  }

  /** The review status of the last ok commit. */
  ghost function LastOk(h: seq<Commit>, id: string): Option<ReviewStatus> {
    if h == [] then None
    else if h[|h| - 1].id == id && h[|h| - 1].PollOk? then Some(h[|h| - 1].review)
    else LastOk(h[..|h| - 1], id)
  }

  /** Saved ok commits whose review status differs from the one before. */
  ghost function Changes(h: seq<Commit>, id: string): nat {
    if h == [] then 0
    else
      var n := |h| - 1;
      Changes(h[..n], id) +
      if h[n].id == id && h[n].PollOk? && h[n].saved && LastOk(h[..n], id) != Some(h[n].review) then 1 else 0
  }

  ghost function Times(s: seq<string>, u: string): nat {
    multiset(s)[u]
  }

  ghost predicate EndedByClose(c: Core, id: string) {
    ClosedByManager(id) in c.hist
  }

  /** Failures are counted, and notifications are one per saved status change and one at the end. */
  ghost predicate RecordedFor(c: Core, id: string) {
    id in c.watches ==> HistoryOf(c, c.watches[id])
  }

  ghost predicate HistoryOf(c: Core, w: Watch) {
    && w.upstreamFailureCount == FailuresSince(c.hist, w.id)
    && Times(c.sent, ResourceURI(w.id)) ==
       Changes(c.hist, w.id) + (if w.terminal && !EndedByClose(c, w.id) then 1 else 0)
    && (!w.terminal ==> w.reviewStatus == LastOk(c.hist, w.id) && !EndedByClose(c, w.id))
  }

  ghost predicate Recorded(c: Core) {
    && (forall id {:trigger RecordedFor(c, id)} :: RecordedFor(c, id))
    && (forall e {:trigger Known(c, e)} :: Known(c, e))
    && (forall u {:trigger Sent(c, u)} :: Sent(c, u))
  }

  ghost predicate Known(c: Core, e: Commit) {
    e in c.hist ==> e.id in c.watches
  }

  /** Every notification carries the URI of a watch. */
  ghost predicate Sent(c: Core, u: string) {
    u in c.sent ==> |u| >= |URI_PREFIX| && u[|URI_PREFIX|..] in c.watches
  }

  // ===== the invariant =====

  /** Everything that also holds in the middle of Close. */
  ghost predicate Sound(c: Core, cfg: Config) {
    Indexed(c) && Tabled(c) && Ordered(c) && Shaped(c, cfg) && Released(c) && Recorded(c)
  }

  ghost predicate Inv(c: Core, cfg: Config) {
    Sound(c, cfg) && (c.closed ==> c.active == map[])
  }

  /** What no section ever undoes: identities, ended watches, finished rows, links to trigger rows, lost endings. */
  ghost predicate Advances(c: Core, c1: Core) {
    && (forall id {:trigger FollowsAt(c, c1, id)} :: FollowsAt(c, c1, id))
    && |c.rows| <= |c1.rows|
    && (forall i {:trigger RowFollows(c, c1, i)} :: RowFollows(c, c1, i))
    && c.done <= c1.done
    && (c.closed ==> c1.closed)
  }

  ghost predicate FollowsAt(c: Core, c1: Core, id: string) {
    id in c.watches ==>
      && id in c1.watches && Follows(c.watches[id], c1.watches[id])
      && (c.watches[id].terminal ==> (id in c.lost <==> id in c1.lost))
  }

  ghost predicate Follows(w: Watch, w1: Watch) {
    && w1.id == w.id && w1.key == w.key && w1.startedAt == w.startedAt
    && w.pollsDone <= w1.pollsDone
    && (w.triggerLogID.Some? ==> w1.triggerLogID == w.triggerLogID)
    && (w.terminal ==> w1 == w)
  }

  ghost predicate RowFollows(c: Core, c1: Core, i: int)
 
  {
    0 <= i < |c.rows| && i < |c1.rows| ==>
      var r, r1 := c.rows[i], c1.rows[i];
      r1.id == r.id && r1.key == r.key && r1.startedAt == r.startedAt && (!r.isActive ==> r1 == r)
  }

  lemma AdvancesTransitive(a: Core, b: Core, c: Core)
    requires Advances(a, b) && Advances(b, c)
    ensures Advances(a, c)
  {
    forall id ensures FollowsAt(a, c, id) { assert FollowsAt(a, b, id) && FollowsAt(b, c, id); }
    forall i ensures RowFollows(a, c, i) { assert RowFollows(a, b, i) && RowFollows(b, c, i); }
  }

  lemma AdvancesReflexive(c: Core)
    ensures Advances(c, c)
  {
  }

  // ===== shapes =====

  /** A live watch on its way to a commit: well shaped, up to one failure over the live bound. */
  ghost predicate Draft(w: Watch, cfg: Config) {
    && !w.terminal
    && w.resourceURI == Some(ResourceURI(w.id))
    && w.staleAt.None? && w.startedAt <= w.updatedAt
    && (w.lastPolledAt.Some? <==> w.pollsDone > 0)
    && w.upstreamFailureCount <= cfg.upstreamFailureThreshold
  }

  /** The statuses, reasons and hints that the code ends a watch with. */
  ghost predicate EndsWell(w: Watch, status: WatchStatus, reason: Option<FailureReason>, hint: Option<string>) {
    && status != Watching
    && (status == Failed <==> reason.Some?)
    && (reason == Some(AuthExpired) <==> hint.Some?)
    && (status == Completed ==> w.reviewStatus == Some(ReviewCompleted))
    && (status == Blocked ==> w.reviewStatus == Some(ReviewBlocked))
  }

  lemma EndedShaped(w: Watch, cfg: Config, status: WatchStatus, reason: Option<FailureReason>, now: Time,
          errText: string, hint: Option<string>)
    requires Draft(w, cfg) && EndsWell(w, status, reason, hint) && w.startedAt <= now
    ensures WellShaped(Ended(w, status, reason, now, errText, hint), cfg)
  {
  }

  lemma DegradedShaped(w: Watch, cfg: Config, intended: WatchStatus, now: Time)
    requires WellShaped(w, cfg) && w.status == intended && w.startedAt <= now && w.updatedAt == now
    ensures WellShaped(Degraded(w, intended, now), cfg)
  {
  }

  // ===== the history of the other watches =====

  ghost predicate LogsOnly(c: Core, c1: Core, id: string, e: Option<Commit>, notified: bool) {
    && (e.Some? ==> e.value.id == id)
    && c1.hist == (if e.Some? then c.hist + [e.value] else c.hist)
    && c1.sent == (if notified then c.sent + [ResourceURI(id)] else c.sent)
  }

  lemma URIOf(id: string)
    ensures ResourceURI(id)[|URI_PREFIX|..] == id
  {
  }

  lemma LogsKeepOthers(c: Core, c1: Core, id: string, e: Option<Commit>, notified: bool, other: string)
    requires LogsOnly(c, c1, id, e, notified) && other != id
    requires other in c.watches && other in c1.watches && c1.watches[other] == c.watches[other]
        && c.watches[other].id == other
    requires RecordedFor(c, other)
    ensures RecordedFor(c1, other)
  {
    URIOf(other);
    URIOf(id);
    if e.Some? { assert c1.hist[..|c.hist|] == c.hist; }
  }

  lemma LogsKeepRecorded(c: Core, c1: Core, id: string, e: Option<Commit>, notified: bool)
    requires Indexed(c) && Recorded(c) && LogsOnly(c, c1, id, e, notified)
    requires c1.watches.Keys == c.watches.Keys + {id}
    requires forall other :: other in c.watches && other != id ==> c1.watches[other] == c.watches[other]
    requires RecordedFor(c1, id)
    ensures Recorded(c1)
  {
    forall other ensures RecordedFor(c1, other) {
      if other != id && other in c1.watches {
        assert RecordedFor(c, other) && WatchIndexed(c, other);
        LogsKeepOthers(c, c1, id, e, notified, other);
      }
    }
    forall x ensures Known(c1, x) { assert Known(c, x); }
    forall u ensures Sent(c1, u) {
      assert Sent(c, u);
      URIOf(id);
    }
  }

  // ===== one live watch rewritten =====

  lemma RewriteAdvances(c: Core, c1: Core, w: Watch)
    requires Rewrites(c, c1, w) && Follows(c.watches[w.id], w) && RowMatches(c, w.id)
    requires c.done <= c1.done && (c.closed ==> c1.closed)
    ensures Advances(c, c1)
  {
  }

  lemma RewriteReleased(c: Core, c1: Core, w: Watch)
    requires Released(c) && Rewrites(c, c1, w) && DoneFits(c, c1, w)
    ensures Released(c1)
  {
    forall id ensures ReleasedAt(c1, id) { assert ReleasedAt(c, id); }
  }

  /** The context of an ended watch is cancelled at once, except that Close leaves it for later. */
  ghost predicate DoneFits(c: Core, c1: Core, w: Watch) {
    && c1.closed == c.closed
    && c.done <= c1.done <= c.done + {w.id}
    && (w.id in c1.done - c.done ==> w.terminal)
    && (w.terminal ==> w.id in c1.done || c.closed)
  }

  lemma RewriteShaped(c: Core, cfg: Config, c1: Core, w: Watch)
    requires Shaped(c, cfg) && Rewrites(c, c1, w) && WellShaped(w, cfg) && (StrayHint(w) ==> w.id in c1.lost)
    ensures Shaped(c1, cfg)
  {
    forall id ensures ShapedAt(c1, cfg, id) { assert ShapedAt(c, cfg, id); }
    forall i ensures RowShaped(c1.rows, i) { assert RowShaped(c.rows, i); }
  }

  // ===== what one more history entry adds =====

  lemma HistoryStep(h: seq<Commit>, e: Commit, id: string)
    requires e.id == id
    ensures FailuresSince(h + [e], id) ==
      (match e
       case UpstreamFailed(_) => FailuresSince(h, id) + 1
       case ClosedByManager(_) => FailuresSince(h, id)
       case _ => 0)
    ensures LastOk(h + [e], id) == if e.PollOk? then Some(e.review) else LastOk(h, id)
    ensures Changes(h + [e], id) ==
      Changes(h, id) + if e.PollOk? && e.saved && LastOk(h, id) != Some(e.review) then 1 else 0
  {
    assert (h + [e])[..|h|] == h;
  }

  /** The failure count, review status and notification that fit a history entry. */
  ghost predicate Fits(w: Watch, w1: Watch, e: Option<Commit>, notified: bool) {
    match e
    case None =>
      && w1.upstreamFailureCount == w.upstreamFailureCount && notified == w1.terminal
      && (!w1.terminal ==> w1.reviewStatus == w.reviewStatus)
    case Some(UpstreamFailed(_)) =>
      && w1.upstreamFailureCount == w.upstreamFailureCount + 1 && notified == w1.terminal
      && (!w1.terminal ==> w1.reviewStatus == w.reviewStatus)
    case Some(PollOk(_, review, saved)) =>
      && w1.upstreamFailureCount == 0 && saved == !w1.terminal
      && notified == (w1.terminal || w.reviewStatus != Some(review))
      && (!w1.terminal ==> w1.reviewStatus == Some(review))
    case Some(ClosedByManager(_)) =>
      w1.upstreamFailureCount == w.upstreamFailureCount && w1.terminal && !notified
    case Some(TokenSwapped(_)) =>
      w1.upstreamFailureCount == 0 && !w1.terminal && w1.reviewStatus == w.reviewStatus && !notified
    case Some(Started(_)) => false
  }

  lemma FitsRecorded(c: Core, c2: Core, w1: Watch, e: Option<Commit>, notified: bool)
    requires Live(c, w1.id) && c.watches[w1.id].id == w1.id && RecordedFor(c, w1.id)
        && LogsOnly(c, c2, w1.id, e, notified)
    requires Fits(c.watches[w1.id], w1, e, notified)
    ensures HistoryOf(c2, w1)
  {
    if e.Some? { HistoryStep(c.hist, e.value, w1.id); }
  }

  /** c2 is c after a section that rewrites the live watch w1.id to w1 and logs e. */
  ghost predicate Section(c: Core, cfg: Config, w1: Watch, c2: Core, e: Option<Commit>, notified: bool, io: bool) {
    && c2.lost == (if io then c.lost - {w1.id} else c.lost + {w1.id}) && (StrayHint(w1) ==> w1.id in c2.lost)
    && Rewrites(c, c2, w1) && Follows(c.watches[w1.id], w1) && WellShaped(w1, cfg)
    && DoneFits(c, c2, w1) && c2.idSeq == c.idSeq
    && LogsOnly(c, c2, w1.id, e, notified) && Fits(c.watches[w1.id], w1, e, notified)
  }

  lemma SectionRecorded(c: Core, cfg: Config, w1: Watch, c2: Core, e: Option<Commit>, notified: bool, io: bool)
    requires Indexed(c) && Recorded(c) && Section(c, cfg, w1, c2, e, notified, io)
    ensures Recorded(c2)
  {
    assert RecordedFor(c, w1.id) && WatchIndexed(c, w1.id);
    FitsRecorded(c, c2, w1, e, notified);
    LogsKeepRecorded(c, c2, w1.id, e, notified);
  }

  lemma SectionSound(c: Core, cfg: Config, w1: Watch, c2: Core, e: Option<Commit>, notified: bool, io: bool)
    requires Sound(c, cfg) && Section(c, cfg, w1, c2, e, notified, io)
    ensures Sound(c2, cfg) && Advances(c, c2)
  {
    RewriteKeepsIndexed(c, c2, w1);
    RewriteKeepsTabled(c, c2, w1);
    RewriteKeepsOrdered(c, c2, w1);
    RewriteShaped(c, cfg, c2, w1);
    RewriteReleased(c, c2, w1);
    SectionRecorded(c, cfg, w1, c2, e, notified, io);
    assert RowMatches(c, w1.id);
    RewriteAdvances(c, c2, w1);
  }

  /**
   The step from c to c2 keeps the invariant, undoes nothing, and rewrites only this live watch,
   stamping it with `now` and counting `polls` more polls; only a refused write is lost.
   */
  ghost predicate Steps(c: Core, cfg: Config, c2: Core, id: string, now: Time, polls: nat, io: bool) {
    && Inv(c2, cfg) && Advances(c, c2)
    && id in c2.watches && c2.watches[id].id == id
    && Rewrites(c, c2, c2.watches[id])
    && c2.closed == c.closed && c2.idSeq == c.idSeq
    && c2.watches[id].updatedAt == now
    && c2.watches[id].pollsDone == c.watches[id].pollsDone + polls
    && c2.lost == (if io then c.lost - {id} else c.lost + {id})
  }

  lemma LiveMeansOpen(c: Core, cfg: Config, id: string)
    requires Inv(c, cfg) && Live(c, id)
    ensures !c.closed
  {
    assert WatchIndexed(c, id);
  }

  lemma SectionSteps(c: Core, cfg: Config, w1: Watch, c2: Core, e: Option<Commit>, notified: bool, io: bool)
    requires Inv(c, cfg) && Section(c, cfg, w1, c2, e, notified, io)
    ensures Inv(c2, cfg) && Advances(c, c2) && w1.id in c2.watches && c2.watches[w1.id] == w1
  {
    LiveMeansOpen(c, cfg, w1.id);
    SectionSound(c, cfg, w1, c2, e, notified, io);
  }

  // ===== a commit as such a section =====

  /** The watch a commit leaves behind. */
  ghost function Left(w: Watch, intended: WatchStatus, now: Time, io: bool): Watch {
    if io then w else Degraded(w, intended, now)
  }

  ghost predicate Logged(c1: Core, c2: Core) {
    c2 == c1.(hist := c2.hist, sent := c2.sent, done := c2.done)
  }

  lemma CommitSection(c: Core, cfg: Config, w: Watch, intended: WatchStatus, now: Time, io: bool, c1: Core, c2: Core,
                      e: Option<Commit>, notified: bool)
    requires Live(c, w.id) && Follows(c.watches[w.id], w)
    requires WellShaped(w, cfg) && !StrayHint(w) && w.status == intended && w.startedAt <= now && w.updatedAt == now
    requires Committed(c, c1, io, w, intended, now) && Logged(c1, c2)
    requires DoneFits(c, c2, Left(w, intended, now, io))
    requires LogsOnly(c, c2, w.id, e, notified) && Fits(c.watches[w.id], Left(w, intended, now, io), e, notified)
    ensures Section(c, cfg, Left(w, intended, now, io), c2, e, notified, io)
  {
    DegradedShaped(w, cfg, intended, now);
  }

  // ===== finishLocked =====

  ghost function FinishLog(c: Core, id: string, escalated: bool): Core {
    if escalated then Log(c, UpstreamFailed(id)) else c
  }

  ghost function FinishEntry(id: string, escalated: bool): Option<Commit> {
    if escalated then Some(UpstreamFailed(id)) else None
  }

  lemma FinishForm(c: Core, cfg: Config, w: Watch, status: WatchStatus, reason: Option<FailureReason>, now: Time,
          errText: string, hint: Option<string>, io: bool, escalated: bool)
    requires w.resourceURI == Some(ResourceURI(w.id)) && w.startedAt <= now
    requires var wE := Ended(w, status, reason, now, errText, hint);
      && Live(c, w.id) && Follows(c.watches[w.id], wE) && WellShaped(wE, cfg) && !StrayHint(wE)
      && Committed(c, CommitWatch(c, wE, status, now, io).0, io, wE, status, now)
    requires w.upstreamFailureCount == c.watches[w.id].upstreamFailureCount + if escalated then 1 else 0
    ensures Section(c, cfg, Left(Ended(w, status, reason, now, errText, hint), status, now, io),
                    FinishLog(Finish(c, w, status, reason, now, errText, hint, io), w.id, escalated),
                    FinishEntry(w.id, escalated), true, io)
  {
    var wE := Ended(w, status, reason, now, errText, hint);
    CommitSection(c, cfg, wE, status, now, io, CommitWatch(c, wE, status, now, io).0,
                  FinishLog(Finish(c, w, status, reason, now, errText, hint, io), w.id, escalated),
                  FinishEntry(w.id, escalated), true);
  }

  lemma FinishSteps(c: Core, cfg: Config, w: Watch, status: WatchStatus, reason: Option<FailureReason>, now: Time,
          errText: string, hint: Option<string>, io: bool, escalated: bool)
    requires Inv(c, cfg) && Live(c, w.id) && Draft(w, cfg) && Follows(c.watches[w.id], w)
    requires EndsWell(w, status, reason, hint) && w.startedAt <= now
    requires w.upstreamFailureCount == c.watches[w.id].upstreamFailureCount + if escalated then 1 else 0
    ensures var c2 := FinishLog(Finish(c, w, status, reason, now, errText, hint, io), w.id, escalated);
      && Steps(c, cfg, c2, w.id, now, w.pollsDone - c.watches[w.id].pollsDone, io)
      && c2.watches[w.id] == Left(Ended(w, status, reason, now, errText, hint), status, now, io)
  {
    var wE := Ended(w, status, reason, now, errText, hint);
    EndedShaped(w, cfg, status, reason, now, errText, hint);
    CommitRewrites(c, wE, status, now, io);
    FinishForm(c, cfg, w, status, reason, now, errText, hint, io, escalated);
    SectionSteps(c, cfg, Left(wE, status, now, io),
                 FinishLog(Finish(c, w, status, reason, now, errText, hint, io), w.id, escalated),
                     FinishEntry(w.id, escalated), true, io);
  }
}
