/** The database object: its statements change the two tables in place. */
module Database {
  import opened Base
  import opened Domain
  import opened Store

  /** `io` says whether the statement itself succeeds; a failed statement changes nothing. */
  class DB {
    var triggers: seq<Trigger>
    var watches: seq<WatchEntry>

    /** Opens existing tables and runs the restart recovery. */
    constructor (triggers: seq<Trigger>, watches: seq<WatchEntry>, now: Time)
      ensures this.triggers == triggers
      ensures this.watches == Recover(watches, now, STALE_ON_OPEN)
    {
      this.triggers := triggers;
      this.watches := watches;
      new;
      var _ := MarkActiveReviewWatchesStale(STALE_ON_OPEN, now);
    }

    method MarkActiveReviewWatchesStale(lastError: string, now: Time) returns (affected: nat)
      modifies this`watches
      ensures watches == Recover(old(watches), now, lastError)
      ensures affected == |set i | 0 <= i < |old(watches)| && old(watches)[i].isActive|
    {
      affected := |set i | 0 <= i < |watches| && watches[i].isActive|;
      watches := Recover(watches, now, lastError);
    }

    method Insert(pr: PullRequest, kind: string, now: Time, io: bool) returns (id: Option<int>)
      modifies this`triggers
      ensures id.Some? <==> io
      ensures io ==> triggers == Inserted(old(triggers), pr, kind, now, None) && id.value == |triggers|
      ensures io ==> triggers == old(triggers) + [Trigger(|triggers|, pr, kind, ToSecond(now), None, None)]
      ensures !io ==> triggers == old(triggers)
    {
      if !io { return None; }
      triggers := Inserted(triggers, pr, kind, now, None);
      return Some(|triggers|);
    }

    method InsertWithPrevReviewID(pr: PullRequest, kind: string, requestedAt: Time, prevReviewID: string, io: bool)
      returns (id: Option<int>)
      modifies this`triggers
      ensures id.Some? <==> io
      ensures io ==>
        triggers == Inserted(old(triggers), pr, kind, requestedAt, Some(prevReviewID)) && id.value == |triggers|
      ensures io ==>
        triggers == old(triggers) + [Trigger(|triggers|, pr, kind, ToSecond(requestedAt), None, Some(prevReviewID))]
      ensures !io ==> triggers == old(triggers)
    {
      if !io { return None; }
      triggers := Inserted(triggers, pr, kind, requestedAt, Some(prevReviewID));
      return Some(|triggers|);
    }

    method UpdateCompletedAt(id: int, now: Time, io: bool) returns (ok: bool)
      modifies this`triggers
      ensures ok == io
      ensures triggers == if io then WithCompleted(old(triggers), id, now) else old(triggers)
    {
      if io { triggers := WithCompleted(triggers, id, now); }
      return io;
    }

    /** None is a failed read. */
    method GetLatest(pr: PullRequest, io: bool) returns (r: Option<Option<Trigger>>)
      requires TriggerIDs(triggers)
      ensures r == if io then Some(LatestTrigger(triggers, pr)) else None
    {
      r := if io then Some(LatestTrigger(triggers, pr)) else None;
    }

    method GetReviewWatchByID(id: string, io: bool) returns (r: Option<Option<WatchEntry>>)
      ensures r.Some? <==> io
      ensures io ==> r.value == RowByID(watches, id)
    {
      r := if io then Some(RowByID(watches, id)) else None;
    }

    method GetLatestReviewWatch(key: WatchKey, io: bool) returns (r: Option<Option<WatchEntry>>)
      ensures r.Some? <==> io
      ensures io ==> r.value == LatestEntry(watches, key)
    {
      r := if io then Some(LatestEntry(watches, key)) else None;
    }

    method UpsertReviewWatch(entry: WatchEntry, io: bool) returns (ok: bool)
      modifies this`watches
      ensures ok == (io && Upsert(old(watches), entry).Some?)
      ensures watches == if ok then Upsert(old(watches), entry).value else old(watches)
    {
      var rows := Upsert(watches, entry);
      ok := io && rows.Some?;
      if ok { watches := rows.value; }
    }
  }
}
