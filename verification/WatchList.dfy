/** What List returns: memory and the limited row query merged, sorted and cut. */
module WatchList {
  import opened Base
  import opened Domain
  import opened Store
  import opened WatchCore
  import opened Sorting

  datatype ListOptions = ListOptions(owner: string, repo: string, pr: int, activeOnly: bool, limit: int)

  const DEFAULT_LIMIT: nat := 20

  function LimitOf(opts: ListOptions): (n: nat)
    ensures n > 0
  {
    if opts.limit <= 0 then DEFAULT_LIMIT else opts.limit
  }

  /** matchesListOptions, with the login both sources are asked for. */
  predicate Matches(login: string, opts: ListOptions, key: WatchKey, terminal: bool) {
    && key.login == login
    && (opts.owner != "" ==> key.owner == opts.owner)
    && (opts.repo != "" ==> key.repo == opts.repo)
    && (opts.pr > 0 ==> key.pr == opts.pr)
    && (opts.activeOnly ==> !terminal)
  }

  // ----- the row query -----

  /** A row with its rowid. */
  datatype Row = Row(n: nat, e: WatchEntry)

  function Selected(rows: seq<WatchEntry>, login: string, opts: ListOptions): (r: seq<Row>)
    ensures forall x :: x in r <==>
      && x.n < |rows| && rows[x.n] == x.e && x.e.key.login == login
      && (opts.owner == "" || x.e.key.owner == opts.owner) && (opts.repo == "" || x.e.key.repo == opts.repo)
      && (opts.pr <= 0 || x.e.key.pr == opts.pr) && (opts.activeOnly ==> x.e.isActive)
    ensures forall i, j :: 0 <= i < j < |r| ==> r[i].n < r[j].n
  {
    if rows == [] then []
    else
      var n := |rows| - 1;
      var r := Selected(rows[..n], login, opts);
      if Matches(login, opts, rows[n].key, !rows[n].isActive) then r + [Row(n, rows[n])] else r
  }

  /** is_active, updated_at, started_at, each descending. */
  predicate EntryBefore(a: WatchEntry, b: WatchEntry) {
    if a.isActive != b.isActive then a.isActive
    else if a.updatedAt != b.updatedAt then a.updatedAt > b.updatedAt
    else a.startedAt > b.startedAt
  }

  /** The query's whole order; ties go to the higher rowid. */
  predicate QueryBefore(a: Row, b: Row) {
    EntryBefore(a.e, b.e) || (!EntryBefore(b.e, a.e) && a.n > b.n)
  }

  function Queried(rows: seq<WatchEntry>, login: string, opts: ListOptions): seq<Row> {
    SortBy(Selected(rows, login, opts), QueryBefore)
  }

  /** ListReviewWatches */
  function ListRows(rows: seq<WatchEntry>, login: string, opts: ListOptions): seq<Row> {
    Take(Queried(rows, login, opts), LimitOf(opts))
  }

  // ----- the merge -----

  function InMemory(c: Core, login: string, opts: ListOptions): (m: map<string, Snapshot>) {
    map id | id in c.watches && Matches(login, opts, c.watches[id].key, c.watches[id].terminal) ::
        SnapshotOf(c.watches[id])
  }

  /** Rows are added unless their ID is already there. */
  function Merged(m: map<string, Snapshot>, rows: seq<Row>): (r: map<string, Snapshot>)
    ensures forall id :: id in r <==> id in m || exists x :: x in rows && x.e.id == id
    ensures forall id :: id in m ==> r[id] == m[id]
    ensures forall id :: id in r && id !in m ==> exists x :: x in rows && x.e.id == id && r[id] == SnapshotOfEntry(x.e)
  {
    if rows == [] then m
    else
      var n := |rows| - 1;
      var r := Merged(m, rows[..n]);
      assert rows == rows[..n] + [rows[n]];
      if rows[n].e.id in r then r else r[rows[n].e.id := SnapshotOfEntry(rows[n].e)]
  }

  /** The comparator of List. */
  predicate SnapshotBefore(a: Snapshot, b: Snapshot) {
    if a.terminal != b.terminal then !a.terminal
    else if a.updatedAt != b.updatedAt then a.updatedAt > b.updatedAt
    else if a.startedAt != b.startedAt then a.startedAt > b.startedAt
    else TextLess(b.watchID, a.watchID)
  }

  /** The comparator is a strict order, and total on different watches. */
  lemma SnapshotOrder()
    ensures StrictOrder(SnapshotBefore)
    ensures forall a: Snapshot, b: Snapshot {:trigger SnapshotBefore(a, b)} ::
      a.watchID != b.watchID ==> SnapshotBefore(a, b) || SnapshotBefore(b, a)
  {
    TextOrder();
  }

  lemma RowOrder()
    ensures StrictOrder(QueryBefore)
  {
  }

  ghost function SeqOf(s: set<Snapshot>): (r: seq<Snapshot>)
    ensures multiset(r) == multiset(s)
  {
    if s == {} then []
    else
      var x :| x in s;
      assert s == {x} + (s - {x});
      [x] + SeqOf(s - {x})
  }

  /** The values in order, cut at the limit. */
  ghost function Listing(m: map<string, Snapshot>, limit: nat): seq<Snapshot> {
    Take(SortBy(SeqOf(m.Values), SnapshotBefore), limit)
  }

  /** What List sorts: memory, and of the rows only what the limited query returned. */
  ghost function Candidates(c: Core, login: string, opts: ListOptions): map<string, Snapshot> {
    Merged(InMemory(c, login, opts), ListRows(c.rows, login, opts))
  }

  lemma SetSeq(s: set<Snapshot>)
    ensures forall x :: x in SeqOf(s) <==> x in s
  {
    forall x ensures x in SeqOf(s) <==> x in s {
      assert x in SeqOf(s) <==> x in multiset(SeqOf(s));
      assert multiset(SeqOf(s))[x] == multiset(s)[x];
    }
  }

  ghost predicate OwnIDs(m: map<string, Snapshot>) {
    forall id :: id in m ==> m[id].watchID == id
  }

  lemma ValuesComparable(m: map<string, Snapshot>)
    requires OwnIDs(m)
    ensures Comparable(SeqOf(m.Values), SnapshotBefore)
  {
    SetSeq(m.Values);
    SnapshotOrder();
  }

  lemma ValuesWithout(m: map<string, Snapshot>, id: string)
    requires OwnIDs(m) && id in m
    ensures OwnIDs(m - {id}) && m.Values == (m - {id}).Values + {m[id]} && m[id] !in (m - {id}).Values
  {
    var less := m - {id};
    forall x | x in m.Values ensures x in less.Values + {m[id]} {
      var k :| k in m && m[k] == x;
      assert k != id ==> k in less && less[k] == x;
    }
    assert forall k :: k in less ==> less[k].watchID == k && k in m && m[k] == less[k];
  }

  /** However the values were collected, sorting and cutting them gives the listing. */
  lemma ListingOf(m: map<string, Snapshot>, s: seq<Snapshot>, limit: nat)
    requires OwnIDs(m) && multiset(s) == multiset(m.Values)
    ensures Take(SortBy(s, SnapshotBefore), limit) == Listing(m, limit)
  {
    ValuesComparable(m);
    SnapshotOrder();
    SortUnique(s, SeqOf(m.Values), SnapshotBefore);
  }

  // ----- what a client gets -----

  /**
   What was asked for: the caller's own watches, of this owner, repository and pull request if given, live
   ones if so asked.
   */
  ghost predicate Asked(s: Snapshot, login: string, opts: ListOptions) {
    && s.key.login == login
    && (opts.owner == "" || s.key.owner == opts.owner) && (opts.repo == "" || s.key.repo == opts.repo)
    && (opts.pr <= 0 || s.key.pr == opts.pr) && (opts.activeOnly ==> !s.terminal)
  }

  /** Live watches first, then the last updated, then the last started, then the greatest ID. */
  ghost predicate Precedes(a: Snapshot, b: Snapshot) {
    || (!a.terminal && b.terminal)
    || (a.terminal == b.terminal && a.updatedAt > b.updatedAt)
    || (a.terminal == b.terminal && a.updatedAt == b.updatedAt && a.startedAt > b.startedAt)
    || (a.terminal == b.terminal && a.updatedAt == b.updatedAt && a.startedAt == b.startedAt
        && TextLess(b.watchID, a.watchID))
  }

  /** One listed snapshot is a watch in memory, or a row whose watch is not listed from memory. */
  ghost predicate ListedFrom(c: Core, s: Snapshot, login: string, opts: ListOptions) {
    if s.watchID in c.watches && Asked(SnapshotOf(c.watches[s.watchID]), login, opts)
        then s == SnapshotOf(c.watches[s.watchID])
    else exists e :: e in c.rows && e.id == s.watchID && s == SnapshotOfEntry(e)
  }

  /** The whole answer of List. */
  ghost predicate ListAnswers(c: Core, login: string, opts: ListOptions, r: seq<Snapshot>) {
    var n := if opts.limit > 0 then opts.limit else 20;
    && |r| <= n
    && (forall i, j :: 0 <= i < j < |r| ==> Precedes(r[i], r[j]))
    && (forall s :: s in r ==> Asked(s, login, opts) && ListedFrom(c, s, login, opts))
    && (forall id :: id in c.watches && Asked(SnapshotOf(c.watches[id]), login, opts) ==>
          || SnapshotOf(c.watches[id]) in r
          || (|r| == n && forall s :: s in r ==> Precedes(s, SnapshotOf(c.watches[id]))))
  }

  lemma PrecedesIsBefore(a: Snapshot, b: Snapshot)
    ensures Precedes(a, b) <==> SnapshotBefore(a, b)
  {
  }

  lemma CandidateAnswers(c: Core, login: string, opts: ListOptions, id: string)
    requires id in Candidates(c, login, opts) && forall x :: x in c.watches ==> c.watches[x].id == x
    ensures var s := Candidates(c, login, opts)[id];
      s.watchID == id && Asked(s, login, opts) && ListedFrom(c, s, login, opts)
  {
    var q := ListRows(c.rows, login, opts);
    if id !in InMemory(c, login, opts) {
      var x :| x in q && x.e.id == id && Candidates(c, login, opts)[id] == SnapshotOfEntry(x.e);
      SameElements(Queried(c.rows, login, opts), Selected(c.rows, login, opts));
      assert x in Selected(c.rows, login, opts);
      assert x.e in c.rows;
    }
  }

  lemma ListingAscends(m: map<string, Snapshot>)
    requires OwnIDs(m)
    ensures Ascending(SortBy(SeqOf(m.Values), SnapshotBefore), SnapshotBefore)
    ensures forall s :: s in SortBy(SeqOf(m.Values), SnapshotBefore) <==> s in m.Values
  {
    var all := SeqOf(m.Values);
    SnapshotOrder();
    ValuesComparable(m);
    SetSeq(m.Values);
    SameElements(SortBy(all, SnapshotBefore), all);
    forall x ensures multiset(all)[x] <= 1 { assert multiset(all)[x] == multiset(m.Values)[x]; }
    SortAscends(all, SnapshotBefore);
  }

  lemma ListedAnswers(c: Core, login: string, opts: ListOptions, s: Snapshot)
    requires forall x :: x in c.watches ==> c.watches[x].id == x
    requires s in Candidates(c, login, opts).Values
    ensures Asked(s, login, opts) && ListedFrom(c, s, login, opts)
  {
    var m := Candidates(c, login, opts);
    var id :| id in m && m[id] == s;
    CandidateAnswers(c, login, opts, id);
  }

  lemma CandidatesOwnIDs(c: Core, login: string, opts: ListOptions)
    requires forall x :: x in c.watches ==> c.watches[x].id == x
    ensures OwnIDs(Candidates(c, login, opts))
  {
    var m := Candidates(c, login, opts);
    forall id | id in m ensures m[id].watchID == id { CandidateAnswers(c, login, opts, id); }
  }

  /** List gives the caller what was asked for, in order, and leaves out only what a full list has no room for. */
  lemma ListingAnswers(c: Core, login: string, opts: ListOptions)
    requires forall x :: x in c.watches ==> c.watches[x].id == x
    ensures ListAnswers(c, login, opts, Listing(Candidates(c, login, opts), LimitOf(opts)))
  {
    var r := Listing(Candidates(c, login, opts), LimitOf(opts));
    CandidatesOwnIDs(c, login, opts);
    ListingAscends(Candidates(c, login, opts));
    TakeAscends(SortBy(SeqOf(Candidates(c, login, opts).Values), SnapshotBefore), LimitOf(opts), SnapshotBefore);
    forall i, j | 0 <= i < j < |r| ensures Precedes(r[i], r[j]) { PrecedesIsBefore(r[i], r[j]); }
    forall s | s in r ensures Asked(s, login, opts) && ListedFrom(c, s, login, opts) {
      ListedAnswers(c, login, opts, s);
    }
    forall id | id in c.watches && Asked(SnapshotOf(c.watches[id]), login, opts)
      ensures var x := SnapshotOf(c.watches[id]);
        x in r || (|r| == LimitOf(opts) && forall s :: s in r ==> Precedes(s, x))
    {
      MemoryAnswers(c, login, opts, id);
    }
  }

  lemma MemoryAnswers(c: Core, login: string, opts: ListOptions, id: string)
    requires OwnIDs(Candidates(c, login, opts)) && id in c.watches && Asked(SnapshotOf(c.watches[id]), login, opts)
    ensures var r, x := Listing(Candidates(c, login, opts), LimitOf(opts)), SnapshotOf(c.watches[id]);
      x in r || (|r| == LimitOf(opts) && forall s :: s in r ==> Precedes(s, x))
  {
    var m, x := Candidates(c, login, opts), SnapshotOf(c.watches[id]);
    assert id in InMemory(c, login, opts) && m[id] == x;
    ListingAscends(m);
    TakenOrBehind(SortBy(SeqOf(m.Values), SnapshotBefore), LimitOf(opts), x, SnapshotBefore);
    forall s | SnapshotBefore(s, x) ensures Precedes(s, x) { PrecedesIsBefore(s, x); }
  }

  /**
   The query: live rows first, then the last updated, then the last started, then the last inserted; the limit
   cuts the end.
   */
  lemma FetchedInOrder(rows: seq<WatchEntry>, login: string, opts: ListOptions, i: nat, j: nat)
    requires i < j < |ListRows(rows, login, opts)|
    ensures var q := ListRows(rows, login, opts);
      var (a, b) := (q[i].e, q[j].e);
      && (b.isActive ==> a.isActive)
      && (a.isActive == b.isActive ==> a.updatedAt >= b.updatedAt)
      && (a.isActive == b.isActive && a.updatedAt == b.updatedAt ==> a.startedAt >= b.startedAt)
      && (a.isActive == b.isActive && a.updatedAt == b.updatedAt && a.startedAt == b.startedAt ==> q[i].n >= q[j].n)
  {
    var s := Selected(rows, login, opts);
    RowOrder();
    assert Comparable(s, QueryBefore);
    SortSorted(s, QueryBefore);
    assert !QueryBefore(Queried(rows, login, opts)[j], Queried(rows, login, opts)[i]);
  }
}
