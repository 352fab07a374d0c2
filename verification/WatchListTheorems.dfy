/** List against the whole union of memory and table. */
module WatchListTheorems {
  import opened Base
  import opened Domain
  import opened Store
  import opened WatchCore
  import opened WatchInvariant
  import opened WatchSections
  import opened WatchSystem
  import opened WatchTheorems
  import opened Sorting
  import opened WatchList

  // ----- the whole union -----

  ghost function SnapshotFor(c: Core, id: string): Snapshot
    requires id in c.watches || Find(c.rows, id) < |c.rows|
  {
    if id in c.watches then SnapshotOf(c.watches[id]) else SnapshotOfEntry(c.rows[Find(c.rows, id)])
  }

  ghost function KnownIDs(c: Core): set<string> {
    c.watches.Keys + set e | e in c.rows :: e.id
  }

  lemma KnownID(c: Core, id: string)
    ensures id in KnownIDs(c) <==> id in c.watches || Find(c.rows, id) < |c.rows|
  {
  }

  ghost predicate Listable(c: Core, id: string, login: string, opts: ListOptions) {
    && (id in c.watches || Find(c.rows, id) < |c.rows|)
    && Matches(login, opts, SnapshotFor(c, id).key, SnapshotFor(c, id).terminal)
  }

  /** Every matching watch of memory and table, memory shadowing the table. */
  ghost function Union(c: Core, login: string, opts: ListOptions): (m: map<string, Snapshot>)
    ensures forall id :: id in m <==> Listable(c, id, login, opts)
    ensures forall id :: id in m ==> Listable(c, id, login, opts) && m[id] == SnapshotFor(c, id)
  {
    assert forall id :: Listable(c, id, login, opts) ==> id in KnownIDs(c) by {
      forall id ensures Listable(c, id, login, opts) ==> id in KnownIDs(c) { KnownID(c, id); }
    }
    map id | id in KnownIDs(c) && Listable(c, id, login, opts) :: SnapshotFor(c, id)
  }

  // ----- memory and rows -----

  /** No write is lost, or the client does not ask for active watches only, which is all a lost write can hide. */
  ghost predicate Undisturbed(c: Core, opts: ListOptions) {
    c.lost == {} || !opts.activeOnly
  }

  /** Undisturbed, a matching row of a watch in memory is of a matching watch. */
  lemma RowOfWatch(c: Core, cfg: Config, x: Row, login: string, opts: ListOptions)
    requires Inv(c, cfg) && Undisturbed(c, opts) && x in Selected(c.rows, login, opts)
    ensures Find(c.rows, x.e.id) == x.n
    ensures x.e.id in c.watches ==> x.e.id in InMemory(c, login, opts)
    ensures x.e.id in c.watches && x.e.id !in c.lost ==> x.e == Stored(EntryOf(c.watches[x.e.id]))
  {
    var id := x.e.id;
    var i := Find(c.rows, id);
    assert RowsApart(c.rows, i, x.n);
    assert RowMatches(c, id) && WatchIndexed(c, id);
  }

  lemma CandidatesAreListable(c: Core, cfg: Config, login: string, opts: ListOptions, id: string)
    requires Inv(c, cfg) && Undisturbed(c, opts) && id in Candidates(c, login, opts)
    ensures Listable(c, id, login, opts) && Candidates(c, login, opts)[id] == SnapshotFor(c, id)
  {
    var m := InMemory(c, login, opts);
    if id !in m {
      var q := ListRows(c.rows, login, opts);
      var x :| x in q && x.e.id == id && Candidates(c, login, opts)[id] == SnapshotOfEntry(x.e);
      FetchedSelected(c.rows, login, opts, x);
      RowOfWatch(c, cfg, x, login, opts);
    }
  }

  lemma FetchedSelected(rows: seq<WatchEntry>, login: string, opts: ListOptions, x: Row)
    requires x in ListRows(rows, login, opts)
    ensures x in Selected(rows, login, opts)
  {
    SameElements(Queried(rows, login, opts), Selected(rows, login, opts));
  }

  lemma FirstRowsFetched(rows: seq<WatchEntry>, login: string, opts: ListOptions, i: nat)
    requires i < |Queried(rows, login, opts)| && i < LimitOf(opts)
    ensures Queried(rows, login, opts)[i] in ListRows(rows, login, opts)
  {
    assert ListRows(rows, login, opts)[i] == Queried(rows, login, opts)[i];
  }

  lemma UnfetchedRow(rows: seq<WatchEntry>, login: string, opts: ListOptions, x: Row) returns (k: nat)
    requires x in Selected(rows, login, opts) && x !in ListRows(rows, login, opts)
    ensures LimitOf(opts) <= k < |Queried(rows, login, opts)| && Queried(rows, login, opts)[k] == x
  {
    var q := Queried(rows, login, opts);
    SameElements(q, Selected(rows, login, opts));
    forall i | 0 <= i < |q| && i < LimitOf(opts) ensures q[i] != x {
      FirstRowsFetched(rows, login, opts, i);
    }
    k :| 0 <= k < |q| && q[k] == x;
  }

  /** A listable watch that List does not see is a row behind the query's limit. */
  lemma UnseenRow(c: Core, cfg: Config, login: string, opts: ListOptions, id: string) returns (k: nat)
    requires Inv(c, cfg) && Undisturbed(c, opts) && Listable(c, id, login, opts) && id !in Candidates(c, login, opts)
    ensures id !in c.watches
    ensures LimitOf(opts) <= k < |Queried(c.rows, login, opts)|
    ensures Queried(c.rows, login, opts)[k].e.id == id
    ensures SnapshotFor(c, id) == SnapshotOfEntry(Queried(c.rows, login, opts)[k].e)
  {
    var i := Find(c.rows, id);
    var x := Row(i, c.rows[i]);
    k := UnfetchedRow(c.rows, login, opts, x);
  }

  // ----- exactly when List is the head of the union -----

  lemma UnionOwnIDs(c: Core, cfg: Config, login: string, opts: ListOptions)
    requires Inv(c, cfg)
    ensures OwnIDs(Union(c, login, opts))
  {
    forall id | id in Union(c, login, opts) ensures Union(c, login, opts)[id].watchID == id {
      assert WatchIndexed(c, id);
    }
  }

  lemma CandidateValues(c: Core, cfg: Config, login: string, opts: ListOptions)
    requires Inv(c, cfg) && Undisturbed(c, opts)
    ensures Candidates(c, login, opts).Values <= Union(c, login, opts).Values
  {
    var cand, union := Candidates(c, login, opts), Union(c, login, opts);
    forall x | x in cand.Values ensures x in union.Values {
      var id :| id in cand && cand[id] == x;
      CandidatesAreListable(c, cfg, login, opts, id);
      assert id in union && union[id] == x;
    }
  }

  lemma SetSeqOnce(a: set<Snapshot>, b: set<Snapshot>, x: Snapshot)
    requires a <= b
    ensures multiset(SeqOf(b))[x] <= 1 && multiset(SeqOf(a))[x] <= multiset(SeqOf(b))[x]
  {
    assert multiset(SeqOf(a))[x] == multiset(a)[x] && multiset(SeqOf(b))[x] == multiset(b)[x];
  }

  /** The watches that List sees and that come before this one. */
  ghost function SeenBefore(c: Core, login: string, opts: ListOptions, x: Snapshot): set<Snapshot> {
    set y | y in Candidates(c, login, opts).Values && SnapshotBefore(y, x)
  }

  /** Every watch that List does not see has as many watches before it that List sees as List may return. */
  ghost predicate UnseenAreLate(c: Core, login: string, opts: ListOptions) {
    forall id :: Listable(c, id, login, opts) && id !in Candidates(c, login, opts) ==>
      |SeenBefore(c, login, opts, SnapshotFor(c, id))| >= LimitOf(opts)
  }

  /** A watch of the union is seen exactly if its snapshot is among the candidates. */
  lemma SeenByValue(c: Core, cfg: Config, login: string, opts: ListOptions, id: string)
    requires Inv(c, cfg) && Undisturbed(c, opts) && Listable(c, id, login, opts)
    ensures SnapshotFor(c, id) in Candidates(c, login, opts).Values <==> id in Candidates(c, login, opts)
  {
    var cand := Candidates(c, login, opts);
    UnionOwnIDs(c, cfg, login, opts);
    assert id in Union(c, login, opts);
    if id in cand { CandidatesAreListable(c, cfg, login, opts, id); }
    if SnapshotFor(c, id) in cand.Values {
      var other :| other in cand && cand[other] == SnapshotFor(c, id);
      CandidatesAreListable(c, cfg, login, opts, other);
      assert other in Union(c, login, opts);
    }
  }

  /** Everything in b and not in a has n elements of a before it. */
  ghost predicate OthersAreLate(a: set<Snapshot>, b: set<Snapshot>, n: nat) {
    forall x :: x in b && x !in a ==> |set y | y in a && SnapshotBefore(y, x)| >= n
  }

  /** Cutting after n gives the same from a as from b exactly if what a lacks is late. */
  lemma PartListing(a: set<Snapshot>, b: set<Snapshot>, n: nat)
    requires a <= b && Comparable(SeqOf(b), SnapshotBefore)
    ensures Take(SortBy(SeqOf(a), SnapshotBefore), n) == Take(SortBy(SeqOf(b), SnapshotBefore), n) <==>
            OthersAreLate(a, b, n)
  {
    SnapshotOrder();
    SetSeq(a);
    SetSeq(b);
    forall x ensures multiset(SeqOf(b))[x] <= 1 && multiset(SeqOf(a))[x] <= multiset(SeqOf(b))[x] {
      SetSeqOnce(a, b, x);
    }
    PartialSortExactly(SeqOf(b), SeqOf(a), n, SnapshotBefore);
    forall x ensures Ahead(SeqOf(a), x, SnapshotBefore) == (set y | y in a && SnapshotBefore(y, x)) { }
  }

  /** Two sets give the same cut exactly if what only one of them has is late in both. */
  lemma TwoListings(a: set<Snapshot>, b: set<Snapshot>, n: nat)
    requires Comparable(SeqOf(a), SnapshotBefore) && Comparable(SeqOf(b), SnapshotBefore)
    ensures Take(SortBy(SeqOf(a), SnapshotBefore), n) == Take(SortBy(SeqOf(b), SnapshotBefore), n) <==>
            OthersAreLate(a * b, a, n) && OthersAreLate(a * b, b, n)
  {
    PartListing(a * b, a, n);
    PartListing(a * b, b, n);
    if Take(SortBy(SeqOf(a), SnapshotBefore), n) == Take(SortBy(SeqOf(b), SnapshotBefore), n) {
      CommonCut(a, b, n);
    }
  }

  /** An agreed cut lies in both sets, so sorting what they have in common gives it too. */
  lemma CommonCut(a: set<Snapshot>, b: set<Snapshot>, n: nat)
    requires Comparable(SeqOf(a), SnapshotBefore) && Comparable(SeqOf(b), SnapshotBefore)
    requires Take(SortBy(SeqOf(a), SnapshotBefore), n) == Take(SortBy(SeqOf(b), SnapshotBefore), n)
    ensures Take(SortBy(SeqOf(a * b), SnapshotBefore), n) == Take(SortBy(SeqOf(a), SnapshotBefore), n)
  {
    var s, part := SortBy(SeqOf(a), SnapshotBefore), SeqOf(a * b);
    SharedHead(SeqOf(a), SeqOf(b), n, SnapshotBefore);
    SetSeq(a);
    SetSeq(b);
    SetSeq(a * b);
    assert HeadIn(s, n, part);
    SnapshotOrder();
    forall x ensures multiset(SeqOf(a))[x] <= 1 && multiset(part)[x] <= multiset(SeqOf(a))[x] {
      SetSeqOnce(a * b, a, x);
    }
    TakesAgree(SeqOf(a), part, n, SnapshotBefore);
  }

  lemma CandidateOwnIDs(c: Core, cfg: Config, login: string, opts: ListOptions)
    requires Inv(c, cfg)
    ensures OwnIDs(Candidates(c, login, opts))
  {
    var cand := Candidates(c, login, opts);
    forall id | id in cand ensures cand[id].watchID == id { assert WatchIndexed(c, id); }
  }

  /**
   In every state, lost writes or not: List is the head of the union exactly if what only one of the
   candidates and the union has, is behind as many that both have as List may return.
   */
  lemma ListAgreesExactly(c: Core, cfg: Config, login: string, opts: ListOptions)
    requires Inv(c, cfg)
    ensures var a, b, n := Candidates(c, login, opts).Values, Union(c, login, opts).Values, LimitOf(opts);
      Listing(Candidates(c, login, opts), n) == Listing(Union(c, login, opts), n) <==>
      OthersAreLate(a * b, a, n) && OthersAreLate(a * b, b, n)
  {
    CandidateOwnIDs(c, cfg, login, opts);
    UnionOwnIDs(c, cfg, login, opts);
    ValuesComparable(Candidates(c, login, opts));
    ValuesComparable(Union(c, login, opts));
    TwoListings(Candidates(c, login, opts).Values, Union(c, login, opts).Values, LimitOf(opts));
  }

  lemma LateByValue(c: Core, cfg: Config, login: string, opts: ListOptions)
    requires Inv(c, cfg) && Undisturbed(c, opts) && UnseenAreLate(c, login, opts)
    ensures OthersAreLate(Candidates(c, login, opts).Values, Union(c, login, opts).Values, LimitOf(opts))
  {
    var a, union := Candidates(c, login, opts).Values, Union(c, login, opts);
    forall x | x in union.Values && x !in a ensures |set y | y in a && SnapshotBefore(y, x)| >= LimitOf(opts) {
      var id :| id in union && union[id] == x;
      SeenByValue(c, cfg, login, opts, id);
      assert SeenBefore(c, login, opts, x) == set y | y in a && SnapshotBefore(y, x);
    }
  }

  lemma LateByID(c: Core, cfg: Config, login: string, opts: ListOptions)
    requires Inv(c, cfg) && Undisturbed(c, opts)
    requires OthersAreLate(Candidates(c, login, opts).Values, Union(c, login, opts).Values, LimitOf(opts))
    ensures UnseenAreLate(c, login, opts)
  {
    var a, union := Candidates(c, login, opts).Values, Union(c, login, opts);
    forall id | Listable(c, id, login, opts) && id !in Candidates(c, login, opts)
      ensures |SeenBefore(c, login, opts, SnapshotFor(c, id))| >= LimitOf(opts)
    {
      var x := SnapshotFor(c, id);
      SeenByValue(c, cfg, login, opts, id);
      assert id in union && union[id] == x;
      assert SeenBefore(c, login, opts, x) == set y | y in a && SnapshotBefore(y, x);
    }
  }

  /**
   Although its row query is limited, List returns the first items of the full sorted union of memory
   and table exactly if every watch it does not see is behind enough that it sees; lost writes do not
   matter unless the client asks for active watches only.
   */
  lemma ListIsUnionPrefixExactly(c: Core, cfg: Config, login: string, opts: ListOptions)
    requires Inv(c, cfg) && Undisturbed(c, opts)
    ensures Listing(Candidates(c, login, opts), LimitOf(opts)) == Listing(Union(c, login, opts), LimitOf(opts)) <==>
            UnseenAreLate(c, login, opts)
  {
    var a, b, n := Candidates(c, login, opts).Values, Union(c, login, opts).Values, LimitOf(opts);
    UnionOwnIDs(c, cfg, login, opts);
    ValuesComparable(Union(c, login, opts));
    CandidateValues(c, cfg, login, opts);
    PartListing(a, b, n);
    if UnseenAreLate(c, login, opts) { LateByValue(c, cfg, login, opts); }
    if OthersAreLate(a, b, n) { LateByID(c, cfg, login, opts); }
  }

  // ----- the boundary of the query -----

  /**
   A row behind the limit that is no watch in memory, and ties with one that the limit lets through, has
   the lesser ID. A fetched row that is behind its watch in memory, as its last write was lost, does not
   count; that watch does.
   */
  ghost predicate TieAgrees(c: Core, q: seq<Row>, i: int, k: int, n: nat) {
    0 <= i < n <= k < |q| && q[k].e.id !in c.watches ==>
      if q[i].e.id in c.lost then SnapshotBefore(SnapshotByRow(c, q[i]), SnapshotOfEntry(q[k].e))
      else !EntryBefore(q[i].e, q[k].e) ==> TextLess(q[k].e.id, q[i].e.id)
  }

  ghost predicate TiesAgree(c: Core, login: string, opts: ListOptions) {
    forall i, k {:trigger TieAgrees(c, Queried(c.rows, login, opts), i, k, LimitOf(opts))} ::
      TieAgrees(c, Queried(c.rows, login, opts), i, k, LimitOf(opts))
  }

  lemma {:induction false} SelectedDistinct(rows: seq<WatchEntry>, login: string, opts: ListOptions)
    ensures Comparable(Selected(rows, login, opts), QueryBefore)
  {
  }

  /** No row comes strictly before one that is sorted earlier. */
  lemma QueriedOrder(rows: seq<WatchEntry>, login: string, opts: ListOptions, i: nat, k: nat)
    requires i < k < |Queried(rows, login, opts)|
    ensures !EntryBefore(Queried(rows, login, opts)[k].e, Queried(rows, login, opts)[i].e)
  {
    RowOrder();
    SelectedDistinct(rows, login, opts);
    SortSorted(Selected(rows, login, opts), QueryBefore);
    assert !QueryBefore(Queried(rows, login, opts)[k], Queried(rows, login, opts)[i]);
  }

  /**
   A row earlier in the query, or tied and with the greater ID, makes an earlier snapshot, even of a watch in
   memory.
   */
  lemma EarlierSnapshot(c: Core, cfg: Config, login: string, opts: ListOptions, y: Row, x: WatchEntry)
    requires Inv(c, cfg) && Undisturbed(c, opts) && y in Selected(c.rows, login, opts)
    requires y.e.id !in c.lost && (EntryBefore(y.e, x) || (!EntryBefore(x, y.e) && TextLess(x.id, y.e.id)))
    ensures Listable(c, y.e.id, login, opts) && SnapshotFor(c, y.e.id).watchID == y.e.id
    ensures SnapshotBefore(SnapshotFor(c, y.e.id), SnapshotOfEntry(x))
  {
    RowOfWatch(c, cfg, y, login, opts);
    assert WatchIndexed(c, y.e.id);
  }

  ghost function SnapshotByRow(c: Core, y: Row): Snapshot {
    if y.e.id in c.watches || Find(c.rows, y.e.id) < |c.rows| then SnapshotFor(c, y.e.id) else SnapshotOfEntry(y.e)
  }

  /** The snapshots of the rows the limit let through. */
  ghost function Front(c: Core, login: string, opts: ListOptions): (f: seq<Snapshot>)
    ensures |f| == |ListRows(c.rows, login, opts)|
    ensures forall i :: 0 <= i < |f| ==> f[i] == SnapshotByRow(c, ListRows(c.rows, login, opts)[i])
  {
    var q := ListRows(c.rows, login, opts);
    seq(|q|, i requires 0 <= i < |q| => SnapshotByRow(c, q[i]))
  }

  lemma FetchedCandidate(c: Core, cfg: Config, login: string, opts: ListOptions, y: Row)
    requires Inv(c, cfg) && Undisturbed(c, opts) && y in ListRows(c.rows, login, opts)
    ensures y in Selected(c.rows, login, opts) && y.e.id in Candidates(c, login, opts)
        && Listable(c, y.e.id, login, opts)
    ensures SnapshotFor(c, y.e.id) == Candidates(c, login, opts)[y.e.id] && SnapshotFor(c, y.e.id).watchID == y.e.id
  {
    FetchedSelected(c.rows, login, opts, y);
    CandidatesAreListable(c, cfg, login, opts, y.e.id);
    assert WatchIndexed(c, y.e.id);
  }

  lemma FrontRow(c: Core, cfg: Config, login: string, opts: ListOptions, i: nat)
    requires Inv(c, cfg) && Undisturbed(c, opts) && i < |ListRows(c.rows, login, opts)|
    ensures var y := ListRows(c.rows, login, opts)[i];
      && y == Queried(c.rows, login, opts)[i] && y in Selected(c.rows, login, opts)
      && y.e.id in Candidates(c, login, opts)
      && Listable(c, y.e.id, login, opts)
      && Front(c, login, opts)[i] == SnapshotFor(c, y.e.id) == Candidates(c, login, opts)[y.e.id]
      && Front(c, login, opts)[i].watchID == y.e.id
  {
    var q := ListRows(c.rows, login, opts);
    assert q[i] in q;
    FetchedCandidate(c, cfg, login, opts, q[i]);
    assert Front(c, login, opts)[i] == SnapshotByRow(c, q[i]);
  }

  lemma DistinctRows(c: Core, cfg: Config, login: string, opts: ListOptions, i: nat, j: nat)
    requires Inv(c, cfg) && i < j < |Queried(c.rows, login, opts)|
    ensures Queried(c.rows, login, opts)[i].e.id != Queried(c.rows, login, opts)[j].e.id
  {
    var q := Queried(c.rows, login, opts);
    RowOrder();
    SelectedDistinct(c.rows, login, opts);
    SameElements(q, Selected(c.rows, login, opts));
    assert q[i] in q && q[j] in q;
    SortDistinct(Selected(c.rows, login, opts), QueryBefore, i, j);
    assert RowsApart(c.rows, q[i].n, q[j].n);
  }

  lemma FrontDistinct(c: Core, cfg: Config, login: string, opts: ListOptions)
    requires Inv(c, cfg) && Undisturbed(c, opts)
    ensures forall i, j :: 0 <= i < j < |Front(c, login, opts)| ==> Front(c, login, opts)[i] != Front(c, login, opts)[j]
  {
    var front := Front(c, login, opts);
    forall i, j | 0 <= i < j < |front| ensures front[i] != front[j] {
      FrontRow(c, cfg, login, opts, i);
      FrontRow(c, cfg, login, opts, j);
      DistinctRows(c, cfg, login, opts, i, j);
    }
  }

  lemma FrontRowIsEarlier(c: Core, cfg: Config, login: string, opts: ListOptions, i: nat, k: nat)
    requires Inv(c, cfg) && Undisturbed(c, opts) && TiesAgree(c, login, opts)
    requires i < LimitOf(opts) <= k < |Queried(c.rows, login, opts)|
        && Queried(c.rows, login, opts)[k].e.id !in c.watches
    ensures Front(c, login, opts)[i] in SeenBefore(c, login, opts, SnapshotOfEntry(Queried(c.rows, login, opts)[k].e))
  {
    var q := Queried(c.rows, login, opts);
    FrontRow(c, cfg, login, opts, i);
    assert TieAgrees(c, q, i, k, LimitOf(opts));
    QueriedOrder(c.rows, login, opts, i, k);
    if q[i].e.id !in c.lost { EarlierSnapshot(c, cfg, login, opts, q[i], q[k].e); }
  }

  lemma TiesAgreeMeansLate(c: Core, cfg: Config, login: string, opts: ListOptions)
    requires Inv(c, cfg) && Undisturbed(c, opts) && TiesAgree(c, login, opts)
    ensures UnseenAreLate(c, login, opts)
  {
    forall id | Listable(c, id, login, opts) && id !in Candidates(c, login, opts)
      ensures |SeenBefore(c, login, opts, SnapshotFor(c, id))| >= LimitOf(opts)
    {
      var k := UnseenRow(c, cfg, login, opts, id);
      var front := Front(c, login, opts);
      forall i | 0 <= i < |front| ensures front[i] in SeenBefore(c, login, opts, SnapshotFor(c, id)) {
        FrontRowIsEarlier(c, cfg, login, opts, i, k);
      }
      FrontDistinct(c, cfg, login, opts);
      DistinctElements(front);
      assert Elems(front) <= SeenBefore(c, login, opts, SnapshotFor(c, id));
      SubsetCard(Elems(front), SeenBefore(c, login, opts, SnapshotFor(c, id)));
    }
  }

  /** So it does whenever the query's ties at its limit fall as the IDs do; without a tie in particular. */
  lemma ListIsUnionPrefix(c: Core, cfg: Config, login: string, opts: ListOptions)
    requires Inv(c, cfg) && Undisturbed(c, opts) && TiesAgree(c, login, opts)
    ensures Listing(Candidates(c, login, opts), LimitOf(opts)) == Listing(Union(c, login, opts), LimitOf(opts))
  {
    TiesAgreeMeansLate(c, cfg, login, opts);
    ListIsUnionPrefixExactly(c, cfg, login, opts);
  }

  // ----- nothing in memory: the condition on the rows is exact -----

  lemma AllSeenAreFront(c: Core, cfg: Config, login: string, opts: ListOptions)
    requires Inv(c, cfg) && c.watches == map[]
    ensures Candidates(c, login, opts).Values <= Elems(Front(c, login, opts))
  {
    var cand, q := Candidates(c, login, opts), ListRows(c.rows, login, opts);
    forall x | x in cand.Values ensures x in Elems(Front(c, login, opts)) {
      var id :| id in cand && cand[id] == x;
      var y :| y in q && y.e.id == id;
      var i :| 0 <= i < |q| && q[i] == y;
      FrontRow(c, cfg, login, opts, i);
      assert Front(c, login, opts)[i] == x;
    }
  }

  lemma UnfetchedIsUnseen(c: Core, cfg: Config, login: string, opts: ListOptions, k: nat)
    requires Inv(c, cfg) && c.watches == map[] && LimitOf(opts) <= k < |Queried(c.rows, login, opts)|
    ensures var x := Queried(c.rows, login, opts)[k].e;
      x.id !in Candidates(c, login, opts) && Listable(c, x.id, login, opts)
          && SnapshotFor(c, x.id) == SnapshotOfEntry(x)
  {
    var q := Queried(c.rows, login, opts);
    SameElements(q, Selected(c.rows, login, opts));
    assert q[k] in q;
    RowOfWatch(c, cfg, q[k], login, opts);
    forall y | y in ListRows(c.rows, login, opts) ensures y.e.id != q[k].e.id {
      var i :| 0 <= i < |ListRows(c.rows, login, opts)| && ListRows(c.rows, login, opts)[i] == y;
      FrontRow(c, cfg, login, opts, i);
      DistinctRows(c, cfg, login, opts, i, k);
    }
  }

  /** As many before it as were fetched: all of them are. */
  lemma LateMeansAllBefore(c: Core, cfg: Config, login: string, opts: ListOptions, i: nat, k: nat)
    requires Inv(c, cfg) && c.watches == map[] && UnseenAreLate(c, login, opts)
    requires i < LimitOf(opts) <= k < |Queried(c.rows, login, opts)|
    ensures SnapshotBefore(SnapshotOfEntry(Queried(c.rows, login, opts)[i].e),
        SnapshotOfEntry(Queried(c.rows, login, opts)[k].e))
  {
    var x := Queried(c.rows, login, opts)[k].e;
    var front, seen := Front(c, login, opts), SeenBefore(c, login, opts, SnapshotOfEntry(x));
    UnfetchedIsUnseen(c, cfg, login, opts, k);
    AllSeenAreFront(c, cfg, login, opts);
    ElementsAtMost(front);
    FullSubset(seen, Elems(front));
    FrontRow(c, cfg, login, opts, i);
    RowOfWatch(c, cfg, Queried(c.rows, login, opts)[i], login, opts);
    assert front[i] in Elems(front);
  }

  lemma FullSubset(a: set<Snapshot>, b: set<Snapshot>)
    requires a <= b && |a| >= |b|
    ensures a == b
  {
    assert b == a + (b - a) && |b| == |a| + |b - a|;
  }

  /**
   After a restart, before any Start, List is the head of the union exactly if the query's ties at its limit
   fall as the IDs do.
   */
  lemma ListAfterRestartExactly(c: Core, cfg: Config, login: string, opts: ListOptions)
    requires Inv(c, cfg) && c.watches == map[]
    ensures Listing(Candidates(c, login, opts), LimitOf(opts)) == Listing(Union(c, login, opts), LimitOf(opts)) <==>
            TiesAgree(c, login, opts)
  {
    ListIsUnionPrefixExactly(c, cfg, login, opts);
    if TiesAgree(c, login, opts) { TiesAgreeMeansLate(c, cfg, login, opts); }
    if UnseenAreLate(c, login, opts) {
      var q := Queried(c.rows, login, opts);
      forall i, k ensures TieAgrees(c, q, i, k, LimitOf(opts)) {
        if 0 <= i < LimitOf(opts) <= k < |q| {
          LateMeansAllBefore(c, cfg, login, opts, i, k);
          QueriedOrder(c.rows, login, opts, i, k);
        }
      }
    }
  }

  // ----- in runs -----

  /** All four in every run. */
  lemma ReachedList(cfg: Config, start: Time, events: seq<Event>, login: string, opts: ListOptions)
    requires ValidConfig(cfg)
    ensures var c, n := Reached(cfg, start, events).core, LimitOf(opts);
      var a, b := Candidates(c, login, opts).Values, Union(c, login, opts).Values;
      var agrees := Listing(Candidates(c, login, opts), n) == Listing(Union(c, login, opts), n);
      && (agrees <==> OthersAreLate(a * b, a, n) && OthersAreLate(a * b, b, n))
      && (Undisturbed(c, opts) ==> (agrees <==> UnseenAreLate(c, login, opts)))
      && (Undisturbed(c, opts) && TiesAgree(c, login, opts) ==> agrees)
      && (c.watches == map[] ==> (agrees <==> TiesAgree(c, login, opts)))
  {
    var c := Reached(cfg, start, events).core;
    ReachedInv(cfg, start, events);
    ListAgreesExactly(c, cfg, login, opts);
    if Undisturbed(c, opts) {
      ListIsUnionPrefixExactly(c, cfg, login, opts);
      if TiesAgree(c, login, opts) { TiesAgreeMeansLate(c, cfg, login, opts); }
    }
    if c.watches == map[] { ListAfterRestartExactly(c, cfg, login, opts); }
  }
}
