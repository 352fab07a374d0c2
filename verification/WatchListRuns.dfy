/** A run after which List and the union of memory and table differ. */
module WatchListRuns {
  import opened Base
  import opened Domain
  import opened Store
  import opened WatchCore
  import opened WatchInvariant
  import opened WatchSections
  import opened WatchSteps
  import opened WatchLifecycle
  import opened WatchWorker
  import opened WatchSystem
  import opened WatchSafety
  import opened WatchTheorems
  import opened WatchFaults
  import opened Sorting
  import opened WatchList
  import opened WatchListTheorems

  // ----- IDs against rowids -----

  /** The tenth ID of an instant sorts below the ninth. */
  lemma TenthBelowNinth(t: Time)
    ensures TextLess(WatchID(t, 10), WatchID(t, 9)) && WatchID(t, 9) != WatchID(t, 10)
  {
    var p := "cw_" + IntText(t) + "_";
    assert IntText(9) == "9" && IntText(10) == "1" + "0";
    assert WatchID(t, 9) == p + IntText(9) && WatchID(t, 10) == p + IntText(10);
    assert TextLess(IntText(10), IntText(9));
    TextLessPrefix(p, IntText(10), IntText(9));
    if WatchID(t, 9) == WatchID(t, 10) { WatchIDInjective(t, 9, t, 10); }
  }

  // ----- two rows of one second -----

  /** Two ended rows of one second, the later one with the lesser ID. */
  ghost predicate Tied(a: WatchEntry, b: WatchEntry, login: string, opts: ListOptions) {
    && !a.isActive && !b.isActive && a.updatedAt == b.updatedAt && a.startedAt == b.startedAt
    && TextLess(b.id, a.id) && a.id != b.id
    && Matches(login, opts, a.key, true) && Matches(login, opts, b.key, true) && opts.limit == 1
  }

  lemma TieSelected(a: WatchEntry, b: WatchEntry, login: string, opts: ListOptions)
    requires Tied(a, b, login, opts)
    ensures Selected([a, b], login, opts) == [Row(0, a), Row(1, b)]
  {
    assert [a, b][..1] == [a] && [a][..0] == [];
    assert Selected([a], login, opts) == [Row(0, a)];
  }

  lemma TieQueried(x: Row, y: Row)
    requires QueryBefore(y, x)
    ensures SortBy([x, y], QueryBefore) == [y, x]
  {
    assert [x, y][..1] == [x] && [x][..0] == [];
    assert SortBy([x], QueryBefore) == [x];
    assert InsertBy([x], y, QueryBefore) == [y] + [x];
  }

  lemma TieDisagrees(c: Core, a: WatchEntry, b: WatchEntry, login: string, opts: ListOptions)
    requires Tied(a, b, login, opts) && c == EmptyCore([a, b])
    ensures !TiesAgree(c, login, opts)
  {
    TieSelected(a, b, login, opts);
    TieQueried(Row(0, a), Row(1, b));
    var q := Queried(c.rows, login, opts);
    assert q == [Row(1, b), Row(0, a)];
    TextOrder();
    assert !TieAgrees(c, q, 0, 1, LimitOf(opts));
  }

  // ----- the run -----

  function Refused(input: StartInput, n: nat): seq<Event> {
    if n == 0 then [] else Refused(input, n - 1) + [StartCall(input, None, false)]
  }

  lemma RefusedStart(cfg: Config, s: Sys, input: StartInput)
    requires ValidStart(input) && !s.core.closed && s.core.active == map[]
    ensures Step(cfg, s, StartCall(input, None, false)) == s.(core := s.core.(idSeq := s.core.idSeq + 1))
  {
    assert s.core.(active := s.core.active - {input.key}) == s.core;
  }

  /** Starts whose write is refused leave nothing but the sequence number. */
  lemma {:induction false} RefusedStarts(cfg: Config, start: Time, input: StartInput, n: nat)
    requires ValidConfig(cfg) && ValidStart(input)
    ensures Reached(cfg, start, Refused(input, n)) == Init(start).(core := EmptyCore([]).(idSeq := n))
  {
    if n > 0 {
      RefusedStarts(cfg, start, input, n - 1);
      ReachedNext(cfg, start, Refused(input, n - 1), StartCall(input, None, false));
      RefusedStart(cfg, Init(start).(core := EmptyCore([]).(idSeq := n - 1)), input);
    }
  }

  /** The two watches are in memory and in the table, in this order. */
  ghost predicate Pair(c: Core, a: Watch, b: Watch) {
    && |c.rows| == 2 && c.rows[0].id == a.id && c.rows[1].id == b.id && c.lost == {} && !c.closed
    && a.id in c.watches && c.watches[a.id] == a && b.id in c.watches && c.watches[b.id] == b && a.id != b.id
  }

  function TwoStarts(start: Time, a: StartInput, b: StartInput): seq<Event> {
    Refused(a, 8) + [StartCall(a, None, true)] + [StartCall(b, None, true)]
  }

  lemma FirstOfTwo(cfg: Config, start: Time, a: StartInput)
    requires ValidConfig(cfg) && ValidStart(a)
    ensures var s := Reached(cfg, start, Refused(a, 8) + [StartCall(a, None, true)]);
      var w := NewWatch(WatchID(start, 9), a, None, start);
      && SysInv(cfg, s) && s.clock == start && Adds(EmptyCore([]).(idSeq := 8), s.core, w)
  {
    var c := EmptyCore([]).(idSeq := 8);
    RefusedStarts(cfg, start, a, 8);
    ReachedNext(cfg, start, Refused(a, 8), StartCall(a, None, true));
    ReachedInv(cfg, start, Refused(a, 8) + [StartCall(a, None, true)]);
    assert c.(active := c.active - {a.key}) == c;
    StartNewForm(c, a, None, start, true);
  }

  lemma SecondOfTwo(cfg: Config, start: Time, a: StartInput, b: StartInput)
    requires ValidConfig(cfg) && ValidStart(a) && ValidStart(b) && a.key != b.key
    ensures var s := Reached(cfg, start, TwoStarts(start, a, b));
      && SysInv(cfg, s) && s.clock == start
      && Pair(s.core, NewWatch(WatchID(start, 9), a, None, start), NewWatch(WatchID(start, 10), b, None, start))
  {
    var before := Refused(a, 8) + [StartCall(a, None, true)];
    var s := Reached(cfg, start, before);
    FirstOfTwo(cfg, start, a);
    ReachedNext(cfg, start, before, StartCall(b, None, true));
    ReachedInv(cfg, start, TwoStarts(start, a, b));
    assert s.core.(active := s.core.active - {b.key}) == s.core;
    NextIDFresh(cfg, s);
    StartNewForm(s.core, b, None, start, true);
  }

  /** Cancelling one of the two, with its write taken. */
  lemma CancelOne(cfg: Config, s: Sys, w: Watch, other: Watch, first: bool)
    requires SysInv(cfg, s) && Live(s.core, w.id) && s.core.watches[w.id] == w
        && (if first then Pair(s.core, w, other) else Pair(s.core, other, w))
    ensures var c2 := Step(cfg, s, CancelByID(w.key.login, w.id, true)).core;
      var w2 := if w.id in c2.watches then c2.watches[w.id] else w;
      && (if first then Pair(c2, w2, other) else Pair(c2, other, w2))
      && w2.terminal && w2.updatedAt == s.clock && w2.startedAt == w.startedAt && w2.key == w.key && w2.id == w.id
  {
    assert StampedAt(s.core, s.clock, w.id);
    CancelWatchSteps(s.core, cfg, w.id, s.clock, true);
    assert RowFollows(s.core, Step(cfg, s, CancelByID(w.key.login, w.id, true)).core, 0);
    assert RowFollows(s.core, Step(cfg, s, CancelByID(w.key.login, w.id, true)).core, 1);
  }

  /** Both ended at this instant. */
  ghost predicate EndedPair(c: Core, a: Watch, b: Watch, at: Time) {
    && Pair(c, a, b) && a.terminal && b.terminal
    && a.updatedAt == at && b.updatedAt == at && a.startedAt == at && b.startedAt == at
  }

  function TwoEnded(start: Time, a: StartInput, b: StartInput): seq<Event> {
    TwoStarts(start, a, b)
      + [CancelByID(a.key.login, WatchID(start, 9), true)] + [CancelByID(b.key.login, WatchID(start, 10), true)]
  }

  lemma BothCancelled(cfg: Config, start: Time, a: StartInput, b: StartInput) returns (wa: Watch, wb: Watch)
    requires ValidConfig(cfg) && ValidStart(a) && ValidStart(b) && a.key != b.key
    ensures var s := Reached(cfg, start, TwoEnded(start, a, b));
      && SysInv(cfg, s) && s.clock == start && EndedPair(s.core, wa, wb, start)
      && wa.id == WatchID(start, 9) && wb.id == WatchID(start, 10) && wa.key == a.key && wb.key == b.key
  {
    var run := TwoStarts(start, a, b);
    var w1, w2 := NewWatch(WatchID(start, 9), a, None, start), NewWatch(WatchID(start, 10), b, None, start);
    var cancel1, cancel2 := CancelByID(a.key.login, w1.id, true), CancelByID(b.key.login, w2.id, true);
    SecondOfTwo(cfg, start, a, b);
    CancelOne(cfg, Reached(cfg, start, run), w1, w2, true);
    ReachedNext(cfg, start, run, cancel1);
    ReachedInv(cfg, start, run + [cancel1]);
    wa := Reached(cfg, start, run + [cancel1]).core.watches[w1.id];
    CancelOne(cfg, Reached(cfg, start, run + [cancel1]), w2, wa, false);
    ReachedNext(cfg, start, run + [cancel1], cancel2);
    ReachedInv(cfg, start, run + [cancel1] + [cancel2]);
    wb := Reached(cfg, start, run + [cancel1] + [cancel2]).core.watches[w2.id];
  }

  /** The rows of the two, as the next process finds them. */
  lemma PairRows(cfg: Config, s: Sys, a: Watch, b: Watch, to: Time)
    requires SysInv(cfg, s) && EndedPair(s.core, a, b, s.clock) && s.clock < to
    ensures s.core.rows == [Stored(EntryOf(a)), Stored(EntryOf(b))]
    ensures Step(cfg, s, Restart(to)).core == EmptyCore(s.core.rows)
  {
    var rows := s.core.rows;
    assert RowMatches(s.core, a.id) && RowMatches(s.core, b.id);
    FindIs(rows, a.id, 0);
    FindIs(rows, b.id, 1);
    assert Recover(rows, to, STALE_ON_OPEN) == rows;
  }

  /**
   The run: eight refused starts, two starts and two cancels within one instant, and a restart. List of
   one then returns the tenth watch, where the union begins with the ninth.
   */
  lemma TiedRun(cfg: Config, start: Time, a: StartInput, b: StartInput, to: Time)
    requires ValidConfig(cfg) && ValidStart(a) && ValidStart(b) && a.key != b.key && a.key.login == b.key.login
        && start < to
    ensures var c := Reached(cfg, start, TwoEnded(start, a, b) + [Restart(to)]).core;
      var login, opts := a.key.login, ListOptions("", "", 0, false, 1);
      && c.lost == {} && c.watches == map[] && !TiesAgree(c, login, opts)
      && Listing(Candidates(c, login, opts), 1) != Listing(Union(c, login, opts), 1)
  {
    var run, opts := TwoEnded(start, a, b), ListOptions("", "", 0, false, 1);
    var wa, wb := BothCancelled(cfg, start, a, b);
    PairRows(cfg, Reached(cfg, start, run), wa, wb, to);
    ReachedNext(cfg, start, run, Restart(to));
    TenthBelowNinth(start);
    TieDisagrees(Reached(cfg, start, run + [Restart(to)]).core, Stored(EntryOf(wa)), Stored(EntryOf(wb)), a.key.login,
        opts);
    ReachedList(cfg, start, run + [Restart(to)], a.key.login, opts);
  }

  // ----- lost writes -----

  lemma OneRowFetched(rows: seq<WatchEntry>, login: string, opts: ListOptions)
    requires |rows| == 1 && Matches(login, opts, rows[0].key, !rows[0].isActive)
    ensures Row(0, rows[0]) in ListRows(rows, login, opts)
  {
    var x, q := Row(0, rows[0]), Queried(rows, login, opts);
    assert x in Selected(rows, login, opts);
    SameElements(q, Selected(rows, login, opts));
    var k :| 0 <= k < |q| && q[k] == x;
    assert |q| <= 1;
    FirstRowsFetched(rows, login, opts, k);
  }

  lemma OneListed(m: map<string, Snapshot>, n: nat)
    requires m != map[] && n > 0
    ensures Listing(m, n) != []
  {
    var id :| id in m;
    assert m[id] in m.Values;
    SetSeq(m.Values);
    SameElements(SortBy(SeqOf(m.Values), SnapshotBefore), SeqOf(m.Values));
  }

  lemma NoneListed(m: map<string, Snapshot>, n: nat)
    requires m == map[]
    ensures Listing(m, n) == []
  {
    SetSeq(m.Values);
    SameElements(SortBy(SeqOf(m.Values), SnapshotBefore), SeqOf(m.Values));
  }

  /** The only watch has ended and its row is still active. */
  ghost predicate OneLostEnding(c: Core, id: string, login: string) {
    && c.watches.Keys == {id} && c.watches[id].terminal && c.watches[id].key.login == login
    && |c.rows| == 1 && c.rows[0].id == id && c.rows[0].isActive && c.rows[0].key.login == login
  }

  const ACTIVE := ListOptions("", "", 0, true, 0)

  lemma LostEndingSeen(c: Core, id: string, login: string)
    requires OneLostEnding(c, id, login)
    ensures id in Candidates(c, login, ACTIVE) && !Candidates(c, login, ACTIVE)[id].terminal
  {
    OneRowFetched(c.rows, login, ACTIVE);
    var q := ListRows(c.rows, login, ACTIVE);
    assert Row(0, c.rows[0]).e.id == id;
    assert id !in InMemory(c, login, ACTIVE) && id in Candidates(c, login, ACTIVE);
    var x :| x in q && x.e.id == id && Candidates(c, login, ACTIVE)[id] == SnapshotOfEntry(x.e);
    FetchedSelected(c.rows, login, ACTIVE, x);
  }

  lemma LostEndingNotInUnion(c: Core, id: string, login: string)
    requires OneLostEnding(c, id, login)
    ensures Union(c, login, ACTIVE) == map[]
  {
    forall other ensures !Listable(c, other, login, ACTIVE) {
      assert Find(c.rows, other) < |c.rows| ==> c.rows[0].id == other;
    }
  }

  /**
   After a refused ending List shows the ended watch as active to a client that asks for active watches
   only, where the union has none.
   */
  lemma LostEndingListed(cfg: Config, start: Time, input: StartInput)
    requires ValidConfig(cfg) && ValidStart(input)
    ensures var run := [StartCall(input, None, true), CancelByID(input.key.login, WatchID(start, 1), false)];
      var c, login, id := Reached(cfg, start, run).core, input.key.login, WatchID(start, 1);
      && id in c.watches && c.watches[id].terminal
      && id in Candidates(c, login, ACTIVE) && !Candidates(c, login, ACTIVE)[id].terminal
      && Listing(Candidates(c, login, ACTIVE), LimitOf(ACTIVE)) != []
      && Listing(Union(c, login, ACTIVE), LimitOf(ACTIVE)) == []
  {
    var run := [StartCall(input, None, true), CancelByID(input.key.login, WatchID(start, 1), false)];
    var c, login, id := Reached(cfg, start, run).core, input.key.login, WatchID(start, 1);
    BlockedRun(cfg, start, input, [], None, true);
    ReachedInv(cfg, start, run);
    assert RowMatches(c, id);
    LostEndingSeen(c, id, login);
    LostEndingNotInUnion(c, id, login);
    OneListed(Candidates(c, login, ACTIVE), LimitOf(ACTIVE));
    NoneListed(Union(c, login, ACTIVE), LimitOf(ACTIVE));
  }
}
