/** GetCIStatus (internal/github/client.go): the latest check run of each check, over any pages. */
module CheckRuns {
  import opened Base
  import opened Sorting

  datatype CheckRun = CheckRun(id: int, appID: int, name: string, status: string, conclusion: string)

  datatype CIStatus = CIStatus(ok: bool, pendingChecks: seq<string>, failedChecks: seq<string>)

  datatype RunPage = PageError | RunPage(runs: seq<CheckRun>)

  /** The key a check is collapsed under. */
  function KeyOf(r: CheckRun): string {
    IntText(r.appID) + ":" + r.name
  }

  /** Two runs share a key exactly if they are of the same app and name, whatever the name contains. */
  lemma KeyInjective(a: CheckRun, b: CheckRun)
    ensures KeyOf(a) == KeyOf(b) <==> a.appID == b.appID && a.name == b.name
  {
    if KeyOf(a) == KeyOf(b) {
      SplitAtSeparator(IntText(a.appID), a.name, IntText(b.appID), b.name, ':');
      IntTextInjective(a.appID, b.appID);
    }
  }

  predicate IsPending(r: CheckRun) {
    r.status != "completed"
  }

  predicate IsFailed(r: CheckRun) {
    !IsPending(r) && r.conclusion != "success" && r.conclusion != "skipped" && r.conclusion != "neutral"
  }

  // ----- collapsing reruns -----

  /** The run kept for each key after these runs. */
  function Latest(runs: seq<CheckRun>): map<string, CheckRun> {
    if runs == [] then map[] else Kept(Latest(runs[..|runs| - 1]), runs[|runs| - 1])
  }

  function Kept(m: map<string, CheckRun>, r: CheckRun): map<string, CheckRun> {
    if KeyOf(r) !in m || r.id > m[KeyOf(r)].id then m[KeyOf(r) := r] else m
  }

  lemma LatestNext(runs: seq<CheckRun>, r: CheckRun)
    ensures Latest(runs + [r]) == Kept(Latest(runs), r)
  {
    assert (runs + [r])[..|runs|] == runs;
  }

  ghost predicate KeyKept(m: map<string, CheckRun>, runs: seq<CheckRun>, k: string) {
    k in m ==> m[k] in runs && KeyOf(m[k]) == k
  }

  ghost predicate RunCovered(m: map<string, CheckRun>, r: CheckRun) {
    KeyOf(r) in m && r.id <= m[KeyOf(r)].id
  }

  lemma {:induction false} LatestKeepsKey(runs: seq<CheckRun>, k: string)
    ensures KeyKept(Latest(runs), runs, k)
  {
    if runs != [] {
      var n := |runs| - 1;
      assert runs == runs[..n] + [runs[n]];
      LatestKeepsKey(runs[..n], k);
    }
  }

  lemma {:induction false} LatestCovers(runs: seq<CheckRun>, r: CheckRun)
    requires r in runs
    ensures RunCovered(Latest(runs), r)
  {
    var n := |runs| - 1;
    assert runs == runs[..n] + [runs[n]];
    if r in runs[..n] { LatestCovers(runs[..n], r); }
  }

  function AllRuns(pages: seq<RunPage>): seq<CheckRun> {
    if pages == [] then []
    else AllRuns(pages[..|pages| - 1]) + (match pages[|pages| - 1] case PageError => [] case RunPage(runs) => runs)
  }

  ghost predicate DistinctIDs(runs: seq<CheckRun>) {
    forall a, b :: a in runs && b in runs && a.id == b.id ==> a == b
  }

  /** No run of the same app and name is later. */
  ghost predicate IsLatest(runs: seq<CheckRun>, r: CheckRun) {
    r in runs && forall q :: q in runs && q.appID == r.appID && q.name == r.name ==> q.id <= r.id
  }

  /** The runs kept are the latest ones. */
  lemma KeptAreLatest(runs: seq<CheckRun>, r: CheckRun)
    requires DistinctIDs(runs) && r in runs
    ensures KeyOf(r) in Latest(runs)
    ensures Latest(runs)[KeyOf(r)] == r <==> IsLatest(runs, r)
  {
    LatestCovers(runs, r);
    LatestKeepsKey(runs, KeyOf(r));
    var best := Latest(runs)[KeyOf(r)];
    KeyInjective(best, r);
    forall q | q in runs && q.appID == r.appID && q.name == r.name ensures q.id <= best.id {
      KeyInjective(q, r);
      LatestCovers(runs, q);
    }
  }

  lemma KeptInBoth(s: seq<CheckRun>, t: seq<CheckRun>, k: string)
    requires DistinctIDs(s) && (forall r :: r in s <==> r in t) && k in Latest(s)
    ensures k in Latest(t) && Latest(t)[k] == Latest(s)[k]
  {
    LatestKeepsKey(s, k);
    var a := Latest(s)[k];
    LatestCovers(t, a);
    LatestKeepsKey(t, k);
    LatestCovers(s, Latest(t)[k]);
  }

  /** Order, paging and repetition of the runs do not matter. */
  lemma LatestOfSet(s: seq<CheckRun>, t: seq<CheckRun>)
    requires DistinctIDs(s) && forall r :: r in s <==> r in t
    ensures Latest(s) == Latest(t)
  {
    forall k ensures k in Latest(s) ==> k in Latest(t) && Latest(t)[k] == Latest(s)[k] {
      if k in Latest(s) { KeptInBoth(s, t, k); }
    }
    forall k ensures k in Latest(t) ==> k in Latest(s) {
      if k in Latest(t) { KeptInBoth(t, s, k); }
    }
  }

  // ----- the report -----

  ghost function Pick(m: map<string, CheckRun>): (k: string)
    requires m != map[]
    ensures k in m
  {
    var k :| k in m;
    k
  }

  ghost function NameIf(r: CheckRun, wanted: CheckRun -> bool): multiset<string> {
    if wanted(r) then multiset{r.name} else multiset{}
  }

  /** The names of the kept runs of one kind, one for each app. */
  ghost function Names(m: map<string, CheckRun>, wanted: CheckRun -> bool): multiset<string>
    decreases |m|
  {
    if m == map[] then multiset{}
    else NameIf(m[Pick(m)], wanted) + Names(m - {Pick(m)}, wanted)
  }

  lemma SumSwap(a: multiset<string>, b: multiset<string>, c: multiset<string>)
    ensures a + (b + c) == b + (a + c)
  {
  }

  lemma {:induction false} NamesWithout(m: map<string, CheckRun>, wanted: CheckRun -> bool, k: string)
    requires k in m
    ensures Names(m, wanted) == NameIf(m[k], wanted) + Names(m - {k}, wanted)
    decreases |m|
  {
    var c := Pick(m);
    if c != k {
      var both := m - {c} - {k};
      assert m - {k} - {c} == both;
      NamesWithout(m - {c}, wanted, k);
      NamesWithout(m - {k}, wanted, c);
      SumSwap(NameIf(m[c], wanted), NameIf(m[k], wanted), Names(both, wanted));
    }
  }

  /** The report on these kept runs. */
  ghost predicate Reports(st: CIStatus, m: map<string, CheckRun>) {
    && Sorted(st.pendingChecks, TextLess) && multiset(st.pendingChecks) == Names(m, IsPending)
    && Sorted(st.failedChecks, TextLess) && multiset(st.failedChecks) == Names(m, IsFailed)
    && st.ok == forall k :: k in m ==> !IsPending(m[k]) && !IsFailed(m[k])
  }

  lemma ReportUnique(a: CIStatus, b: CIStatus, m: map<string, CheckRun>)
    requires Reports(a, m) && Reports(b, m)
    ensures a == b
  {
    TextOrder();
    SortedUnique(a.pendingChecks, b.pendingChecks, TextLess);
    SortedUnique(a.failedChecks, b.failedChecks, TextLess);
  }

  ghost function KeysOf(m: map<string, CheckRun>, wanted: CheckRun -> bool, name: string): set<string> {
    set k | k in m && wanted(m[k]) && m[k].name == name
  }

  lemma KeysWithout(m: map<string, CheckRun>, wanted: CheckRun -> bool, name: string, c: string)
    requires c in m
    ensures c !in KeysOf(m - {c}, wanted, name)
    ensures KeysOf(m, wanted, name) ==
            KeysOf(m - {c}, wanted, name) + if wanted(m[c]) && m[c].name == name then {c} else {}
  {
    var less := m - {c};
    forall k | k in less ensures less[k] == m[k] && k in m { }
  }

  /** A name is reported once for each app whose latest run of that name is of this kind. */
  lemma {:induction false} NameCount(m: map<string, CheckRun>, wanted: CheckRun -> bool, name: string)
    ensures Names(m, wanted)[name] == |KeysOf(m, wanted, name)|
    decreases |m|
  {
    if m != map[] {
      NameCount(m - {Pick(m)}, wanted, name);
      KeysWithout(m, wanted, name, Pick(m));
    }
  }

  lemma EmptyNames(m: map<string, CheckRun>, wanted: CheckRun -> bool)
    ensures Names(m, wanted) == multiset{} <==> forall k :: k in m ==> !wanted(m[k])
  {
    if Names(m, wanted) == multiset{} {
      forall k | k in m ensures !wanted(m[k]) { NamesWithout(m, wanted, k); }
    } else if forall k :: k in m ==> !wanted(m[k]) {
      NoNames(m, wanted);
    }
  }

  lemma {:induction false} NoNames(m: map<string, CheckRun>, wanted: CheckRun -> bool)
    requires forall k :: k in m ==> !wanted(m[k])
    ensures Names(m, wanted) == multiset{}
    decreases |m|
  {
    if m != map[] { NoNames(m - {Pick(m)}, wanted); }
  }

  // ----- the code -----

  /** Err is a failed call; `sha` is the head commit of the pull request, if it could be read. */
  method GetCIStatus(sha: Option<string>, pages: seq<RunPage>) returns (r: Result<CIStatus, string>)
    ensures r.Err? <==> sha.None? || sha.value == "" || PageError in pages
    ensures r.Ok? ==> Reports(r.value, Latest(AllRuns(pages)))
  {
    if sha.None? { return Err("failed to get PR"); }
    if sha.value == "" { return Err("head SHA is empty"); }
    var latest: map<string, CheckRun> := map[];
    for i := 0 to |pages|
      invariant PageError !in pages[..i]
      invariant latest == Latest(AllRuns(pages[..i]))
    {
      assert pages[..i + 1][..i] == pages[..i];
      if pages[i].PageError? { return Err("failed to list check runs"); }
      latest := KeepLatest(latest, AllRuns(pages[..i]), pages[i].runs);
    }
    assert pages[..|pages|] == pages;
    var st := Report(latest);
    r := Ok(st);
  }

  lemma TakeOneMore<T>(a: seq<T>, b: seq<T>, i: nat)
    requires i < |b|
    ensures a + b[..i + 1] == a + b[..i] + [b[i]]
  {
  }

  method KeepLatest(kept: map<string, CheckRun>, ghost before: seq<CheckRun>, runs: seq<CheckRun>)
    returns (latest: map<string, CheckRun>)
    requires kept == Latest(before)
    ensures latest == Latest(before + runs)
  {
    latest := kept;
    assert before + runs[..0] == before;
    for i := 0 to |runs|
      invariant latest == Latest(before + runs[..i])
    {
      TakeOneMore(before, runs, i);
      LatestNext(before + runs[..i], runs[i]);
      var key := KeyOf(runs[i]);
      if key !in latest || runs[i].id > latest[key].id { latest := latest[key := runs[i]]; }
    }
    assert runs[..|runs|] == runs;
  }

  /** The names collected so far and those of the runs not visited are all the names. */
  ghost predicate Collected(s: seq<string>, rest: map<string, CheckRun>, all: map<string, CheckRun>,
          wanted: CheckRun -> bool)
  {
    multiset(s) + Names(rest, wanted) == Names(all, wanted)
  }

  lemma CollectedNext(s: seq<string>, s2: seq<string>, rest: map<string, CheckRun>, all: map<string, CheckRun>,
          wanted: CheckRun -> bool, k: string)
    requires k in rest && Collected(s, rest, all, wanted)
    requires s2 == if wanted(rest[k]) then s + [rest[k].name] else s
    ensures Collected(s2, rest - {k}, all, wanted)
  {
    NamesWithout(rest, wanted, k);
  }

  method AddName(pending: seq<string>, failed: seq<string>, r: CheckRun) returns (p: seq<string>, f: seq<string>)
    ensures p == if IsPending(r) then pending + [r.name] else pending
    ensures f == if IsFailed(r) then failed + [r.name] else failed
  {
    if r.status != "completed" { return pending + [r.name], failed; }
    match r.conclusion
    case "success" | "skipped" | "neutral" => return pending, failed;
    case _ => return pending, failed + [r.name];
  }

  /** The map is visited in any order. */
  method Collect(latest: map<string, CheckRun>) returns (pending: seq<string>, failed: seq<string>)
    ensures Collected(pending, map[], latest, IsPending) && Collected(failed, map[], latest, IsFailed)
  {
    pending, failed := [], [];
    var rest := latest;
    while rest != map[]
      invariant Collected(pending, rest, latest, IsPending) && Collected(failed, rest, latest, IsFailed)
      decreases |rest|
    {
      var k :| k in rest;
      var p, f := AddName(pending, failed, rest[k]);
      CollectedNext(pending, p, rest, latest, IsPending, k);
      CollectedNext(failed, f, rest, latest, IsFailed, k);
      pending, failed, rest := p, f, rest - {k};
    }
  }

  method Report(latest: map<string, CheckRun>) returns (st: CIStatus)
    ensures Reports(st, latest)
  {
    var pending, failed := Collect(latest);
    TextSortUnique(pending, pending);
    TextSortUnique(failed, failed);
    EmptyNames(latest, IsPending);
    EmptyNames(latest, IsFailed);
    assert pending == [] <==> multiset(pending) == multiset{};
    assert failed == [] <==> multiset(failed) == multiset{};
    st := CIStatus(|pending| == 0 && |failed| == 0, SortBy(pending, TextLess), SortBy(failed, TextLess));
  }

  // ----- what the report depends on -----

  /** The report depends on the set of check runs only: not on their order, not on the pages. */
  lemma ReportOfSet(pages: seq<RunPage>, others: seq<RunPage>, a: CIStatus, b: CIStatus)
    requires DistinctIDs(AllRuns(pages)) && forall r :: r in AllRuns(pages) <==> r in AllRuns(others)
    requires Reports(a, Latest(AllRuns(pages))) && Reports(b, Latest(AllRuns(others)))
    ensures a == b
  {
    LatestOfSet(AllRuns(pages), AllRuns(others));
    ReportUnique(a, b, Latest(AllRuns(pages)));
  }

  /** Completed with a conclusion that counts as passing. */
  ghost predicate Passing(r: CheckRun) {
    r.status == "completed" && r.conclusion in {"success", "skipped", "neutral"}
  }

  /** CI is OK exactly if every latest run is completed and passing. */
  lemma OkMeansAllPass(runs: seq<CheckRun>, st: CIStatus)
    requires DistinctIDs(runs) && Reports(st, Latest(runs))
    ensures st.ok <==> forall r :: IsLatest(runs, r) ==> Passing(r)
  {
    var m := Latest(runs);
    forall k | k in m ensures IsLatest(runs, m[k]) {
      LatestKeepsKey(runs, k);
      KeptAreLatest(runs, m[k]);
    }
    forall r | IsLatest(runs, r) ensures KeyOf(r) in m && m[KeyOf(r)] == r { KeptAreLatest(runs, r); }
  }

  lemma NamedByLatest(runs: seq<CheckRun>, wanted: CheckRun -> bool, name: string)
    requires DistinctIDs(runs)
    ensures name in Names(Latest(runs), wanted) <==> exists r :: IsLatest(runs, r) && wanted(r) && r.name == name
  {
    var m := Latest(runs);
    NameCount(m, wanted, name);
    var keys := KeysOf(m, wanted, name);
    if keys != {} {
      var k :| k in keys;
      LatestKeepsKey(runs, k);
      KeptAreLatest(runs, m[k]);
      assert IsLatest(runs, m[k]) && wanted(m[k]) && m[k].name == name;
    }
    forall r | IsLatest(runs, r) && wanted(r) && r.name == name ensures keys != {} {
      KeptAreLatest(runs, r);
      assert KeyOf(r) in keys;
    }
  }

  /** A name is pending or failed exactly if a latest run of that name is, of any app. */
  lemma ReportedNames(runs: seq<CheckRun>, st: CIStatus, name: string)
    requires DistinctIDs(runs) && Reports(st, Latest(runs))
    ensures name in st.pendingChecks <==> exists r :: IsLatest(runs, r) && r.status != "completed" && r.name == name
    ensures name in st.failedChecks <==>
            exists r :: IsLatest(runs, r) && r.status == "completed" && !Passing(r) && r.name == name
  {
    NamedByLatest(runs, IsPending, name);
    NamedByLatest(runs, IsFailed, name);
    assert name in st.pendingChecks <==> name in multiset(st.pendingChecks);
    assert name in st.failedChecks <==> name in multiset(st.failedChecks);
    assert forall r :: IsPending(r) <==> r.status != "completed";
    assert forall r :: IsFailed(r) <==> r.status == "completed" && !Passing(r);
  }
}
