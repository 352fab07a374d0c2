/** Sorting by a strict order: what every correct sort returns, whatever its algorithm. */
module Sorting {

  /** A strict order. */
  ghost predicate StrictOrder<T(!new)>(less: (T, T) -> bool) {
    && (forall a, b :: less(a, b) ==> !less(b, a))
    && (forall a, b, c :: less(a, b) && less(b, c) ==> less(a, c))
  }

  /** Any two of these elements are equal or one comes first; then so with what is neither before. */
  ghost predicate Comparable<T>(s: seq<T>, less: (T, T) -> bool) {
    forall a, b :: a in s && b in s && a != b ==> less(a, b) || less(b, a)
  }

  predicate Sorted<T>(s: seq<T>, less: (T, T) -> bool) {
    forall i, j :: 0 <= i < j < |s| ==> !less(s[j], s[i])
  }

  function InsertBy<T>(s: seq<T>, x: T, less: (T, T) -> bool): (r: seq<T>)
    ensures multiset(r) == multiset(s) + multiset{x}
  {
    if s == [] || less(x, s[0]) then [x] + s
    else
      assert s == [s[0]] + s[1..];
      [s[0]] + InsertBy(s[1..], x, less)
  }

  function SortBy<T>(s: seq<T>, less: (T, T) -> bool): (r: seq<T>)
    ensures multiset(r) == multiset(s)
  {
    if s == [] then []
    else
      assert s == s[..|s| - 1] + [s[|s| - 1]];
      InsertBy(SortBy(s[..|s| - 1], less), s[|s| - 1], less)
  }

  lemma SameElements<T>(s: seq<T>, t: seq<T>)
    requires multiset(s) == multiset(t)
    ensures |s| == |t|
    ensures forall x :: x in s <==> x in t
  {
    assert |s| == |multiset(s)| && |t| == |multiset(t)|;
    forall x ensures x in s <==> x in t {
      assert x in s <==> x in multiset(s);
      assert x in t <==> x in multiset(t);
    }
  }

  lemma {:induction false} InsertSorted<T(!new)>(s: seq<T>, x: T, less: (T, T) -> bool)
    requires StrictOrder(less) && Sorted(s, less) && Comparable(s + [x], less)
    ensures Sorted(InsertBy(s, x, less), less)
  {
    if s != [] && !less(x, s[0]) {
      var rest := InsertBy(s[1..], x, less);
      assert forall y :: y in s[1..] + [x] ==> y in s + [x];
      InsertSorted(s[1..], x, less);
      SameElements(rest, s[1..] + [x]);
      forall y | y in rest ensures !less(y, s[0]) {
        assert y in s[1..] || y == x;
      }
    } else {
      var r := [x] + s;
      if s != [] { assert forall y :: less(y, x) ==> less(y, s[0]); }
      forall j | 1 <= j < |r| ensures !less(r[j], x) {
        assert r[j] == s[j - 1] && s[j - 1] in s + [x] && x in s + [x];
      }
    }
  }

  lemma {:induction false} SortSorted<T(!new)>(s: seq<T>, less: (T, T) -> bool)
    requires StrictOrder(less) && Comparable(s, less)
    ensures Sorted(SortBy(s, less), less)
  {
    if s != [] {
      var front := s[..|s| - 1];
      var done := SortBy(front, less);
      SortSorted(front, less);
      SameElements(done, front);
      assert forall y :: y in done + [s[|s| - 1]] ==> y in s;
      InsertSorted(done, s[|s| - 1], less);
    }
  }

  lemma SameHead<T(!new)>(s: seq<T>, t: seq<T>, less: (T, T) -> bool)
    requires Comparable(s, less) && multiset(s) == multiset(t) && Sorted(s, less) && Sorted(t, less) && s != []
    ensures t != [] && s[0] == t[0]
  {
    SameElements(s, t);
    assert t[0] in s && s[0] in t;
    var i :| 0 <= i < |s| && s[i] == t[0];
    var j :| 0 <= j < |t| && t[j] == s[0];
    assert i == 0 || !less(s[i], s[0]);
    assert j == 0 || !less(t[j], t[0]);
  }

  lemma SameTail<T>(s: seq<T>, t: seq<T>)
    requires s != [] && t != [] && s[0] == t[0] && multiset(s) == multiset(t)
    ensures multiset(s[1..]) == multiset(t[1..])
  {
    assert s == [s[0]] + s[1..] && t == [s[0]] + t[1..];
    assert multiset(s[1..]) == multiset(s) - multiset{s[0]};
    assert multiset(t[1..]) == multiset(t) - multiset{s[0]};
  }

  lemma TailSorted<T(!new)>(s: seq<T>, less: (T, T) -> bool)
    requires s != [] && Comparable(s, less) && Sorted(s, less)
    ensures Comparable(s[1..], less) && Sorted(s[1..], less)
  {
  }

  /** The same elements have one sorted arrangement. */
  lemma {:induction false} SortedUnique<T(!new)>(s: seq<T>, t: seq<T>, less: (T, T) -> bool)
    requires StrictOrder(less) && Comparable(s, less) && multiset(s) == multiset(t) && Sorted(s, less)
        && Sorted(t, less)
    ensures s == t
  {
    SameElements(s, t);
    if s != [] {
      SameHead(s, t, less);
      SameTail(s, t);
      assert Comparable(t, less);
      TailSorted(s, less);
      TailSorted(t, less);
      SortedUnique(s[1..], t[1..], less);
    }
  }

  /** A sort's result depends on the elements only. */
  lemma SortUnique<T(!new)>(s: seq<T>, t: seq<T>, less: (T, T) -> bool)
    requires StrictOrder(less) && Comparable(t, less) && multiset(s) == multiset(t)
    ensures SortBy(s, less) == SortBy(t, less) && Sorted(SortBy(s, less), less)
  {
    SameElements(s, t);
    SortSorted(s, less);
    SortSorted(t, less);
    SameElements(SortBy(s, less), s);
    SortedUnique(SortBy(s, less), SortBy(t, less), less);
  }

  // ----- text order (Go compares strings byte by byte) -----

  predicate TextLess(a: string, b: string) {
    if b == "" then false
    else if a == "" then true
    else a[0] < b[0] || (a[0] == b[0] && TextLess(a[1..], b[1..]))
  }

  lemma {:induction false} TextLessAsymmetric(a: string, b: string)
    requires TextLess(a, b)
    ensures !TextLess(b, a)
  {
    if a != "" && a[0] == b[0] { TextLessAsymmetric(a[1..], b[1..]); }
  }

  lemma {:induction false} TextLessTransitive(a: string, b: string, c: string)
    requires TextLess(a, b) && TextLess(b, c)
    ensures TextLess(a, c)
  {
    if a != "" && a[0] == b[0] && b[0] == c[0] { TextLessTransitive(a[1..], b[1..], c[1..]); }
  }

  lemma {:induction false} TextLessTotal(a: string, b: string)
    ensures TextLess(a, b) || a == b || TextLess(b, a)
  {
    if a != "" && b != "" && a[0] == b[0] {
      TextLessTotal(a[1..], b[1..]);
      assert a == [a[0]] + a[1..] && b == [b[0]] + b[1..];
    }
  }

  lemma TextLessSame(c: char, a: string, b: string)
    ensures TextLess([c] + a, [c] + b) == TextLess(a, b)
  {
    assert ([c] + a)[1..] == a && ([c] + b)[1..] == b;
  }

  /** A common beginning does not matter. */
  lemma {:induction false} TextLessPrefix(p: string, a: string, b: string)
    requires TextLess(a, b)
    ensures TextLess(p + a, p + b)
  {
    if p == "" {
      assert p + a == a && p + b == b;
    } else {
      var pa, pb := p[1..] + a, p[1..] + b;
      TextLessPrefix(p[1..], a, b);
      TextLessSame(p[0], pa, pb);
      ConsPrefix(p, a);
      ConsPrefix(p, b);
    }
  }

  lemma ConsPrefix(p: string, a: string)
    requires p != ""
    ensures p + a == [p[0]] + (p[1..] + a)
  {
  }

  lemma TextOrder()
    ensures StrictOrder(TextLess)
    ensures forall a, b :: TextLess(a, b) || a == b || TextLess(b, a)
  {
    forall a, b | TextLess(a, b) ensures !TextLess(b, a) { TextLessAsymmetric(a, b); }
    forall a, b, c | TextLess(a, b) && TextLess(b, c) ensures TextLess(a, c) { TextLessTransitive(a, b, c); }
    forall a, b ensures TextLess(a, b) || a == b || TextLess(b, a) { TextLessTotal(a, b); }
  }

  /** Text sorts to the same list from any arrangement. */
  lemma TextSortUnique(s: seq<string>, t: seq<string>)
    requires multiset(s) == multiset(t)
    ensures SortBy(s, TextLess) == SortBy(t, TextLess) && Sorted(SortBy(s, TextLess), TextLess)
  {
    TextOrder();
    SortUnique(s, t, TextLess);
  }

  // ----- dropping elements behind a prefix -----

  function Take<T>(s: seq<T>, n: nat): (r: seq<T>)
    ensures |r| <= n
  {
    if |s| > n then s[..n] else s
  }

  ghost function Elems<T>(s: seq<T>): set<T> {
    set x | x in s
  }

  ghost function Keep<T>(s: seq<T>, c: set<T>): (r: seq<T>)
    ensures forall x :: x in r ==> x in s
  {
    if s == [] then []
    else if s[0] in c then [s[0]] + Keep(s[1..], c)
    else Keep(s[1..], c)
  }

  lemma {:induction false} KeepCounts<T>(s: seq<T>, c: set<T>, x: T)
    ensures multiset(Keep(s, c))[x] == if x in c then multiset(s)[x] else 0
  {
    if s != [] {
      KeepCounts(s[1..], c, x);
      assert s == [s[0]] + s[1..];
    }
  }

  lemma {:induction false} KeepSorted<T>(s: seq<T>, c: set<T>, less: (T, T) -> bool)
    requires Sorted(s, less)
    ensures Sorted(Keep(s, c), less)
  {
    if s != [] {
      KeepSorted(s[1..], c, less);
      assert forall x :: x in Keep(s[1..], c) ==> !less(x, s[0]);
    }
  }

  lemma {:induction false} KeepPrefix<T>(s: seq<T>, c: set<T>, n: nat)
    requires n <= |s| && forall i :: 0 <= i < n ==> s[i] in c
    ensures |Keep(s, c)| >= n && Keep(s, c)[..n] == s[..n]
  {
    if n > 0 { KeepPrefix(s[1..], c, n - 1); }
  }

  lemma {:induction false} ElementsAtMost<T>(s: seq<T>)
    ensures |Elems(s)| <= |s|
  {
    if s != [] {
      ElementsAtMost(s[1..]);
      assert Elems(s) == {s[0]} + Elems(s[1..]);
    }
  }

  lemma {:induction false} DistinctElements<T>(s: seq<T>)
    requires forall i, j :: 0 <= i < j < |s| ==> s[i] != s[j]
    ensures |Elems(s)| == |s|
  {
    if s != [] {
      DistinctElements(s[1..]);
      assert Elems(s) == {s[0]} + Elems(s[1..]);
    }
  }

  lemma {:induction false} SubsetCard<T>(a: set<T>, b: set<T>)
    requires a <= b
    ensures |a| <= |b|
  {
    assert |b| == |a| + |b - a| by { assert b == a + (b - a); }
  }

  /** A sequence without repetitions is the multiset of its elements. */
  lemma {:induction false} OnceEach<T>(s: seq<T>)
    requires forall x :: multiset(s)[x] <= 1
    ensures multiset(s) == multiset(Elems(s))
  {
    if s != [] {
      var t := s[1..];
      assert s == [s[0]] + t && multiset(s) == multiset{s[0]} + multiset(t);
      forall x ensures multiset(t)[x] <= 1 { assert multiset(s)[x] <= 1; }
      OnceEach(t);
      assert multiset(s)[s[0]] <= 1 && s[0] !in multiset(t);
      assert Elems(s) == {s[0]} + Elems(t);
    }
  }

  lemma KeptPrefixTaken<T>(s: seq<T>, c: set<T>, n: nat)
    requires forall i :: 0 <= i < |s| && i < n ==> s[i] in c
    ensures Take(Keep(s, c), n) == Take(s, n)
  {
    KeepPrefix(s, c, if |s| <= n then |s| else n);
    KeptShort(s, c);
  }

  lemma KeepIsPart<T>(all: seq<T>, s: seq<T>, part: seq<T>)
    requires multiset(s) == multiset(all)
    requires forall x :: multiset(all)[x] <= 1 && multiset(part)[x] <= multiset(all)[x]
    ensures multiset(Keep(s, Elems(part))) == multiset(part)
  {
    var c := Elems(part);
    forall x ensures multiset(Keep(s, c))[x] == multiset(part)[x] {
      KeepCounts(s, c, x);
      assert multiset(part)[x] <= multiset(all)[x] <= 1 && multiset(s)[x] == multiset(all)[x];
      assert x in part <==> x in multiset(part);
    }
    forall x ensures x in Keep(s, c) <==> x in part {
      assert x in Keep(s, c) <==> x in multiset(Keep(s, c));
      assert x in part <==> x in multiset(part);
    }
    assert Elems(Keep(s, c)) == Elems(part);
    OnceEach(Keep(s, c));
    OnceEach(part);
  }

  lemma PartSorted<T(!new)>(all: seq<T>, part: seq<T>, less: (T, T) -> bool)
    requires StrictOrder(less) && Comparable(all, less)
    requires forall x :: multiset(all)[x] <= 1 && multiset(part)[x] <= multiset(all)[x]
    ensures SortBy(part, less) == Keep(SortBy(all, less), Elems(part))
  {
    var kept := Keep(SortBy(all, less), Elems(part));
    KeepIsPart(all, SortBy(all, less), part);
    SortSorted(all, less);
    KeepSorted(SortBy(all, less), Elems(part), less);
    forall x | x in part ensures x in all { assert x in multiset(part) && x in multiset(all); }
    SameElements(kept, part);
    SortSorted(part, less);
    SortedUnique(kept, SortBy(part, less), less);
  }

  /**
   Sorting only a part of the elements and cutting after n gives what sorting all of them and cutting
   gives, when none of the first n is missing from the part.
   */
  lemma PartialSort<T(!new)>(all: seq<T>, part: seq<T>, n: nat, less: (T, T) -> bool)
    requires StrictOrder(less) && Comparable(all, less)
    requires forall x :: multiset(all)[x] <= 1 && multiset(part)[x] <= multiset(all)[x]
    requires forall k :: 0 <= k < |SortBy(all, less)| && k < n ==> SortBy(all, less)[k] in part
    ensures Take(SortBy(all, less), n) == Take(SortBy(part, less), n)
  {
    var s, c := SortBy(all, less), Elems(part);
    PartSorted(all, part, less);
    var m := if |s| <= n then |s| else n;
    assert forall i :: 0 <= i < m ==> s[i] in c;
    KeptPrefixTaken(s, c, n);
  }

  /** The elements of a part that come before x. */
  ghost function Ahead<T>(part: seq<T>, x: T, less: (T, T) -> bool): set<T> {
    set y | y in part && less(y, x)
  }

  ghost predicate HeadIn<T>(s: seq<T>, n: nat, part: seq<T>) {
    forall k :: 0 <= k < |s| && k < n ==> s[k] in part
  }

  /** A sorted prefix lies in the part only if everything outside has n elements of the part before it. */
  lemma HeadIsAhead<T(!new)>(s: seq<T>, part: seq<T>, n: nat, x: T, less: (T, T) -> bool)
    requires Sorted(s, less) && Comparable(s, less) && (forall i, j :: 0 <= i < j < |s| ==> s[i] != s[j])
    requires HeadIn(s, n, part) && x in s && x !in part
    ensures |Ahead(part, x, less)| >= n
  {
    var p :| 0 <= p < |s| && s[p] == x;
    assert p >= n;
    var head := s[..n];
    forall y | y in head ensures y in part && less(y, x) {
      var k :| 0 <= k < n && head[k] == y;
      assert s[k] == y && !less(s[p], s[k]) && s[k] != s[p];
    }
    DistinctElements(head);
    assert Elems(head) <= Ahead(part, x, less);
    SubsetCard(Elems(head), Ahead(part, x, less));
  }

  /** And an element outside that has n before it is not in the prefix. */
  lemma AheadIsBehind<T>(s: seq<T>, part: seq<T>, k: nat, less: (T, T) -> bool)
    requires Sorted(s, less) && Irreflexive(s, less) && k < |s| && (forall y :: y in part ==> y in s)
    ensures |Ahead(part, s[k], less)| <= k
  {
    forall y | y in Ahead(part, s[k], less) ensures y in s[..k] {
      var i :| 0 <= i < |s| && s[i] == y;
      assert i < k;
      assert s[..k][i] == y;
    }
    ElementsAtMost(s[..k]);
    assert Ahead(part, s[k], less) <= Elems(s[..k]);
    SubsetCard(Ahead(part, s[k], less), Elems(s[..k]));
  }

  /** No element comes before itself. */
  ghost predicate Irreflexive<T>(s: seq<T>, less: (T, T) -> bool) {
    forall x :: x in s ==> !less(x, x)
  }

  lemma TakesAgree<T(!new)>(all: seq<T>, part: seq<T>, n: nat, less: (T, T) -> bool)
    requires StrictOrder(less) && Comparable(all, less)
    requires forall x :: multiset(all)[x] <= 1 && multiset(part)[x] <= multiset(all)[x]
    ensures Take(SortBy(all, less), n) == Take(SortBy(part, less), n) <==> HeadIn(SortBy(all, less), n, part)
  {
    var s, t := SortBy(all, less), SortBy(part, less);
    if HeadIn(s, n, part) { PartialSort(all, part, n, less); }
    if Take(s, n) == Take(t, n) {
      SameElements(t, part);
      forall k | 0 <= k < |s| && k < n ensures s[k] in part {
        assert Take(s, n)[k] == s[k] && Take(t, n)[k] == t[k] && t[k] in t;
      }
    }
  }

  /**
   Sorting only a part of the elements and cutting after n gives what sorting all of them and cutting
   gives, exactly if every element left out has n elements of the part before it.
   */
  lemma PartialSortExactly<T(!new)>(all: seq<T>, part: seq<T>, n: nat, less: (T, T) -> bool)
    requires StrictOrder(less) && Comparable(all, less)
    requires forall x :: multiset(all)[x] <= 1 && multiset(part)[x] <= multiset(all)[x]
    ensures Take(SortBy(all, less), n) == Take(SortBy(part, less), n) <==>
            forall x :: x in all && x !in part ==> |Ahead(part, x, less)| >= n
  {
    var s := SortBy(all, less);
    TakesAgree(all, part, n, less);
    SortSorted(all, less);
    SameElements(s, all);
    PartIn(all, part);
    SortOnce(all, less);
    assert Comparable(s, less);
    if HeadIn(s, n, part) {
      forall x | x in all && x !in part ensures |Ahead(part, x, less)| >= n { HeadIsAhead(s, part, n, x, less); }
    }
    if forall x :: x in all && x !in part ==> |Ahead(part, x, less)| >= n {
      forall k | 0 <= k < |s| && k < n ensures s[k] in part {
        AheadIsBehind(s, part, k, less);
        assert s[k] in all;
      }
    }
  }

  /** Sorted prefixes that agree lie in both arrangements' elements. */
  lemma SharedHead<T>(a: seq<T>, b: seq<T>, n: nat, less: (T, T) -> bool)
    requires Take(SortBy(a, less), n) == Take(SortBy(b, less), n)
    ensures HeadIn(SortBy(a, less), n, a) && HeadIn(SortBy(a, less), n, b)
  {
    var s, t := SortBy(a, less), SortBy(b, less);
    SameElements(s, a);
    SameElements(t, b);
    forall k | 0 <= k < |s| && k < n ensures s[k] in a && s[k] in b {
      assert Take(s, n)[k] == s[k] && Take(t, n)[k] == t[k];
      assert s[k] in s && t[k] in t;
    }
  }

  lemma PartIn<T>(all: seq<T>, part: seq<T>)
    requires forall x :: multiset(part)[x] <= multiset(all)[x]
    ensures forall x :: x in part ==> x in all
  {
    forall x | x in part ensures x in all { assert x in multiset(part) && multiset(part)[x] <= multiset(all)[x]; }
  }

  lemma SortOnce<T>(all: seq<T>, less: (T, T) -> bool)
    requires forall x :: multiset(all)[x] <= 1
    ensures forall i, j :: 0 <= i < j < |SortBy(all, less)| ==> SortBy(all, less)[i] != SortBy(all, less)[j]
  {
    var s := SortBy(all, less);
    forall i, j | 0 <= i < j < |s| ensures s[i] != s[j] {
      assert multiset(s)[s[i]] <= 1;
      if s[i] == s[j] { TwiceCounted(s, i, j); }
    }
  }

  lemma {:induction false} KeptShort<T>(s: seq<T>, c: set<T>)
    ensures |Keep(s, c)| <= |s|
  {
    if s != [] { KeptShort(s[1..], c); }
  }

  lemma {:induction false} DistinctOnce<T>(s: seq<T>, x: T)
    requires forall i, j :: 0 <= i < j < |s| ==> s[i] != s[j]
    ensures multiset(s)[x] <= 1
  {
    if s != [] {
      var n := |s| - 1;
      assert s == s[..n] + [s[n]];
      DistinctOnce(s[..n], x);
      assert s[n] !in s[..n];
      assert x == s[n] ==> x !in multiset(s[..n]);
    }
  }

  lemma TwiceCounted<T>(s: seq<T>, i: nat, j: nat)
    requires i < j < |s| && s[i] == s[j]
    ensures multiset(s)[s[i]] >= 2
  {
    assert s == s[..j] + [s[j]] + s[j + 1..];
    assert s[..j][i] == s[i];
    assert s[i] in multiset(s[..j]);
  }

  /** Sorting repeats nothing. */
  lemma SortDistinct<T>(s: seq<T>, less: (T, T) -> bool, i: nat, j: nat)
    requires forall a, b :: 0 <= a < b < |s| ==> s[a] != s[b]
    requires i < j < |SortBy(s, less)|
    ensures SortBy(s, less)[i] != SortBy(s, less)[j]
  {
    var t := SortBy(s, less);
    DistinctOnce(s, t[i]);
    if t[i] == t[j] { TwiceCounted(t, i, j); }
  }

  // ----- strictly sorted cuts -----

  ghost predicate Ascending<T>(s: seq<T>, less: (T, T) -> bool) {
    forall i, j :: 0 <= i < j < |s| ==> less(s[i], s[j])
  }

  lemma SortAscends<T(!new)>(all: seq<T>, less: (T, T) -> bool)
    requires StrictOrder(less) && Comparable(all, less) && forall x :: multiset(all)[x] <= 1
    ensures Ascending(SortBy(all, less), less)
  {
    var t := SortBy(all, less);
    SortSorted(all, less);
    SameElements(t, all);
    SortOnce(all, less);
    forall i, j | 0 <= i < j < |t| ensures less(t[i], t[j]) {
      assert t[i] in all && t[j] in all && t[i] != t[j];
    }
  }

  lemma TakeAscends<T>(t: seq<T>, n: nat, less: (T, T) -> bool)
    requires Ascending(t, less)
    ensures Ascending(Take(t, n), less) && forall x :: x in Take(t, n) ==> x in t
  {
  }

  /** What is not among the first n comes after n elements. */
  lemma TakenOrBehind<T>(t: seq<T>, n: nat, x: T, less: (T, T) -> bool)
    requires Ascending(t, less) && x in t
    ensures x in Take(t, n) || (|Take(t, n)| == n && forall y :: y in Take(t, n) ==> less(y, x))
  {
    var k :| 0 <= k < |t| && t[k] == x;
    if k < n { assert Take(t, n)[k] == x; }
  }
}
