/**
 The bounded selection `take_best`, proved equal to sorting everything and keeping the first `limit`, and
 the stable-sort reading of the position tie-break that all three rankings of the store use.
 */
module TopK {

  /** A ranking: total and transitive, with ties. */
  ghost predicate Ranking<T(!new)>(le: (T, T) -> bool) {
    && (forall a, b :: le(a, b) || le(b, a))
    && (forall a, b, c :: le(a, b) && le(b, c) ==> le(a, c))
  }

  /** No two different elements of `s` tie. */
  ghost predicate NoTies<T>(s: multiset<T>, le: (T, T) -> bool) {
    forall a, b | a in s && b in s && le(a, b) && le(b, a) :: a == b
  }

  ghost predicate SortedBy<T>(s: seq<T>, le: (T, T) -> bool) {
    forall i, j | 0 <= i < j < |s| :: le(s[i], s[j])
  }

  /** Puts `x` after everything that ranks at least as well. */
  function Insert<T>(x: T, s: seq<T>, le: (T, T) -> bool): seq<T> {
    if s == [] then [x] else if le(s[0], x) then [s[0]] + Insert(x, s[1..], le) else [x] + s
  }

  /** Stable sort: equal elements keep their input order. */
  function Sort<T>(s: seq<T>, le: (T, T) -> bool): seq<T> {
    if s == [] then [] else Insert(s[|s| - 1], Sort(s[..|s| - 1], le), le)
  }

  function Min(a: int, b: int): int {
    if a < b then a else b
  }

  function Take<T>(s: seq<T>, limit: nat): seq<T> {
    s[..Min(limit, |s|)]
  }

  function Best<T>(s: seq<T>, le: (T, T) -> bool, limit: nat): seq<T> {
    Take(Sort(s, le), limit)
  }

  // ---------------------------------------------------------------------------------------------
  // Sorting
  // ---------------------------------------------------------------------------------------------

  lemma {:induction false} InsertElements<T>(x: T, s: seq<T>, le: (T, T) -> bool)
    ensures multiset(Insert(x, s, le)) == multiset(s) + multiset{x}
    ensures |Insert(x, s, le)| == |s| + 1
  {
    if s != [] {
      assert s == [s[0]] + s[1..];
      InsertElements(x, s[1..], le);
    }
  }

  lemma {:induction false} InsertSorts<T(!new)>(x: T, s: seq<T>, le: (T, T) -> bool)
    requires Ranking(le) && SortedBy(s, le)
    ensures SortedBy(Insert(x, s, le), le)
  {
    if s != [] && le(s[0], x) {
      InsertSorts(x, s[1..], le);
      var r := Insert(x, s[1..], le);
      InsertElements(x, s[1..], le);
      forall i | 0 <= i < |r|
        ensures le(s[0], r[i])
      {
        assert r[i] in multiset(r);
        assert r[i] in s[1..] || r[i] == x;
      }
    } else if s != [] {
      forall i | 0 <= i < |s|
        ensures le(x, s[i])
      {
        assert le(s[0], s[i]);
      }
    }
  }

  lemma {:induction false} SortElements<T>(s: seq<T>, le: (T, T) -> bool)
    ensures multiset(Sort(s, le)) == multiset(s) && |Sort(s, le)| == |s|
  {
    if s != [] {
      SortElements(s[..|s| - 1], le);
      assert s == s[..|s| - 1] + [s[|s| - 1]];
      InsertElements(s[|s| - 1], Sort(s[..|s| - 1], le), le);
    }
  }

  lemma {:induction false} SortSorts<T(!new)>(s: seq<T>, le: (T, T) -> bool)
    requires Ranking(le)
    ensures SortedBy(Sort(s, le), le)
  {
    if s != [] {
      SortSorts(s[..|s| - 1], le);
      InsertSorts(s[|s| - 1], Sort(s[..|s| - 1], le), le);
    }
  }

  lemma NoTiesSubset<T>(s: multiset<T>, t: multiset<T>, le: (T, T) -> bool)
    requires s <= t && NoTies(t, le)
    ensures NoTies(s, le)
  {
  }

  lemma HeadAndRest<T>(a: seq<T>)
    requires a != []
    ensures multiset(a) == multiset{a[0]} + multiset(a[1..])
  {
    assert a == [a[0]] + a[1..];
  }

  /** A sorted sequence without ties is determined by its elements. */
  lemma {:induction false} SortedIsUnique<T>(a: seq<T>, b: seq<T>, le: (T, T) -> bool)
    requires SortedBy(a, le) && SortedBy(b, le) && multiset(a) == multiset(b) && NoTies(multiset(a), le)
    ensures a == b
  {
    assert |a| == |multiset(a)| && |b| == |multiset(b)|;
    if a != [] {
      HeadAndRest(a);
      HeadAndRest(b);
      assert a[0] in multiset(b) && b[0] in multiset(a);
      NoTiesSubset(multiset(a[1..]), multiset(a), le);
      SortedIsUnique(a[1..], b[1..], le);
    }
  }

  // ---------------------------------------------------------------------------------------------
  // The bounded heap
  // ---------------------------------------------------------------------------------------------

  /** The root of a max-heap: the worst item kept. */
  method WorstIndex<T(!new)>(kept: seq<T>, le: (T, T) -> bool) returns (w: nat)
    requires Ranking(le) && kept != []
    ensures w < |kept| && forall i | 0 <= i < |kept| :: le(kept[i], kept[w])
  {
    w := 0;
    for i := 1 to |kept|
      invariant w < |kept| && forall j | 0 <= j < i :: le(kept[j], kept[w])
    {
      if !le(kept[i], kept[w]) { w := i; }
    }
  }

  lemma {:induction false} InsertPrefix<T(!new)>(x: T, s: seq<T>, le: (T, T) -> bool, k: nat)
    requires Ranking(le) && SortedBy(s, le) && 1 <= k <= |s|
    ensures |Insert(x, s, le)| == |s| + 1
    ensures Insert(x, s, le)[..k] == if le(s[k - 1], x) then s[..k] else Insert(x, s[..k - 1], le)
  {
    InsertElements(x, s, le);
    if !le(s[0], x) {
      assert !le(s[k - 1], x) by { assert k == 1 || le(s[0], s[k - 1]); }
      assert Insert(x, s, le)[..k] == [x] + s[..k - 1];
      assert k > 1 ==> s[..k - 1][0] == s[0];
    } else if k == 1 {
      assert Insert(x, s, le)[..1] == [s[0]] == s[..1];
    } else {
      InsertPrefix(x, s[1..], le, k - 1);
      assert Insert(x, s, le)[..k] == [s[0]] + Insert(x, s[1..], le)[..k - 1];
      assert s[..k] == [s[0]] + s[1..][..k - 1];
      assert s[..k - 1][1..] == s[1..][..k - 2] && s[1..][k - 2] == s[k - 1];
    }
  }

  lemma SortLast<T>(s: seq<T>, x: T, le: (T, T) -> bool)
    ensures Sort(s + [x], le) == Insert(x, Sort(s, le), le)
  {
    assert (s + [x])[..|s + [x]| - 1] == s;
  }

  /** What one more item does to the best `limit` so far, while there is room. */
  lemma BestWithRoom<T>(s: seq<T>, x: T, le: (T, T) -> bool, limit: nat)
    requires |s| < limit
    ensures Best(s + [x], le, limit) == Insert(x, Best(s, le, limit), le)
  {
    SortLast(s, x, le);
    SortElements(s, le);
    InsertElements(x, Sort(s, le), le);
    TakeAll(Sort(s, le), limit);
    TakeAll(Sort(s + [x], le), limit);
  }

  lemma TakeAll<T>(s: seq<T>, limit: nat)
    requires |s| <= limit
    ensures Take(s, limit) == s
  {
  }

  /** ... and once the heap is full. */
  lemma BestWhenFull<T(!new)>(s: seq<T>, x: T, le: (T, T) -> bool, limit: nat)
    requires Ranking(le) && 0 < limit <= |s|
    ensures |Sort(s, le)| == |s|
    ensures Best(s + [x], le, limit) ==
      if le(Sort(s, le)[limit - 1], x) then Best(s, le, limit) else Insert(x, Sort(s, le)[..limit - 1], le)
  {
    SortLast(s, x, le);
    SortElements(s, le);
    SortSorts(s, le);
    InsertPrefix(x, Sort(s, le), le, limit);
  }

  /** `kept` holds the best `limit` of `s`, in some order. */
  ghost predicate Holds<T>(kept: seq<T>, s: seq<T>, le: (T, T) -> bool, limit: nat) {
    multiset(kept) == multiset(Best(s, le, limit)) && |kept| == Min(limit, |s|)
  }

  lemma HoldsPushed<T(!new)>(kept: seq<T>, s: seq<T>, x: T, le: (T, T) -> bool, limit: nat)
    requires Holds(kept, s, le, limit) && |s| < limit
    ensures Holds(kept + [x], s + [x], le, limit)
  {
    BestWithRoom(s, x, le, limit);
    InsertElements(x, Best(s, le, limit), le);
  }

  lemma HoldsReplaced<T(!new)>(kept: seq<T>, w: nat, s: seq<T>, x: T, le: (T, T) -> bool, limit: nat)
    requires Ranking(le) && Holds(kept, s, le, limit) && 0 < limit <= |s|
    requires w < |kept| && |Sort(s, le)| >= limit && kept[w] == Sort(s, le)[limit - 1]
    requires !le(kept[w], x)
    ensures Holds(kept[..w] + kept[w + 1..] + [x], s + [x], le, limit)
  {
    BestWhenFull(s, x, le, limit);
    BestSplits(s, le, limit);
    var t := Sort(s, le)[..limit - 1];
    SwapLast(kept, w, t, x);
    InsertElements(x, t, le);
    assert Best(s + [x], le, limit) == Insert(x, t, le);
  }

  lemma BestSplits<T>(s: seq<T>, le: (T, T) -> bool, limit: nat)
    requires 0 < limit <= |s|
    ensures |Sort(s, le)| == |s| && Best(s, le, limit) == Sort(s, le)[..limit - 1] + [Sort(s, le)[limit - 1]]
  {
    SortElements(s, le);
  }

  lemma SwapLast<T>(kept: seq<T>, w: nat, t: seq<T>, x: T)
    requires w < |kept| && multiset(kept) == multiset(t + [kept[w]])
    ensures multiset(kept[..w] + kept[w + 1..] + [x]) == multiset(t) + multiset{x}
  {
    Replace(kept, w, x);
    Cancel(multiset(kept[..w] + kept[w + 1..] + [x]), multiset(t) + multiset{x}, kept[w]);
  }

  lemma Cancel<T>(a: multiset<T>, b: multiset<T>, x: T)
    requires a + multiset{x} == b + multiset{x}
    ensures a == b
  {
    assert a == (a + multiset{x}) - multiset{x};
    assert b == (b + multiset{x}) - multiset{x};
  }

  lemma Replace<T>(kept: seq<T>, w: nat, x: T)
    requires w < |kept|
    ensures multiset(kept[..w] + kept[w + 1..] + [x]) + multiset{kept[w]} == multiset(kept) + multiset{x}
  {
    assert kept == kept[..w] + [kept[w]] + kept[w + 1..];
  }

  lemma WorstIsLast<T(!new)>(kept: seq<T>, s: seq<T>, w: nat, le: (T, T) -> bool, limit: nat)
    requires Ranking(le) && Holds(kept, s, le, limit) && 0 < limit <= |s|
    requires NoTies(multiset(Best(s, le, limit)), le)
    requires w < |kept| && forall i | 0 <= i < |kept| :: le(kept[i], kept[w])
    ensures |Sort(s, le)| == |s| && kept[w] == Sort(s, le)[limit - 1]
  {
    SortElements(s, le);
    SortSorts(s, le);
    LastIsWorst(kept, Best(s, le, limit), w, le);
  }

  lemma LastIsWorst<T(!new)>(kept: seq<T>, b: seq<T>, w: nat, le: (T, T) -> bool)
    requires Ranking(le) && SortedBy(b, le) && NoTies(multiset(b), le) && b != []
    requires multiset(kept) == multiset(b)
    requires w < |kept| && forall i | 0 <= i < |kept| :: le(kept[i], kept[w])
    ensures kept[w] == b[|b| - 1]
  {
    var last := b[|b| - 1];
    assert kept[w] in multiset(kept) && last in multiset(b);
    assert kept[w] in b && last in kept;
    assert le(last, kept[w]) && le(kept[w], last);
  }

  /** Bounded selection of any sequence without ties. */
  method KeepBest<T(!new)>(items: seq<T>, limit: nat, le: (T, T) -> bool) returns (kept: seq<T>)
    requires Ranking(le) && NoTies(multiset(items), le) && limit > 0
    ensures Holds(kept, items, le, limit)
  {
    kept := [];
    for i := 0 to |items|
      invariant Holds(kept, items[..i], le, limit)
    {
      var item := items[i];
      assert items[..i + 1] == items[..i] + [item];
      if |kept| < limit {
        HoldsPushed(kept, items[..i], item, le, limit);
        kept := kept + [item];
      } else {
        var w := WorstIndex(kept, le);
        NoTiesAmongBest(items, i, limit, le);
        HoldsAfter(kept, w, items[..i], item, le, limit);
        if !le(kept[w], item) {
          kept := kept[..w] + kept[w + 1..] + [item];
        }
      }
    }
    assert items[..|items|] == items;
  }

  lemma HoldsAfter<T(!new)>(kept: seq<T>, w: nat, s: seq<T>, x: T, le: (T, T) -> bool, limit: nat)
    requires Ranking(le) && Holds(kept, s, le, limit) && 0 < limit <= |s|
    requires NoTies(multiset(Best(s, le, limit)), le)
    requires w < |kept| && forall i | 0 <= i < |kept| :: le(kept[i], kept[w])
    ensures Holds(if le(kept[w], x) then kept else kept[..w] + kept[w + 1..] + [x], s + [x], le, limit)
  {
    WorstIsLast(kept, s, w, le, limit);
    BestWhenFull(s, x, le, limit);
    if !le(kept[w], x) { HoldsReplaced(kept, w, s, x, le, limit); }
  }

  lemma NoTiesAmongBest<T(!new)>(items: seq<T>, i: nat, limit: nat, le: (T, T) -> bool)
    requires NoTies(multiset(items), le) && i <= |items|
    ensures NoTies(multiset(Best(items[..i], le, limit)), le)
  {
    var t := Sort(items[..i], le);
    SortElements(items[..i], le);
    assert items == items[..i] + items[i..];
    var k := Min(limit, |t|);
    assert t == t[..k] + t[k..];
  }

  /** The `limit` best items in order: exactly the first `limit` of the full sort. */
  method TakeBest<T(!new)>(items: seq<T>, limit: nat, le: (T, T) -> bool) returns (best: seq<T>)
    requires Ranking(le) && NoTies(multiset(items), le)
    ensures best == Best(items, le, limit)
  {
    if limit == 0 { return []; }
    var kept := KeepBest(items, limit, le);
    best := Sort(kept, le);
    SortElements(kept, le);
    SortSorts(kept, le);
    SortSorts(items, le);
    assert items[..|items|] == items;
    NoTiesAmongBest(items, |items|, limit, le);
    SortedIsUnique(best, Best(items, le, limit), le);
  }

  /** Smaller limits give prefixes of larger ones. */
  lemma SmallerLimitIsPrefix<T>(s: seq<T>, k: nat, l: nat)
    requires k <= l
    ensures Take(s, k) <= Take(s, l)
  {
  }

  // ---------------------------------------------------------------------------------------------
  // Position tie-breaks are stability
  // ---------------------------------------------------------------------------------------------

  datatype Placed<T> = Placed(position: nat, entry: T)

  function PlacedLe<T>(le: (T, T) -> bool): (Placed<T>, Placed<T>) -> bool {
    (a: Placed<T>, b: Placed<T>) => Before(le, a, b)
  }

  predicate Before<T>(le: (T, T) -> bool, a: Placed<T>, b: Placed<T>) {
    le(a.entry, b.entry) && (le(b.entry, a.entry) ==> a.position <= b.position)
  }

  /** `enumerate().map(..)` */
  function Enumerate<T>(s: seq<T>): (r: seq<Placed<T>>)
    ensures |r| == |s| && forall i | 0 <= i < |r| :: r[i] == Placed(i, s[i])
  {
    seq(|s|, i requires 0 <= i < |s| => Placed(i, s[i]))
  }

  function Entries<T>(s: seq<Placed<T>>): (r: seq<T>)
    ensures |r| == |s| && forall i | 0 <= i < |r| :: r[i] == s[i].entry
  {
    seq(|s|, i requires 0 <= i < |s| => s[i].entry)
  }

  lemma PlacedIsRanking<T(!new)>(le: (T, T) -> bool)
    requires Ranking(le)
    ensures Ranking(PlacedLe(le))
  {
    forall a, b
      ensures PlacedLe(le)(a, b) || PlacedLe(le)(b, a)
    {
      assert Before(le, a, b) || Before(le, b, a);
    }
    forall a, b, c | PlacedLe(le)(a, b) && PlacedLe(le)(b, c)
      ensures PlacedLe(le)(a, c)
    {
      assert Before(le, a, b) && Before(le, b, c);
      assert Before(le, a, c);
    }
  }

  lemma EnumerateHasNoTies<T(!new)>(s: seq<T>, le: (T, T) -> bool)
    requires Ranking(le)
    ensures NoTies(multiset(Enumerate(s)), PlacedLe(le))
  {
    var e := Enumerate(s);
    forall a, b | a in multiset(e) && b in multiset(e) && PlacedLe(le)(a, b) && PlacedLe(le)(b, a)
      ensures a == b
    {
      assert a in e && b in e;
      var i, j :| 0 <= i < |e| && 0 <= j < |e| && e[i] == a && e[j] == b;
      assert a.position == i && b.position == j;
    }
  }

  lemma {:induction false} InsertLatest<T(!new)>(x: T, p: nat, s: seq<Placed<T>>, le: (T, T) -> bool)
    requires Ranking(le) && forall i | 0 <= i < |s| :: s[i].position < p
    ensures Entries(Insert(Placed(p, x), s, PlacedLe(le))) == Insert(x, Entries(s), le)
  {
    var ple := PlacedLe(le);
    if s != [] {
      assert ple(s[0], Placed(p, x)) <==> le(s[0].entry, x);
      assert Entries(s)[1..] == Entries(s[1..]);
      if le(s[0].entry, x) {
        InsertLatest(x, p, s[1..], le);
      }
    }
  }

  lemma SortedPositions<T>(s: seq<T>, le: (T, T) -> bool)
    ensures var t := Sort(Enumerate(s), PlacedLe(le)); forall i | 0 <= i < |t| :: t[i].position < |s|
  {
    var t := Sort(Enumerate(s), PlacedLe(le));
    SortElements(Enumerate(s), PlacedLe(le));
    forall i | 0 <= i < |t|
      ensures t[i].position < |s|
    {
      assert t[i] in multiset(t);
      assert t[i] in Enumerate(s);
    }
  }

  /** Sorting positions and entries together is sorting the entries stably. */
  lemma {:induction false} PlacedSortIsStableSort<T(!new)>(s: seq<T>, le: (T, T) -> bool)
    requires Ranking(le)
    ensures Entries(Sort(Enumerate(s), PlacedLe(le))) == Sort(s, le)
  {
    if s != [] {
      var n := |s| - 1;
      var front := s[..n];
      PlacedSortIsStableSort(front, le);
      SortedPositions(front, le);
      InsertLatest(s[n], n, Sort(Enumerate(front), PlacedLe(le)), le);
      assert Enumerate(s) == Enumerate(front) + [Placed(n, s[n])];
      SortLast(Enumerate(front), Placed(n, s[n]), PlacedLe(le));
      assert s == front + [s[n]];
    }
  }

  /** `take_best` over enumerated entries, with the positions dropped: the documented promise that every
      limit gives what a full stable sort followed by a cut would give. */
  method RankAndTake<T(!new)>(healthy: seq<T>, limit: nat, le: (T, T) -> bool) returns (best: seq<T>)
    requires Ranking(le)
    ensures best == Best(healthy, le, limit)
  {
    PlacedIsRanking(le);
    EnumerateHasNoTies(healthy, le);
    var placed := TakeBest(Enumerate(healthy), limit, PlacedLe(le));
    PlacedSortIsStableSort(healthy, le);
    SortElements(healthy, le);
    best := Entries(placed);
  }

  // ---------------------------------------------------------------------------------------------
  // Filtering before ranking
  // ---------------------------------------------------------------------------------------------

  function Filter<T>(s: seq<T>, f: T -> bool): seq<T> {
    if s == [] then [] else (if f(s[0]) then [s[0]] else []) + Filter(s[1..], f)
  }

  lemma {:induction false} FilterLast<T>(s: seq<T>, x: T, f: T -> bool)
    ensures Filter(s + [x], f) == Filter(s, f) + (if f(x) then [x] else [])
  {
    if s == [] {
      assert s + [x] == [x] && [x][1..] == [];
      assert Filter([x][1..], f) == [];
    } else {
      assert (s + [x])[1..] == s[1..] + [x];
      FilterLast(s[1..], x, f);
    }
  }

  lemma {:induction false} FilterIsSubset<T>(s: seq<T>, f: T -> bool, y: T)
    ensures y in Filter(s, f) <==> y in s && f(y)
  {
    if s != [] { FilterIsSubset(s[1..], f, y); }
  }

  lemma {:induction false} FilterInsert<T(!new)>(x: T, s: seq<T>, le: (T, T) -> bool, f: T -> bool)
    requires Ranking(le) && SortedBy(s, le)
    ensures Filter(Insert(x, s, le), f) ==
      if f(x) then Insert(x, Filter(s, f), le) else Filter(s, f)
  {
    if s != [] {
      if le(s[0], x) {
        FilterInsert(x, s[1..], le, f);
        assert ([s[0]] + Insert(x, s[1..], le))[1..] == Insert(x, s[1..], le);
        assert f(s[0]) ==> Filter(s, f)[0] == s[0] && Filter(s, f)[1..] == Filter(s[1..], f);
        assert [] + Filter(s[1..], f) == Filter(s[1..], f);
      } else {
        assert ([x] + s)[1..] == s;
        var fs := Filter(s, f);
        if f(x) && fs != [] {
          FilterIsSubset(s, f, fs[0]);
          var k :| 0 <= k < |s| && s[k] == fs[0];
          assert k == 0 || le(s[0], s[k]);
        }
      }
    }
  }

  /** Ranking a subset is the full ranking restricted to it. */
  lemma {:induction false} FilterSort<T(!new)>(s: seq<T>, le: (T, T) -> bool, f: T -> bool)
    requires Ranking(le)
    ensures Filter(Sort(s, le), f) == Sort(Filter(s, f), le)
  {
    if s != [] {
      var front, x := s[..|s| - 1], s[|s| - 1];
      assert s == front + [x];
      FilterSort(front, le, f);
      SortSorts(front, le);
      FilterInsert(x, Sort(front, le), le, f);
      FilterLast(front, x, f);
      SortLast(Filter(front, f), x, le);
      assert Filter(front, f) + [] == Filter(front, f);
    }
  }

  /** What a filtered, ranked and cut list holds: only elements that pass, best first, and every element that
      passes unless `limit` others rank at least as well. */
  lemma BestThatPass<T(!new)>(s: seq<T>, le: (T, T) -> bool, f: T -> bool, limit: nat)
    requires Ranking(le)
    ensures var r := Take(Filter(Sort(s, le), f), limit);
      && |r| <= limit && SortedBy(r, le)
      && (forall i | 0 <= i < |r| :: r[i] in s && f(r[i]))
      && (forall x | x in s && f(x) :: x in r || (|r| == limit && forall i | 0 <= i < |r| :: le(r[i], x)))
  {
    var all := Filter(Sort(s, le), f);
    var r := Take(all, limit);
    FilterSort(s, le, f);
    SortSorts(Filter(s, f), le);
    SortElements(Filter(s, f), le);
    forall x
      ensures x in all <==> x in s && f(x)
    {
      FilterIsSubset(s, f, x);
      assert x in all <==> x in multiset(all);
      assert x in Filter(s, f) <==> x in multiset(Filter(s, f));
    }
    forall x | x in s && f(x)
      ensures x in r || (|r| == limit && forall i | 0 <= i < |r| :: le(r[i], x))
    {
      var k :| 0 <= k < |all| && all[k] == x;
      if k < |r| { assert r[k] == x; }
    }
    forall i | 0 <= i < |r| ensures r[i] in s && f(r[i]) { assert all[i] in all; }
  }

  // ---------------------------------------------------------------------------------------------
  // Distinct elements
  // ---------------------------------------------------------------------------------------------

  ghost predicate Distinct<T>(s: seq<T>) {
    forall i, j | 0 <= i < j < |s| :: s[i] != s[j]
  }

  lemma {:induction false} InsertDistinct<T>(x: T, s: seq<T>, le: (T, T) -> bool)
    requires Distinct(s) && x !in s
    ensures Distinct(Insert(x, s, le))
  {
    if s != [] && le(s[0], x) {
      InsertDistinct(x, s[1..], le);
      InsertElements(x, s[1..], le);
      var r := Insert(x, s[1..], le);
      assert s[0] !in multiset(r);
    }
  }

  lemma {:induction false} SortDistinct<T>(s: seq<T>, le: (T, T) -> bool)
    requires Distinct(s)
    ensures Distinct(Sort(s, le))
  {
    if s != [] {
      var front := s[..|s| - 1];
      SortDistinct(front, le);
      SortElements(front, le);
      assert s[|s| - 1] !in multiset(front);
      InsertDistinct(s[|s| - 1], Sort(front, le), le);
    }
  }

  lemma {:induction false} FilterDistinct<T>(s: seq<T>, f: T -> bool)
    requires Distinct(s)
    ensures Distinct(Filter(s, f))
  {
    if s != [] {
      FilterDistinct(s[1..], f);
      FilterIsSubset(s[1..], f, s[0]);
    }
  }
}
