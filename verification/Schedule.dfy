/**
 The circuit-verification queue: which bridges a tick picks, and why no due bridge waits longer than it
 takes to go once through the queue.
 */
module Schedule {
  import opened Text
  import opened Health
  import opened TopK
  import opened Ranking

  /** Channel-proven, not retired, never verified or verified at least `maxAge` ago, and in the caller's
      pool. */
  function DueAt(now: Time, maxAge: nat, pool: Bridge -> bool): Entry -> bool {
    (e: Entry) =>
      && e.channelOkCount > 0 && !e.IsRetired()
      && (e.lastVerified.Some? ==> now - e.lastVerified.value >= maxAge)
      && pool(e.bridge)
  }

  /** The due entries in queue order, with their positions in the store. */
  function Queue(values: seq<Entry>, due: Entry -> bool): seq<Placed<Entry>> {
    Filter(Sort(Enumerate(values), PlacedLe(TriedLe)), (p: Placed<Entry>) => due(p.entry))
  }

  /** When an entry was last tried: its last verification attempt or, if none is recorded, its last
      verification; "never" comes before every time. */
  predicate TriedNoLater(a: Entry, b: Entry) {
    var x := if a.lastVerificationAttempt.Some? then a.lastVerificationAttempt else a.lastVerified;
    var y := if b.lastVerificationAttempt.Some? then b.lastVerificationAttempt else b.lastVerified;
    x.None? || (y.Some? && x.value <= y.value)
  }

  /** The bridges a tick asks for, with `chosen` their entries. */
  method NeedingCircuitVerification(values: seq<Entry>, now: Time, maxAge: nat, limit: nat, pool: Bridge -> bool)
    returns (picked: seq<Bridge>, ghost chosen: seq<Entry>)
    ensures picked == Bridges(Entries(Take(Queue(values, DueAt(now, maxAge, pool)), limit)))
    ensures picked == Bridges(chosen) && |picked| <= limit
    ensures forall e | e in chosen ::
      && e in values && e.channelOkCount > 0 && e.circuitFails != 0xFFFF_FFFF && pool(e.bridge)
      && (e.lastVerified.None? || e.lastVerified.value + maxAge <= now)
    ensures forall i, j | 0 <= i < j < |chosen| :: TriedNoLater(chosen[i], chosen[j])
    ensures forall e |
      && e in values && e.channelOkCount > 0 && e.circuitFails != 0xFFFF_FFFF && pool(e.bridge)
      && (e.lastVerified.None? || e.lastVerified.value + maxAge <= now) ::
      e in chosen || (|picked| == limit && forall i | 0 <= i < |chosen| :: TriedNoLater(chosen[i], e))
  {
    OtherRankings();
    var due := DueAt(now, maxAge, pool);
    var candidates := Select(values, due);
    var ranked := RankAndTake(candidates, limit, TriedLe);
    QueueEntries(values, due);
    FilterSort(values, TriedLe, due);
    picked, chosen := Bridges(ranked), ranked;
    ChosenAreDue(values, now, maxAge, limit, pool, chosen);
  }

  lemma ChosenAreDue(
    values: seq<Entry>, now: Time, maxAge: nat, limit: nat, pool: Bridge -> bool, chosen: seq<Entry>)
    requires chosen == Take(Filter(Sort(values, TriedLe), DueAt(now, maxAge, pool)), limit)
    ensures |chosen| <= limit
    ensures forall e | e in chosen ::
      && e in values && e.channelOkCount > 0 && e.circuitFails != 0xFFFF_FFFF && pool(e.bridge)
      && (e.lastVerified.None? || e.lastVerified.value + maxAge <= now)
    ensures forall i, j | 0 <= i < j < |chosen| :: TriedNoLater(chosen[i], chosen[j])
    ensures forall e |
      && e in values && e.channelOkCount > 0 && e.circuitFails != 0xFFFF_FFFF && pool(e.bridge)
      && (e.lastVerified.None? || e.lastVerified.value + maxAge <= now) ::
      e in chosen || (|chosen| == limit && forall i | 0 <= i < |chosen| :: TriedNoLater(chosen[i], e))
  {
    var due := DueAt(now, maxAge, pool);
    OtherRankings();
    BestThatPass(values, TriedLe, due, limit);
    forall i, j | 0 <= i < j < |chosen| ensures TriedNoLater(chosen[i], chosen[j]) {
      TriedFieldByField(chosen[i], chosen[j]);
    }
    forall e | e in chosen ensures e in values && due(e) {
      var i :| 0 <= i < |chosen| && chosen[i] == e;
    }
    forall e ensures due(e) <==>
      && e.channelOkCount > 0 && e.circuitFails != 0xFFFF_FFFF && pool(e.bridge)
      && (e.lastVerified.None? || e.lastVerified.value + maxAge <= now)
    {
      DueFieldByField(now, maxAge, pool, e);
    }
    forall e | e in values && due(e)
      ensures e in chosen || (|chosen| == limit && forall i | 0 <= i < |chosen| :: TriedNoLater(chosen[i], e))
    {
      forall i | 0 <= i < |chosen| && TriedLe(chosen[i], e) ensures TriedNoLater(chosen[i], e) {
        TriedFieldByField(chosen[i], e);
      }
    }
  }

  lemma DueFieldByField(now: Time, maxAge: nat, pool: Bridge -> bool, e: Entry)
    ensures DueAt(now, maxAge, pool)(e) <==>
      && e.channelOkCount > 0 && e.circuitFails != 0xFFFF_FFFF && pool(e.bridge)
      && (e.lastVerified.None? || e.lastVerified.value + maxAge <= now)
  {
    assert e.IsRetired() <==> e.circuitFails == 0xFFFF_FFFF;
  }

  lemma TriedFieldByField(a: Entry, b: Entry)
    ensures TriedLe(a, b) <==> TriedNoLater(a, b)
  {
  }

  lemma {:induction false} FilterEntries(s: seq<Placed<Entry>>, due: Entry -> bool)
    ensures Entries(Filter(s, (p: Placed<Entry>) => due(p.entry))) == Filter(Entries(s), due)
  {
    var f := (p: Placed<Entry>) => due(p.entry);
    if s != [] {
      FilterEntries(s[1..], due);
      assert Entries(s)[1..] == Entries(s[1..]);
      assert Filter(s, f) == (if f(s[0]) then [s[0]] else []) + Filter(s[1..], f);
    }
  }

  lemma QueueEntries(values: seq<Entry>, due: Entry -> bool)
    ensures Entries(Queue(values, due)) == Filter(Sort(values, TriedLe), due)
  {
    OtherRankings();
    PlacedSortIsStableSort(values, TriedLe);
    FilterEntries(Sort(Enumerate(values), PlacedLe(TriedLe)), due);
  }

  // ---------------------------------------------------------------------------------------------
  // One tick
  // ---------------------------------------------------------------------------------------------

  ghost function DueSet(values: seq<Entry>, due: Entry -> bool): set<nat> {
    set p: nat | p < |values| && due(values[p])
  }

  function Positions(s: seq<Placed<Entry>>): set<nat> {
    set i | 0 <= i < |s| :: s[i].position
  }

  /** The store positions that a tick with this limit picks. */
  function Picked(values: seq<Entry>, due: Entry -> bool, limit: nat): set<nat> {
    Positions(Take(Queue(values, due), limit))
  }

  ghost predicate Ahead(values: seq<Entry>, p: nat, q: nat)
    requires p < |values| && q < |values|
  {
    Before(TriedLe, Placed(p, values[p]), Placed(q, values[q]))
  }

  /** The queue lists each due position once, in order. */
  lemma QueueIsOrdered(values: seq<Entry>, due: Entry -> bool)
    ensures SortedBy(Queue(values, due), PlacedLe(TriedLe)) && Distinct(Queue(values, due))
    ensures forall q :: q in Queue(values, due) <==>
      q.position < |values| && q.entry == values[q.position] && due(q.entry)
  {
    var e, le := Enumerate(values), PlacedLe(TriedLe);
    var f := (p: Placed<Entry>) => due(p.entry);
    OtherRankings();
    PlacedIsRanking(TriedLe);
    FilterSort(e, le, f);
    SortSorts(Filter(e, f), le);
    FilterDistinct(e, f);
    SortDistinct(Filter(e, f), le);
    SortElements(Filter(e, f), le);
    forall q
      ensures q in Queue(values, due) <==> q in e && due(q.entry)
    {
      FilterIsSubset(e, f, q);
      assert q in Queue(values, due) <==> q in multiset(Queue(values, due));
      assert q in Filter(e, f) <==> q in multiset(Filter(e, f));
    }
    forall q: Placed<Entry> | q.position < |values| && q.entry == values[q.position]
      ensures q in e
    {
      assert e[q.position] == q;
    }
  }

  lemma {:induction false} PositionsCount(values: seq<Entry>, s: seq<Placed<Entry>>)
    requires Distinct(s)
    requires forall i | 0 <= i < |s| :: s[i].position < |values| && s[i].entry == values[s[i].position]
    ensures |Positions(s)| == |s|
  {
    if s != [] {
      var n := |s| - 1;
      PositionsCount(values, s[..n]);
      assert Positions(s) == Positions(s[..n]) + {s[n].position};
      assert s[n].position !in Positions(s[..n]);
    }
  }

  /** The queue holds exactly the due positions. */
  lemma QueuePositions(values: seq<Entry>, due: Entry -> bool)
    ensures Positions(Queue(values, due)) == DueSet(values, due)
    ensures |Queue(values, due)| == |DueSet(values, due)|
  {
    var q := Queue(values, due);
    QueueIsOrdered(values, due);
    assert forall i | 0 <= i < |q| :: q[i] in q;
    PositionsCount(values, q);
    forall p | p in DueSet(values, due)
      ensures p in Positions(q)
    {
      assert Placed(p, values[p]) in q;
    }
  }

  /** In a sorted sequence, whatever is in the first part is before whatever is only in the rest. */
  lemma FrontIsBefore(q: seq<Placed<Entry>>, limit: nat, a: nat, b: nat)
    requires SortedBy(q, PlacedLe(TriedLe))
    requires a in Positions(Take(q, limit)) && b in Positions(q) - Positions(Take(q, limit))
    ensures exists i, j ::
      0 <= i < j < |q| && q[i].position == a && q[j].position == b && Before(TriedLe, q[i], q[j])
  {
    var front := Take(q, limit);
    var i :| 0 <= i < |front| && front[i].position == a;
    var j :| 0 <= j < |q| && q[j].position == b;
    assert forall k | 0 <= k < |front| :: front[k].position in Positions(front) && front[k] == q[k];
    assert j >= |front|;
    assert q[i].position == a && PlacedLe(TriedLe)(q[i], q[j]);
  }

  /** A tick picks the front of the queue: as many due positions as the limit allows, none of them behind a
      due position that is left out. */
  lemma PickedIsTheFront(values: seq<Entry>, due: Entry -> bool, limit: nat)
    ensures Picked(values, due, limit) <= DueSet(values, due)
    ensures |Picked(values, due, limit)| == Min(limit, |DueSet(values, due)|)
    ensures forall p, q | p in Picked(values, due, limit) && q in DueSet(values, due) - Picked(values, due, limit)
      :: Ahead(values, p, q)
  {
    var q := Queue(values, due);
    var front := Take(q, limit);
    QueueIsOrdered(values, due);
    QueuePositions(values, due);
    assert forall i | 0 <= i < |front| :: front[i] == q[i] && q[i] in q;
    PositionsCount(values, front);
    forall a, b | a in Positions(front) && b in Positions(q) - Positions(front)
      ensures Ahead(values, a, b)
    {
      FrontIsBefore(q, limit, a, b);
      var i, j :| 0 <= i < j < |q| && q[i].position == a && q[j].position == b && Before(TriedLe, q[i], q[j]);
      assert q[i] in q && q[j] in q;
    }
  }

  // ---------------------------------------------------------------------------------------------
  // The same by bridge
  // ---------------------------------------------------------------------------------------------

  /** The store lists its entries in the order of their identities, each once. */
  ghost predicate InMapOrder(values: seq<Entry>) {
    forall p, q | 0 <= p < q < |values| :: values[p].bridge.identity < values[q].bridge.identity
  }

  ghost function IdsAt(values: seq<Entry>, positions: set<nat>): set<nat> {
    set p | p in positions && p < |values| :: values[p].bridge.identity
  }

  ghost function DueIds(values: seq<Entry>, due: Entry -> bool): set<nat> {
    IdsAt(values, DueSet(values, due))
  }

  ghost function PickedIds(values: seq<Entry>, due: Entry -> bool, limit: nat): set<nat> {
    IdsAt(values, Picked(values, due, limit))
  }

  ghost predicate Holds(values: seq<Entry>, id: nat) {
    exists p: nat :: p < |values| && values[p].bridge.identity == id
  }

  /** The entry of a bridge. */
  ghost function At(values: seq<Entry>, id: nat): Entry
    requires Holds(values, id)
  {
    var p: nat :| p < |values| && values[p].bridge.identity == id;
    values[p]
  }

  lemma AtPosition(values: seq<Entry>, p: nat)
    requires InMapOrder(values) && p < |values|
    ensures Holds(values, values[p].bridge.identity) && At(values, values[p].bridge.identity) == values[p]
  {
    var q: nat :| q < |values| && values[q].bridge.identity == values[p].bridge.identity
      && At(values, values[p].bridge.identity) == values[q];
    assert p == q;
  }

  /** Tried less recently, ties in map order. */
  ghost predicate Sooner(a: Entry, b: Entry) {
    Before(TriedLe, Placed(a.bridge.identity, a), Placed(b.bridge.identity, b))
  }

  lemma IdsMore(values: seq<Entry>, positions: set<nat>, p: nat)
    requires InMapOrder(values) && p !in positions && p < |values| && forall q | q in positions :: q < |values|
    ensures IdsAt(values, positions + {p}) == IdsAt(values, positions) + {values[p].bridge.identity}
    ensures values[p].bridge.identity !in IdsAt(values, positions)
  {
  }

  lemma {:induction false} IdsCount(values: seq<Entry>, positions: set<nat>)
    requires InMapOrder(values) && forall p | p in positions :: p < |values|
    ensures |IdsAt(values, positions)| == |positions|
  {
    if positions != {} {
      var p :| p in positions;
      var fewer := positions - {p};
      IdsCount(values, fewer);
      IdsMore(values, fewer, p);
      assert positions == fewer + {p};
    }
  }

  lemma AheadIsSooner(values: seq<Entry>, p: nat, q: nat)
    requires InMapOrder(values) && p < |values| && q < |values| && Ahead(values, p, q)
    ensures Sooner(values[p], values[q])
  {
  }

  lemma PickedIsSooner(values: seq<Entry>, due: Entry -> bool, limit: nat, a: nat, b: nat)
    requires InMapOrder(values)
    requires a in PickedIds(values, due, limit) && b in DueIds(values, due) - PickedIds(values, due, limit)
    ensures Holds(values, a) && Holds(values, b) && Sooner(At(values, a), At(values, b))
  {
    var p :| p in Picked(values, due, limit) && p < |values| && values[p].bridge.identity == a;
    var q :| q in DueSet(values, due) && q < |values| && values[q].bridge.identity == b;
    PickedIsTheFront(values, due, limit);
    AheadIsSooner(values, p, q);
    AtPosition(values, p);
    AtPosition(values, q);
  }

  /** A tick picks as many due bridges as the limit allows, and none before which a due bridge left out should have
      come. */
  lemma TickPicks(values: seq<Entry>, due: Entry -> bool, limit: nat)
    requires InMapOrder(values)
    ensures PickedIds(values, due, limit) <= DueIds(values, due)
    ensures |PickedIds(values, due, limit)| == Min(limit, |DueIds(values, due)|)
    ensures forall a, b |
      a in PickedIds(values, due, limit) && b in DueIds(values, due) - PickedIds(values, due, limit) ::
      Holds(values, a) && Holds(values, b) && Sooner(At(values, a), At(values, b))
  {
    PickedIsTheFront(values, due, limit);
    IdsCount(values, Picked(values, due, limit));
    IdsCount(values, DueSet(values, due));
    forall a, b | a in PickedIds(values, due, limit) && b in DueIds(values, due) - PickedIds(values, due, limit)
      ensures Holds(values, a) && Holds(values, b) && Sooner(At(values, a), At(values, b))
    {
      PickedIsSooner(values, due, limit, a, b);
    }
  }

  lemma DueIsHeld(values: seq<Entry>, due: Entry -> bool, id: nat)
    requires id in DueIds(values, due)
    ensures Holds(values, id) && At(values, id).bridge.identity == id
  {
  }

  // ---------------------------------------------------------------------------------------------
  // Many ticks
  // ---------------------------------------------------------------------------------------------

  /** A run of ticks: the store and the due predicate that each tick sees, and the time with which the
      results of each tick are stamped.  Between ticks the store may gain and lose entries. */
  datatype Ticks = Ticks(stores: seq<seq<Entry>>, due: seq<Entry -> bool>, stamps: seq<Time>, limit: nat) {
    ghost function Due(j: nat): set<nat>
      requires j < |stores| == |due|
    {
      DueIds(stores[j], due[j])
    }

    ghost function PickedAt(j: nat): set<nat>
      requires j < |stores| == |due|
    {
      PickedIds(stores[j], due[j], limit)
    }
  }

  ghost predicate IsTicks(r: Ticks) {
    && |r.stores| == |r.due| == |r.stamps| && r.limit >= 1
    && (forall j | 0 <= j < |r.stores| :: InMapOrder(r.stores[j]))
    && (forall j: nat | j < |r.stores| - 1 :: Stamped(r.stores[j], r.stores[j + 1], r.PickedAt(j), r.stamps[j]))
  }

  /** Of the bridges in both stores, the picked ones carry the new attempt time and the others keep their place in
      the queue; everything else may change freely. */
  ghost predicate Stamped(values: seq<Entry>, values': seq<Entry>, picked: set<nat>, stamp: Time) {
    forall id | Holds(values, id) && Holds(values', id) ::
      if id in picked then At(values', id).lastVerificationAttempt == Some(stamp)
      else LastTried(At(values', id)) == LastTried(At(values, id))
  }

  /** No bridge becomes due that was not due before. */
  ghost predicate NoNewcomers(r: Ticks)
    requires IsTicks(r)
  {
    forall j: nat | j < |r.stores| - 1 :: r.Due(j + 1) <= r.Due(j)
  }

  /** Due bridges ahead of `x` at tick `j`. */
  ghost function AheadOf(r: Ticks, j: nat, x: nat): set<nat>
    requires IsTicks(r) && j < |r.stores| && Holds(r.stores[j], x)
  {
    set id | id in r.Due(j) && id != x && Holds(r.stores[j], id) && Sooner(At(r.stores[j], id), At(r.stores[j], x))
  }

  ghost predicate Waits(r: Ticks, x: nat, j: nat)
    requires IsTicks(r) && j < |r.stores|
  {
    x in r.Due(j) && x !in r.PickedAt(j)
  }

  /** Every stamp of the run is later than the last try of `x`. */
  ghost predicate StampsAreLater(r: Ticks, x: nat)
    requires IsTicks(r) && |r.stores| > 0 && Holds(r.stores[0], x)
  {
    forall j | 0 <= j < |r.stamps| :: CmpOption(LastTried(At(r.stores[0], x)), Some(r.stamps[j])).Less?
  }

  lemma {:induction false} WaitingKeepsItsPlace(r: Ticks, x: nat, j: nat)
    requires IsTicks(r) && j < |r.stores| && x in r.Due(j)
    requires forall i: nat | i < j :: Waits(r, x, i)
    ensures Holds(r.stores[0], x) && Holds(r.stores[j], x)
    ensures LastTried(At(r.stores[j], x)) == LastTried(At(r.stores[0], x))
  {
    DueIsHeld(r.stores[j], r.due[j], x);
    if j > 0 {
      assert Waits(r, x, j - 1);
      WaitingKeepsItsPlace(r, x, j - 1);
      assert Stamped(r.stores[j - 1], r.stores[j - 1 + 1], r.PickedAt(j - 1), r.stamps[j - 1]);
    }
  }

  /** One tick while `x` waits: what was picked goes behind `x`, and nothing else comes ahead of it. */
  lemma TickMovesOn(v: seq<Entry>, v': seq<Entry>, picked: set<nat>, stamp: Time, x: nat, id: nat)
    requires Stamped(v, v', picked, stamp) && x !in picked
    requires Holds(v, x) && Holds(v', x) && Holds(v, id) && Holds(v', id)
    requires CmpOption(LastTried(At(v, x)), Some(stamp)).Less?
    ensures At(v, x).bridge.identity == At(v', x).bridge.identity == x
    ensures At(v, id).bridge.identity == At(v', id).bridge.identity == id
    ensures Sooner(At(v', id), At(v', x)) ==> id !in picked && Sooner(At(v, id), At(v, x))
  {
  }

  /** While `x` waits, each tick takes `limit` bridges from those ahead of it and puts none back. */
  lemma OneTickCloser(r: Ticks, x: nat, j: nat)
    requires IsTicks(r) && NoNewcomers(r) && j + 1 < |r.stores| && x in r.Due(j + 1)
    requires forall i: nat | i <= j :: Waits(r, x, i)
    requires Holds(r.stores[0], x) && StampsAreLater(r, x)
    ensures Holds(r.stores[j], x) && Holds(r.stores[j + 1], x)
    ensures |AheadOf(r, j + 1, x)| <= |AheadOf(r, j, x)| - r.limit
  {
    var v, v', picked := r.stores[j], r.stores[j + 1], r.PickedAt(j);
    assert Waits(r, x, j);
    WaitingKeepsItsPlace(r, x, j);
    WaitingKeepsItsPlace(r, x, j + 1);
    TickPicks(v, r.due[j], r.limit);
    ProperSubsetIsSmaller(picked, r.Due(j));
    assert picked <= AheadOf(r, j, x);
    assert Stamped(v, v', picked, r.stamps[j]);
    forall id | id in AheadOf(r, j + 1, x)
      ensures id in AheadOf(r, j, x) - picked
    {
      DueIsHeld(v, r.due[j], id);
      TickMovesOn(v, v', picked, r.stamps[j], x, id);
    }
    SubsetIsSmaller(AheadOf(r, j + 1, x), AheadOf(r, j, x) - picked);
  }

  lemma SubsetIsSmaller<T>(a: set<T>, b: set<T>)
    requires a <= b
    ensures |a| <= |b|
  {
    assert b == a + (b - a);
  }

  lemma ProperSubsetIsSmaller<T>(a: set<T>, b: set<T>)
    requires a < b
    ensures |a| < |b|
  {
    assert b == a + (b - a) && b - a != {};
  }

  lemma {:induction false} QueueAheadShrinks(r: Ticks, x: nat, j: nat)
    requires IsTicks(r) && NoNewcomers(r) && j < |r.stores| && x in r.Due(j)
    requires forall i: nat | i < j :: Waits(r, x, i)
    requires Holds(r.stores[0], x) && StampsAreLater(r, x)
    ensures Holds(r.stores[j], x)
    ensures |AheadOf(r, j, x)| <= |AheadOf(r, 0, x)| - j * r.limit
  {
    if j > 0 {
      assert Waits(r, x, j - 1);
      QueueAheadShrinks(r, x, j - 1);
      OneTickCloser(r, x, j - 1);
      OneLimitLess(|AheadOf(r, 0, x)|, |AheadOf(r, j - 1, x)|, |AheadOf(r, j, x)|, j, r.limit);
    }
  }

  lemma OneLimitLess(first: int, before: int, now: int, j: nat, limit: nat)
    requires j > 0 && before <= first - (j - 1) * limit && now <= before - limit
    ensures now <= first - j * limit
  {
  }

  /** No starvation: with `n` bridges due and at least `n / limit` ticks (rounded up), every bridge that stays
      due is picked by one of them, whatever other bridges come and go. */
  lemma NoStarvation(r: Ticks, x: nat)
    requires IsTicks(r) && NoNewcomers(r) && |r.stores| > 0
    requires |r.stores| * r.limit >= |r.Due(0)|
    requires forall j: nat | j < |r.stores| :: x in r.Due(j)
    requires Holds(r.stores[0], x) && StampsAreLater(r, x)
    ensures exists j: nat | j < |r.stores| :: x in r.PickedAt(j)
  {
    if forall j: nat | j < |r.stores| :: x !in r.PickedAt(j) {
      var last := |r.stores| - 1;
      assert |r.stores| * r.limit == last * r.limit + r.limit;
      forall i: nat | i <= last ensures Waits(r, x, i) {}
      QueueAheadShrinks(r, x, last);
      SubsetIsSmaller(AheadOf(r, 0, x), r.Due(0) - {x});
      // at the last tick fewer than `limit` bridges are ahead, so `x` is picked
      TickPicks(r.stores[last], r.due[last], r.limit);
      ProperSubsetIsSmaller(r.PickedAt(last), r.Due(last));
      assert r.PickedAt(last) <= AheadOf(r, last, x);
      SubsetIsSmaller(r.PickedAt(last), AheadOf(r, last, x));
      assert false;
    }
  }
}
