/**
 The DNS answer cache: live answers bound to a network generation, a fallback store of wall-clock-stamped
 answers, the flush that moves one into the other, and the captures that save both.  Every method is one
 call made by one thread; the interleavings are the subject of DnsFlush and DnsSave.
 */
module DnsCache {
  import opened Text
  import TopK

  type Host = string
  type Addr = nat

  /** A live answer; no addresses means a remembered failure.  `expiresAt` is monotonic nanoseconds, `stamp`
      wall-clock seconds. */
  datatype Cached = Cached(addrs: seq<Addr>, expiresAt: int, stamp: nat, generation: nat, version: nat)

  datatype Persisted = Persisted(addrs: seq<Addr>, stamp: nat)

  datatype Hint = Hint(host: Host, answer: Persisted)

  datatype Identity = Identity(generation: nat, version: nat)

  type Live = map<Host, Cached>
  type Store = map<Host, Persisted>

  const NANOS := 1_000_000_000
  const WINDOW_SECS := 24 * 60 * 60
  const WINDOW := WINDOW_SECS * NANOS
  const NEGATIVE_TTL := 120 * NANOS
  const MIN_TTL := 60 * NANOS
  const MAX_TTL := 30 * 60 * NANOS
  const CAP := 2048

  function Clamp(x: int, lo: int, hi: int): int {
    if x < lo then lo else if x > hi then hi else x
  }

  function SaturatingSub(a: nat, b: nat): nat {
    if a < b then 0 else a - b
  }

  predicate Usable(e: Cached, now: int) {
    e.expiresAt > now || now - e.expiresAt <= WINDOW
  }

  /** A positive answer that is fresh, or stale within the fallback window. */
  predicate Servable(e: Cached, now: int) {
    e.addrs != [] && Usable(e, now)
  }

  predicate InWindow(stamp: nat, wall: nat) {
    SaturatingSub(wall, stamp) <= WINDOW_SECS
  }

  /** The servable part of the live cache, in the form it is stored. */
  function Preserved(live: Live, now: int): Store {
    map h | h in live && Servable(live[h], now) :: Persisted(live[h].addrs, live[h].stamp)
  }

  /** The in-window part of the store, without hosts already listed from the live cache. */
  function DiskOnly(store: Store, listed: set<Host>, wall: nat): Store {
    map h | h in store && h !in listed && InWindow(store[h].stamp, wall) :: store[h]
  }

  /** `merge_disk_fallback_entry`: a strictly newer stamp wins. */
  function Merge(store: Store, hint: Hint): Store {
    if hint.host in store && store[hint.host].stamp >= hint.answer.stamp then store
    else store[hint.host := hint.answer]
  }

  function MergeAll(store: Store, hints: seq<Hint>): Store {
    if hints == [] then store else Merge(MergeAll(store, hints[..|hints| - 1]), hints[|hints| - 1])
  }

  /** The best answer for a host: a servable live one, else the stored one while in the window. */
  function BestKnown(live: Live, store: Store, host: Host, now: int, wall: nat): Option<Persisted> {
    if host in live && Servable(live[host], now) then Some(Persisted(live[host].addrs, live[host].stamp))
    else if host in store && InWindow(store[host].stamp, wall) then Some(store[host])
    else None
  }

  // ---------------------------------------------------------------------------------------------
  // Merging
  // ---------------------------------------------------------------------------------------------

  function Max(a: int, b: int): int {
    if a < b then b else a
  }

  /** The greatest stamp offered for a host by a store and a sequence of hints; -1 when none was. */
  function GreatestStamp(store: Store, hints: seq<Hint>, host: Host): int {
    if hints == [] then (if host in store then store[host].stamp else -1)
    else
      var before := GreatestStamp(store, hints[..|hints| - 1], host);
      var last := hints[|hints| - 1];
      if last.host == host then Max(before, last.answer.stamp) else before
  }

  /** After any merges the entry for a host carries the greatest stamp ever offered for it, and is one of the
      answers offered. */
  lemma {:induction false} MergeKeepsGreatestStamp(store: Store, hints: seq<Hint>, host: Host)
    ensures var merged := MergeAll(store, hints);
      && (host in merged <==> GreatestStamp(store, hints, host) >= 0)
      && (host in merged ==>
            && merged[host].stamp == GreatestStamp(store, hints, host)
            && ((host in store && merged[host] == store[host]) || Hint(host, merged[host]) in hints))
  {
    if hints != [] {
      MergeKeepsGreatestStamp(store, hints[..|hints| - 1], host);
      assert hints == hints[..|hints| - 1] + [hints[|hints| - 1]];
    }
  }

  /** `m` bounds every stamp offered and is one of them (or nothing was offered). */
  ghost predicate IsGreatest(store: Store, hints: multiset<Hint>, host: Host, m: int) {
    && m >= -1
    && (host in store ==> store[host].stamp <= m)
    && (forall x | x in hints && x.host == host :: x.answer.stamp <= m)
    && (m == -1 || (host in store && store[host].stamp == m)
        || exists x :: x in hints && x.host == host && x.answer.stamp == m)
  }

  lemma {:induction false} GreatestStampIs(store: Store, hints: seq<Hint>, host: Host)
    ensures IsGreatest(store, multiset(hints), host, GreatestStamp(store, hints, host))
  {
    if hints != [] {
      var front, last := hints[..|hints| - 1], hints[|hints| - 1];
      GreatestStampIs(store, front, host);
      assert hints == front + [last];
      var m := GreatestStamp(store, hints, host);
      if m == GreatestStamp(store, front, host) {
        if x: Hint :| x in multiset(front) && x.host == host && x.answer.stamp == m { assert x in multiset(hints); }
      } else {
        assert last in multiset(hints);
      }
    }
  }

  /** Whatever order the same answers arrive in, every host ends with the same stamp. */
  lemma MergeOrderIsIrrelevant(store: Store, a: seq<Hint>, b: seq<Hint>, host: Host)
    requires multiset(a) == multiset(b)
    ensures var ma, mb := MergeAll(store, a), MergeAll(store, b);
      && (host in ma <==> host in mb)
      && (host in ma ==> ma[host].stamp == mb[host].stamp)
  {
    GreatestStampIs(store, a, host);
    GreatestStampIs(store, b, host);
    MergeKeepsGreatestStamp(store, a, host);
    MergeKeepsGreatestStamp(store, b, host);
  }

  // ---------------------------------------------------------------------------------------------
  // Listings: what iterating over a hash map yields, in some order
  // ---------------------------------------------------------------------------------------------

  function Hosts(hints: seq<Hint>): set<Host> {
    set i | 0 <= i < |hints| :: hints[i].host
  }

  ghost predicate DistinctHosts(hints: seq<Hint>) {
    forall i, j | 0 <= i < j < |hints| :: hints[i].host != hints[j].host
  }

  /** `hints` holds every entry of `m` exactly once. */
  ghost predicate Lists(hints: seq<Hint>, m: Store) {
    && DistinctHosts(hints)
    && Hosts(hints) == m.Keys
    && forall i | 0 <= i < |hints| :: hints[i].host in m && m[hints[i].host] == hints[i].answer
  }

  lemma ListsOneMore(hints: seq<Hint>, m: Store, host: Host, answer: Persisted)
    requires Lists(hints, m) && host !in m
    ensures Lists(hints + [Hint(host, answer)], m[host := answer])
  {
    var more, bigger := hints + [Hint(host, answer)], m[host := answer];
    assert forall i | 0 <= i < |hints| :: hints[i].host in Hosts(hints);
    assert Hosts(more) == bigger.Keys by {
      assert forall h | h in Hosts(hints) :: h in Hosts(more) by {
        forall h | h in Hosts(hints) ensures h in Hosts(more) {
          var i :| 0 <= i < |hints| && hints[i].host == h;
          assert more[i].host == h;
        }
      }
      assert more[|hints|].host == host;
    }
  }

  method Listing(m: Store) returns (hints: seq<Hint>)
    ensures Lists(hints, m)
  {
    hints := [];
    var todo := m.Keys;
    ghost var seen: Store := map[];
    while todo != {}
      invariant todo <= m.Keys && seen.Keys == m.Keys - todo
      invariant forall h | h in seen :: seen[h] == m[h]
      invariant Lists(hints, seen)
      decreases |todo|
    {
      var host :| host in todo;
      ListsOneMore(hints, seen, host, m[host]);
      hints := hints + [Hint(host, m[host])];
      seen := seen[host := m[host]];
      todo := todo - {host};
    }
    assert seen == m;
  }

  // ---------------------------------------------------------------------------------------------
  // The cap
  // ---------------------------------------------------------------------------------------------

  function Retained(live: Live, now: int): Live {
    map h | h in live && live[h].expiresAt + WINDOW > now :: live[h]
  }

  /** Of a full cache, a quarter of the cap is dropped, the answers closest to falling out of the window
      first; hosts that tie may go either way. */
  ghost predicate Sheds(recent: Live, kept: Live) {
    && kept.Keys <= recent.Keys
    && (forall h | h in kept :: kept[h] == recent[h])
    && |kept| == |recent| - CAP / 4
    && forall h, g | h in kept && g in recent && g !in kept :: recent[g].expiresAt <= recent[h].expiresAt
  }

  /** What the cap may leave of the cache before an insert. */
  ghost predicate MakesRoom(live: Live, kept: Live, now: int) {
    if |live| < CAP then kept == live
    else if |Retained(live, now)| < CAP then kept == Retained(live, now)
    else Sheds(Retained(live, now), kept)
  }

  /** Everything kept is unchanged, there is room, and whatever was dropped was outside the fallback window or
      no better than anything kept. */
  lemma MakesRoomLeaves(live: Live, kept: Live, now: int)
    requires MakesRoom(live, kept, now) && |live| <= CAP
    ensures |kept| < CAP && kept.Keys <= live.Keys && forall h | h in kept :: kept[h] == live[h]
    ensures forall g | g in live && g !in kept ::
      live[g].expiresAt + 86_400_000_000_000 <= now || forall h | h in kept :: live[g].expiresAt <= live[h].expiresAt
    ensures |live| < 2048 ==> kept == live
    ensures forall g | g in live && g !in kept && live[g].expiresAt + 86_400_000_000_000 > now ::
      var recent := set h | h in live && live[h].expiresAt + 86_400_000_000_000 > now;
      |recent| >= 2048 && kept.Keys <= recent && |kept.Keys| == |recent| - 512
  {
    SmallerMap(Retained(live, now), live);
    assert |Retained(live, now)| == |Retained(live, now).Keys| && |kept| == |kept.Keys|;
    assert Retained(live, now).Keys == set h | h in live && live[h].expiresAt + 86_400_000_000_000 > now;
  }

  lemma SmallerMap(a: Live, b: Live)
    requires a.Keys <= b.Keys
    ensures |a| <= |b|
  {
    SmallerSet(a.Keys, b.Keys);
    assert |a| == |a.Keys| && |b| == |b.Keys|;
  }

  lemma OneMoreKey(m: Live, host: Host, answer: Cached)
    ensures |m[host := answer]| <= |m| + 1
  {
    assert m[host := answer].Keys == m.Keys + {host};
    assert |m[host := answer]| == |m[host := answer].Keys| && |m| == |m.Keys|;
  }

  lemma {:induction false} SmallerSet<T>(a: set<T>, b: set<T>)
    requires a <= b
    ensures |a| <= |b| && |b - a| == |b| - |a|
  {
    if a != {} {
      var x :| x in a;
      SmallerSet(a - {x}, b - {x});
      assert (b - {x}) - (a - {x}) == b - a;
    }
  }

  predicate ByExpiry(a: (Host, int), b: (Host, int)) {
    a.1 <= b.1
  }

  /** The hosts of a map with their expiry, each once. */
  ghost predicate ListsExpiries(es: seq<(Host, int)>, live: Live) {
    && (forall i | 0 <= i < |es| :: es[i].0 in live && live[es[i].0].expiresAt == es[i].1)
    && (forall i, j | 0 <= i < j < |es| :: es[i].0 != es[j].0)
    && |es| == |live|
  }

  method Expiries(live: Live) returns (es: seq<(Host, int)>)
    ensures ListsExpiries(es, live)
  {
    es := [];
    var todo := live.Keys;
    assert |live| == |live.Keys|;
    while todo != {}
      invariant todo <= live.Keys && |es| + |todo| == |live|
      invariant forall i | 0 <= i < |es| :: es[i].0 in live && es[i].0 !in todo && live[es[i].0].expiresAt == es[i].1
      invariant forall i, j | 0 <= i < j < |es| :: es[i].0 != es[j].0
      decreases |todo|
    {
      var host :| host in todo;
      es := es + [(host, live[host].expiresAt)];
      todo := todo - {host};
    }
  }

  lemma SortKeepsListing(es: seq<(Host, int)>, live: Live)
    requires ListsExpiries(es, live)
    ensures ListsExpiries(TopK.Sort(es, ByExpiry), live) && TopK.SortedBy(TopK.Sort(es, ByExpiry), ByExpiry)
  {
    var sorted := TopK.Sort(es, ByExpiry);
    TopK.SortElements(es, ByExpiry);
    TopK.SortSorts(es, ByExpiry);
    forall i | 0 <= i < |sorted|
      ensures sorted[i].0 in live && live[sorted[i].0].expiresAt == sorted[i].1
    {
      assert sorted[i] in multiset(sorted);
      assert sorted[i] in es;
    }
    forall i, j | 0 <= i < j < |sorted|
      ensures sorted[i].0 != sorted[j].0
    {
      if sorted[i].0 == sorted[j].0 {
        assert sorted[i] == sorted[j];
        RepeatCounts(sorted, i, j);
        NoRepeats(es);
        assert false;
      }
    }
  }

  lemma RepeatCounts<T>(s: seq<T>, i: nat, j: nat)
    requires i < j < |s| && s[i] == s[j]
    ensures multiset(s)[s[i]] >= 2
  {
    assert s == s[..j] + [s[j]] + s[j + 1..];
    assert s[i] in s[..j];
  }

  lemma {:induction false} NoRepeats(es: seq<(Host, int)>)
    requires forall i, j | 0 <= i < j < |es| :: es[i].0 != es[j].0
    ensures forall x :: multiset(es)[x] <= 1
  {
    if es != [] {
      var front, last := es[..|es| - 1], es[|es| - 1];
      NoRepeats(front);
      assert es == front + [last];
      assert last !in front;
    }
  }

  /** Drops the first `k` of a sorted listing. */
  ghost predicate Dropped(recent: Live, es: seq<(Host, int)>, k: nat, kept: Live) {
    && k <= |es|
    && (forall h :: h in kept <==> h in recent && forall i | 0 <= i < k :: es[i].0 != h)
    && (forall h | h in kept :: kept[h] == recent[h])
    && |kept| == |recent| - k
  }

  lemma DropOneMore(recent: Live, es: seq<(Host, int)>, k: nat, kept: Live)
    requires ListsExpiries(es, recent) && k < |es| && Dropped(recent, es, k, kept)
    ensures Dropped(recent, es, k + 1, kept - {es[k].0})
  {
    var less := kept - {es[k].0};
    assert es[k].0 in kept;
    assert less.Keys == kept.Keys - {es[k].0};
    assert |less| == |less.Keys| && |kept| == |kept.Keys|;
  }

  lemma DroppedSheds(recent: Live, es: seq<(Host, int)>, kept: Live)
    requires ListsExpiries(es, recent) && TopK.SortedBy(es, ByExpiry) && |recent| >= CAP
    requires Dropped(recent, es, CAP / 4, kept)
    ensures Sheds(recent, kept)
  {
    forall h, g | h in kept && g in recent && g !in kept
      ensures recent[g].expiresAt <= recent[h].expiresAt
    {
      ListsAll(es, recent, h);
      var j :| 0 <= j < |es| && es[j].0 == h;
      var i :| 0 <= i < CAP / 4 && es[i].0 == g;
      assert ByExpiry(es[i], es[j]);
    }
  }

  lemma ListsAll(es: seq<(Host, int)>, live: Live, h: Host)
    requires ListsExpiries(es, live) && h in live
    ensures exists j :: 0 <= j < |es| && es[j].0 == h
  {
    var hosts := set j | 0 <= j < |es| :: es[j].0;
    AsMany(es, hosts);
    SmallerSet(hosts, live.Keys);
    assert |live| == |live.Keys|;
    assert live.Keys - hosts == {};
  }

  lemma {:induction false} AsMany(es: seq<(Host, int)>, hosts: set<Host>)
    requires forall i, j | 0 <= i < j < |es| :: es[i].0 != es[j].0
    requires hosts == set j | 0 <= j < |es| :: es[j].0
    ensures |hosts| == |es|
  {
    if es != [] {
      var front, last := es[..|es| - 1], es[|es| - 1];
      var fewer := set j | 0 <= j < |front| :: front[j].0;
      AsMany(front, fewer);
      assert hosts == fewer + {last.0} by {
        forall h | h in hosts ensures h in fewer + {last.0} {
          var j :| 0 <= j < |es| && es[j].0 == h;
          assert j < |front| ==> front[j].0 == h;
        }
        forall h | h in fewer ensures h in hosts {
          var j :| 0 <= j < |front| && front[j].0 == h;
          assert es[j].0 == h;
        }
      }
      assert last.0 !in fewer;
    }
  }

  method ShedClosest(recent: Live) returns (kept: Live)
    requires |recent| >= CAP
    ensures Sheds(recent, kept)
  {
    var byExpiry := Expiries(recent);
    SortKeepsListing(byExpiry, recent);
    byExpiry := TopK.Sort(byExpiry, ByExpiry);
    kept := recent;
    for k := 0 to CAP / 4
      invariant Dropped(recent, byExpiry, k, kept)
    {
      DropOneMore(recent, byExpiry, k, kept);
      kept := kept - {byExpiry[k].0};
    }
    DroppedSheds(recent, byExpiry, kept);
  }

  /** The cap check of `insert_capped`, on any cache that is not over the cap. */
  method MakeRoom(live: Live, now: int) returns (kept: Live)
    requires |live| <= CAP
    ensures MakesRoom(live, kept, now)
    ensures |kept| < CAP && kept.Keys <= live.Keys && forall h | h in kept :: kept[h] == live[h]
  {
    kept := live;
    if |live| >= CAP {
      kept := Retained(live, now);
      if |kept| >= CAP {
        kept := ShedClosest(kept);
      }
    }
    MakesRoomLeaves(live, kept, now);
  }

  /** `after` is `before` with room made for the answer and the answer put in. */
  ghost predicate Inserted(before: Live, after: Live, host: Host, answer: Cached, now: int) {
    exists kept :: MakesRoom(before, kept, now) && after == kept[host := answer]
  }

  // ---------------------------------------------------------------------------------------------
  // The cache object
  // ---------------------------------------------------------------------------------------------

  /** The process-wide state: both stores, the network generation and the version counter. */
  class Resolver {
    var live: Live
    var store: Store
    var generation: nat
    var nextVersion: nat

    constructor ()
      ensures live == map[] && store == map[] && generation == 0 && nextVersion == 0
    {
      live, store, generation, nextVersion := map[], map[], 0, 0;
    }

    ghost predicate Valid()
      reads this
    {
      |live| <= CAP && forall h | h in live :: live[h].generation == generation
    }

    /** `insert_capped`: the answer is stamped with the current generation and a version never used before. */
    method InsertCapped(host: Host, addrs: seq<Addr>, expiresAt: int, stamp: nat, now: int)
      requires Valid()
      modifies `live, `nextVersion
      ensures Valid() && nextVersion == old(nextVersion) + 1
      ensures Inserted(old(live), live, host, Cached(addrs, expiresAt, stamp, generation, old(nextVersion)), now)
      ensures host in live && live[host] == Cached(addrs, expiresAt, stamp, generation, old(nextVersion))
      ensures forall h | h in live && h != host :: h in old(live) && live[h] == old(live)[h]
    {
      var answer := Cached(addrs, expiresAt, stamp, generation, nextVersion);
      nextVersion := nextVersion + 1;
      var kept := MakeRoom(live, now);
      OneMoreKey(kept, host, answer);
      live := kept[host := answer];
    }

    /** A lookup that captured another generation writes nothing. */
    method RememberAnswerIfGeneration(
      host: Host, ips: seq<Addr>, validFor: int, expected: nat, now: int, wall: nat)
      returns (published: Option<Identity>)
      requires Valid()
      modifies `live, `nextVersion
      ensures Valid()
      ensures published.Some? <==> generation == expected
      ensures published.None? ==> live == old(live) && nextVersion == old(nextVersion)
      ensures published.Some? ==>
        host in live && published.value == Identity(live[host].generation, live[host].version)
      ensures published.Some? ==> Inserted(old(live), live, host,
        Cached(ips, now + Clamp(validFor, MIN_TTL, MAX_TTL), wall, generation, old(nextVersion)), now)
      ensures published.Some? ==> nextVersion == old(nextVersion) + 1
      ensures published.Some? ==>
        && live[host].addrs == ips && live[host].stamp == wall
        && live[host].expiresAt == now + (if validFor < 60_000_000_000 then 60_000_000_000
                                          else if validFor > 1_800_000_000_000 then 1_800_000_000_000 else validFor)
      ensures forall h | h in live && h != host :: h in old(live) && live[h] == old(live)[h]
    {
      if generation != expected {
        return None;
      }
      InsertCapped(host, ips, now + Clamp(validFor, MIN_TTL, MAX_TTL), wall, now);
      published := Some(Identity(live[host].generation, live[host].version));
    }

    /** A failed lookup replaces nothing that is still fresh and positive, whatever generation it has. */
    method RememberFailureIfGeneration(host: Host, expected: nat, now: int, wall: nat) returns (stored: bool)
      requires Valid()
      modifies `live, `nextVersion
      ensures Valid()
      ensures stored <==>
        generation == expected
        && !(host in old(live) && old(live)[host].addrs != [] && old(live)[host].expiresAt > now)
      ensures !stored ==> live == old(live) && nextVersion == old(nextVersion)
      ensures stored ==> Inserted(old(live), live, host,
        Cached([], now + NEGATIVE_TTL, wall, generation, old(nextVersion)), now)
      ensures stored ==> nextVersion == old(nextVersion) + 1
      ensures stored ==> host in live && live[host].addrs == [] && live[host].expiresAt == now + 120_000_000_000
      ensures forall h | h in live && h != host :: h in old(live) && live[h] == old(live)[h]
    {
      if generation != expected {
        return false;
      }
      if host in live && live[host].generation == expected && live[host].addrs != [] && live[host].expiresAt > now {
        return false;
      }
      InsertCapped(host, [], now + NEGATIVE_TTL, wall, now);
      stored := true;
    }

    /** Only the very answer that was observed can be dropped, and only if all the tried addresses are its. */
    method InvalidateIfCurrent(host: Host, observed: Identity, tried: seq<Addr>) returns (removed: bool)
      requires Valid()
      modifies `live
      ensures Valid()
      ensures removed <==>
        && host in old(live)
        && Identity(old(live)[host].generation, old(live)[host].version) == observed
        && old(live)[host].addrs != [] && tried != []
        && forall a | a in tried :: a in old(live)[host].addrs
      ensures live == if removed then old(live) - {host} else old(live)
    {
      if generation != observed.generation {
        return false;
      }
      if host !in live {
        return false;
      }
      var entry := live[host];
      if Identity(entry.generation, entry.version) != observed
         || entry.addrs == [] || tried == [] || !(forall a | a in tried :: a in entry.addrs) {
        return false;
      }
      SmallerMap(live - {host}, live);
      live := live - {host};
      removed := true;
    }

    method MergeDiskFallbackEntry(hint: Hint)
      modifies `store
      ensures store == Merge(old(store), hint)
    {
      var keepExisting := hint.host in store && store[hint.host].stamp >= hint.answer.stamp;
      if !keepExisting {
        store := store[hint.host := hint.answer];
      }
    }

    /** `seed_disk_fallback`, and the merges of `load_persisted_dns_cache`. */
    method SeedDiskFallback(hints: seq<Hint>)
      modifies `store
      ensures store == MergeAll(old(store), hints)
    {
      for i := 0 to |hints|
        invariant store == MergeAll(old(store), hints[..i])
      {
        assert hints[..i + 1][..i] == hints[..i];
        MergeDiskFallbackEntry(hints[i]);
      }
      assert hints[..|hints|] == hints;
    }

    /** `flush_dns_cache`: a new generation, an empty live cache, and every servable answer merged into the
        store, in whatever order the cache was iterated. */
    method FlushDnsCache(now: int)
      requires Valid()
      modifies this
      ensures Valid() && generation == old(generation) + 1 && live == map[]
      ensures nextVersion == old(nextVersion)
      ensures store == Migrated(old(store), Preserved(old(live), now))
      ensures forall h :: h in store <==>
        || h in old(store)
        || (h in old(live) && old(live)[h].addrs != [] && now <= old(live)[h].expiresAt + 86_400_000_000_000)
      ensures forall h | h in store ::
        if h in old(live) && old(live)[h].addrs != [] && now <= old(live)[h].expiresAt + 86_400_000_000_000
           && (h in old(store) ==> old(store)[h].stamp < old(live)[h].stamp)
        then store[h] == Persisted(old(live)[h].addrs, old(live)[h].stamp)
        else h in old(store) && store[h] == old(store)[h]
      ensures (forall h | h in old(store) :: old(store)[h].addrs != []) ==>
        forall h | h in store :: store[h].addrs != []
    {
      var preserved := Listing(Preserved(live, now));
      generation := generation + 1;
      live := map[];
      SeedDiskFallback(preserved);
      MergeListing(old(store), preserved, Preserved(old(live), now));
    }

    method BestKnownAnswer(host: Host, now: int, wall: nat) returns (best: Option<Hint>)
      ensures best == match BestKnown(live, store, host, now, wall)
                      case Some(answer) => Some(Hint(host, answer))
                      case None => None
      ensures best ==
        if host in live && live[host].addrs != [] && now <= live[host].expiresAt + 86_400_000_000_000
        then Some(Hint(host, Persisted(live[host].addrs, live[host].stamp)))
        else if host in store && wall <= store[host].stamp + 86_400 then Some(Hint(host, store[host]))
        else None
    {
      if host in live {
        var entry := live[host];
        if entry.addrs != [] && Usable(entry, now) {
          return Some(Hint(host, Persisted(entry.addrs, entry.stamp)));
        }
      }
      if host !in store {
        return None;
      }
      if SaturatingSub(wall, store[host].stamp) > WINDOW_SECS {
        return None;
      }
      best := Some(Hint(host, store[host]));
    }

    /** The two snapshots of a save: each host at most once, and for every host exactly the answer
        `best_known_answer` would give at that moment. */
    method CaptureSnapshots(now: int, wall: nat) returns (liveSnapshot: seq<Hint>, diskSnapshot: seq<Hint>)
      ensures Lists(liveSnapshot, Preserved(live, now))
      ensures Lists(diskSnapshot, DiskOnly(store, Hosts(liveSnapshot), wall))
      ensures DistinctHosts(liveSnapshot + diskSnapshot)
      ensures forall h, a :: Hint(h, a) in liveSnapshot + diskSnapshot <==>
        BestKnown(live, store, h, now, wall) == Some(a)
      ensures forall h, a :: Hint(h, a) in liveSnapshot <==>
        && h in live && live[h].addrs != [] && now <= live[h].expiresAt + 86_400_000_000_000
        && a.addrs == live[h].addrs && a.stamp == live[h].stamp
      ensures forall h, a :: Hint(h, a) in diskSnapshot <==>
        && h in store && a == store[h] && wall <= a.stamp + 86_400
        && !(h in live && live[h].addrs != [] && now <= live[h].expiresAt + 86_400_000_000_000)
    {
      liveSnapshot := Listing(Preserved(live, now));
      diskSnapshot := Listing(DiskOnly(store, Hosts(liveSnapshot), wall));
      SnapshotIsBestKnown(live, store, now, wall, liveSnapshot, diskSnapshot);
      ListingIs(liveSnapshot, Preserved(live, now));
      ListingIs(diskSnapshot, DiskOnly(store, Hosts(liveSnapshot), wall));
    }
  }

  // ---------------------------------------------------------------------------------------------
  // Flush and capture
  // ---------------------------------------------------------------------------------------------

  /** The store after a flush, host by host. */
  function Migrated(store: Store, preserved: Store): Store {
    map h | h in store.Keys + preserved.Keys ::
      if h in preserved && !(h in store && store[h].stamp >= preserved[h].stamp) then preserved[h] else store[h]
  }

  lemma ListingHas(hints: seq<Hint>, m: Store, h: Host)
    requires Lists(hints, m) && h in m
    ensures Hint(h, m[h]) in hints
  {
    assert h in Hosts(hints);
    var i :| 0 <= i < |hints| && hints[i].host == h;
    assert hints[i] == Hint(h, m[h]);
  }

  lemma ListingIs(hints: seq<Hint>, m: Store)
    requires Lists(hints, m)
    ensures forall h, a :: Hint(h, a) in hints <==> h in m && m[h] == a
  {
    forall h, a ensures Hint(h, a) in hints <==> h in m && m[h] == a {
      if h in m { ListingHas(hints, m, h); }
    }
  }

  /** Merging a listing one by one migrates the whole map, whatever the order. */
  lemma {:induction false} MergeListing(store: Store, hints: seq<Hint>, m: Store)
    requires Lists(hints, m)
    ensures MergeAll(store, hints) == Migrated(store, m)
  {
    if hints == [] {
      assert forall h | h in m :: h in Hosts(hints);
    } else {
      var front, last := hints[..|hints| - 1], hints[|hints| - 1];
      var fewer := m - {last.host};
      ListsOneLess(hints, m);
      MergeListing(store, front, fewer);
      MigrateOneMore(store, fewer, last);
      assert m == fewer[last.host := last.answer];
    }
  }

  lemma MigrateOneMore(store: Store, m: Store, hint: Hint)
    requires hint.host !in m
    ensures Merge(Migrated(store, m), hint) == Migrated(store, m[hint.host := hint.answer])
  {
  }

  lemma ListsOneLess(hints: seq<Hint>, m: Store)
    requires Lists(hints, m) && hints != []
    ensures Lists(hints[..|hints| - 1], m - {hints[|hints| - 1].host})
  {
    var front, last := hints[..|hints| - 1], hints[|hints| - 1];
    var fewer := m - {last.host};
    assert Hosts(front) == fewer.Keys by {
      forall h | h in Hosts(front) ensures h in fewer {
        var i :| 0 <= i < |front| && front[i].host == h;
        assert hints[i].host == h;
      }
      forall h | h in fewer ensures h in Hosts(front) {
        assert h in Hosts(hints);
        var i :| 0 <= i < |hints| && hints[i].host == h;
        assert front[i].host == h;
      }
    }
  }

  lemma SnapshotIsBestKnown(
    live: Live, store: Store, now: int, wall: nat, liveSnapshot: seq<Hint>, diskSnapshot: seq<Hint>)
    requires Lists(liveSnapshot, Preserved(live, now))
    requires Lists(diskSnapshot, DiskOnly(store, Hosts(liveSnapshot), wall))
    ensures DistinctHosts(liveSnapshot + diskSnapshot)
    ensures forall h, a :: Hint(h, a) in liveSnapshot + diskSnapshot <==>
      BestKnown(live, store, h, now, wall) == Some(a)
  {
    var both := liveSnapshot + diskSnapshot;
    forall i, j | 0 <= i < j < |both| ensures both[i].host != both[j].host {
      if i < |liveSnapshot| <= j {
        assert liveSnapshot[i].host in Hosts(liveSnapshot);
        assert diskSnapshot[j - |liveSnapshot|].host in DiskOnly(store, Hosts(liveSnapshot), wall);
      }
    }
    forall h, a ensures Hint(h, a) in both <==> BestKnown(live, store, h, now, wall) == Some(a) {
      if h in Preserved(live, now) { ListingHas(liveSnapshot, Preserved(live, now), h); }
      if h in DiskOnly(store, Hosts(liveSnapshot), wall) {
        ListingHas(diskSnapshot, DiskOnly(store, Hosts(liveSnapshot), wall), h);
      }
      if Hint(h, a) in both && BestKnown(live, store, h, now, wall) != Some(a) {
        var i :| 0 <= i < |both| && both[i] == Hint(h, a);
        assert false;
      }
    }
  }

  /** The stamp of an answer as a number that orders "nothing" below everything. */
  function StampOf(best: Option<Persisted>): int {
    match best case None => -1 case Some(a) => a.stamp
  }

  /** The most recent stamp either store holds for a host, counting only servable live answers. */
  function NewestStamp(live: Live, store: Store, host: Host, now: int): int {
    Max(if host in live && Servable(live[host], now) then live[host].stamp else -1,
        if host in store then store[host].stamp else -1)
  }

  /** A flush leaves the best known answer at least as recent exactly when the newest stamp known for the host
      is inside the 24-hour window, or nothing was known before. */
  lemma FlushKeepsBestKnownExactlyInWindow(live: Live, store: Store, host: Host, now: int, wall: nat)
    ensures var before := BestKnown(live, store, host, now, wall);
      var after := BestKnown(map[], Migrated(store, Preserved(live, now)), host, now, wall);
      var newest := NewestStamp(live, store, host, now);
      && (StampOf(after) >= StampOf(before) <==> before.None? || InWindow(newest, wall))
      && (after.Some? ==> after.value.stamp == newest)
  {
  }

  /** The window of a live answer runs from its expiry, that of a stored one from its stamp; so an answer can
      be servable before a flush and gone after it. */
  lemma FlushCanLoseAnAnswer()
    ensures exists live: Live, store: Store, host: Host, now: int, wall: nat ::
      BestKnown(live, store, host, now, wall).Some?
      && BestKnown(map[], Migrated(store, Preserved(live, now)), host, now, wall).None?
  {
    // Resolved at time 0 and kept 30 minutes, then asked for 24 hours and one second after time 0.
    var live: Live := map["h" := Cached([1], MAX_TTL, 0, 0, 0)];
    var now := (WINDOW_SECS + 1) * NANOS;
    var store: Store := map[];
    assert BestKnown(live, store, "h", now, WINDOW_SECS + 1).Some?;
    assert BestKnown(map[], Migrated(store, Preserved(live, now)), "h", now, WINDOW_SECS + 1).None?;
  }
}
