/**
 The rankings of the health store: `healthiest_bridges`, `healthiest_among`, `channel_proven_bridges` and
 the candidate queue of `needing_circuit_verification`.  The store is given as its entries in map order.
 */
module Ranking {
  import opened Text
  import opened Health
  import opened TopK

  datatype Ordering = Less | Equal | Greater {
    function Then(next: Ordering): Ordering {
      if this.Equal? then next else this
    }
  }

  function Cmp(a: int, b: int): Ordering {
    if a < b then Less else if a == b then Equal else Greater
  }

  /** `None` sorts before every `Some`. */
  function CmpOption(a: Option<Time>, b: Option<Time>): Ordering {
    match (a, b)
    case (None, None) => Equal
    case (None, Some(_)) => Less
    case (Some(_), None) => Greater
    case (Some(x), Some(y)) => Cmp(x, y)
  }

  function RankCmp(a: Entry, b: Entry): Ordering {
    Cmp(b.verifiedCount, a.verifiedCount)
    .Then(CmpOption(b.lastVerified, a.lastVerified))
    .Then(Cmp(b.channelOkCount, a.channelOkCount))
    .Then(CmpOption(b.lastChannelOk, a.lastChannelOk))
    .Then(Cmp(b.okCount, a.okCount))
    .Then(Cmp(a.lastLatency, b.lastLatency))
  }

  function ChannelProvenCmp(a: Entry, b: Entry): Ordering {
    CmpOption(b.lastChannelOk, a.lastChannelOk).Then(Cmp(b.channelOkCount, a.channelOkCount))
  }

  /** When the entry was last tried, counting an old verification as a try. */
  function LastTried(e: Entry): Option<Time> {
    if e.lastVerificationAttempt.Some? then e.lastVerificationAttempt else e.lastVerified
  }

  const RankLe := (a: Entry, b: Entry) => !RankCmp(a, b).Greater?
  const ChannelProvenLe := (a: Entry, b: Entry) => !ChannelProvenCmp(a, b).Greater?
  const TriedLe := (a: Entry, b: Entry) => !CmpOption(LastTried(a), LastTried(b)).Greater?

  lemma RankIsTransitive(a: Entry, b: Entry, c: Entry)
    requires RankLe(a, b) && RankLe(b, c)
    ensures RankLe(a, c)
  {
  }

  lemma RankIsRanking()
    ensures Ranking(RankLe)
  {
    forall a, b, c | RankLe(a, b) && RankLe(b, c)
      ensures RankLe(a, c)
    {
      RankIsTransitive(a, b, c);
    }
  }

  /** The later of two times, when "never" is before every time. */
  predicate Later(a: Option<Time>, b: Option<Time>) {
    a.Some? && (b.None? || a.value > b.value)
  }

  /** The ranking field by field: more verified circuits, then verified more recently, then more proven channels,
      then a channel more recently, then reachable more often, then faster. */
  lemma RankFieldByField(a: Entry, b: Entry)
    ensures RankLe(a, b) <==>
      || a.verifiedCount > b.verifiedCount
      || (a.verifiedCount == b.verifiedCount && Later(a.lastVerified, b.lastVerified))
      || (a.verifiedCount == b.verifiedCount && a.lastVerified == b.lastVerified
          && (|| a.channelOkCount > b.channelOkCount
              || (a.channelOkCount == b.channelOkCount && Later(a.lastChannelOk, b.lastChannelOk))
              || (a.channelOkCount == b.channelOkCount && a.lastChannelOk == b.lastChannelOk
                  && (|| a.okCount > b.okCount
                      || (a.okCount == b.okCount && a.lastLatency <= b.lastLatency)))))
  {
  }

  lemma ChannelFieldByField(a: Entry, b: Entry)
    ensures ChannelProvenLe(a, b) <==>
      || Later(a.lastChannelOk, b.lastChannelOk)
      || (a.lastChannelOk == b.lastChannelOk && a.channelOkCount >= b.channelOkCount)
  {
  }

  lemma OtherRankings()
    ensures Ranking(ChannelProvenLe) && Ranking(TriedLe)
  {
  }

  // ---------------------------------------------------------------------------------------------
  // Queries
  // ---------------------------------------------------------------------------------------------

  function Bridges(es: seq<Entry>): (r: seq<Bridge>)
    ensures |r| == |es| && forall i | 0 <= i < |r| :: r[i] == es[i].bridge
  {
    seq(|es|, i requires 0 <= i < |es| => es[i].bridge)
  }

  const ProvenAlive := (e: Entry) => e.IsProvenAlive()
  const ChannelProven := (e: Entry) => e.channelOkCount > 0 && !e.IsRetired()

  function Among(candidates: seq<Bridge>): Entry -> bool {
    (e: Entry) => exists i :: 0 <= i < |candidates| && candidates[i].identity == e.bridge.identity
  }

  /** `entries.values().filter(f)`, as a loop. */
  method Select(values: seq<Entry>, f: Entry -> bool) returns (r: seq<Entry>)
    ensures r == Filter(values, f)
  {
    r := [];
    for i := 0 to |values|
      invariant r == Filter(values[..i], f)
    {
      assert values[..i + 1] == values[..i] + [values[i]];
      FilterLast(values[..i], values[i], f);
      if f(values[i]) { r := r + [values[i]]; }
    }
    assert values[..|values|] == values;
  }

  /** The proven-alive bridges, best first, cut at `limit`; `chosen` are their entries. */
  method HealthiestBridges(values: seq<Entry>, limit: nat) returns (best: seq<Bridge>, ghost chosen: seq<Entry>)
    ensures best == Bridges(Take(Filter(Sort(values, RankLe), ProvenAlive), limit))
    ensures best == Bridges(chosen) && |best| <= limit && SortedBy(chosen, RankLe)
    ensures forall e | e in chosen ::
      e in values && e.fails == 0 && e.okCount > 0 && e.circuitFails != 0xFFFF_FFFF
    ensures forall e | e in values && e.fails == 0 && e.okCount > 0 && e.circuitFails != 0xFFFF_FFFF ::
      e in chosen || (|best| == limit && forall i | 0 <= i < |chosen| :: RankLe(chosen[i], e))
  {
    RankIsRanking();
    var healthy := Select(values, ProvenAlive);
    var ranked := RankAndTake(healthy, limit, RankLe);
    FilterSort(values, RankLe, ProvenAlive);
    BestThatPass(values, RankLe, ProvenAlive, limit);
    best, chosen := Bridges(ranked), ranked;
  }

  /** The full ranking of proven-alive bridges, restricted to the candidates and only then cut, so a small
      pool is never crowded out. */
  method HealthiestAmong(values: seq<Entry>, candidates: seq<Bridge>, limit: nat)
    returns (best: seq<Bridge>, ghost chosen: seq<Entry>)
    ensures best == Bridges(Take(Filter(Filter(Sort(values, RankLe), ProvenAlive), Among(candidates)), limit))
    ensures best == Bridges(chosen) && |best| <= limit && SortedBy(chosen, RankLe)
    ensures forall e | e in chosen ::
      && e in values && e.fails == 0 && e.okCount > 0 && e.circuitFails != 0xFFFF_FFFF
      && exists i :: 0 <= i < |candidates| && candidates[i].identity == e.bridge.identity
    ensures forall e, i |
      && e in values && e.fails == 0 && e.okCount > 0 && e.circuitFails != 0xFFFF_FFFF
      && 0 <= i < |candidates| && candidates[i].identity == e.bridge.identity ::
      e in chosen || (|best| == limit && forall k | 0 <= k < |chosen| :: RankLe(chosen[k], e))
  {
    RankIsRanking();
    var f := (e: Entry) => ProvenAlive(e) && Among(candidates)(e);
    var healthy := Select(values, f);
    var ranked := RankAndTake(healthy, limit, RankLe);
    FilterSort(values, RankLe, f);
    FilterBoth(Sort(values, RankLe), ProvenAlive, Among(candidates), f);
    BestThatPass(values, RankLe, f, limit);
    best, chosen := Bridges(ranked), ranked;
  }

  lemma {:induction false} FilterBoth(s: seq<Entry>, f: Entry -> bool, g: Entry -> bool, fg: Entry -> bool)
    requires forall e :: fg(e) <==> f(e) && g(e)
    ensures Filter(s, fg) == Filter(Filter(s, f), g)
  {
    if s != [] {
      FilterBoth(s[1..], f, g, fg);
      if f(s[0]) {
        assert Filter(s, f)[1..] == Filter(s[1..], f);
      } else {
        assert Filter(s, f) == Filter(s[1..], f);
      }
    }
  }

  /** The tiers of the ranking: more verified circuits first, the more recently verified before the others, and
      among equally verified entries those with more and then more recent proven channels, and among those the more
      often reachable. */
  lemma RankingTiers(values: seq<Entry>, i: nat, j: nat)
    requires i < j < |Sort(values, RankLe)|
    ensures var a, b := Sort(values, RankLe)[i], Sort(values, RankLe)[j];
      && a.verifiedCount >= b.verifiedCount
      && (a.verifiedCount == b.verifiedCount ==>
            a.lastVerified == b.lastVerified || Later(a.lastVerified, b.lastVerified))
      && (a.verifiedCount == b.verifiedCount && a.lastVerified == b.lastVerified
          && a.channelOkCount == b.channelOkCount ==>
            a.lastChannelOk == b.lastChannelOk || Later(a.lastChannelOk, b.lastChannelOk))
      && (a.verifiedCount == b.verifiedCount && a.lastVerified == b.lastVerified ==>
            a.channelOkCount >= b.channelOkCount)
      && (a.verifiedCount == b.verifiedCount && a.lastVerified == b.lastVerified
          && a.channelOkCount == b.channelOkCount && a.lastChannelOk == b.lastChannelOk ==>
            a.okCount > b.okCount || (a.okCount == b.okCount && a.lastLatency <= b.lastLatency))
  {
    RankIsRanking();
    SortSorts(values, RankLe);
    assert RankLe(Sort(values, RankLe)[i], Sort(values, RankLe)[j]);
  }

  /** The channel-proven bridges, those with the most recent channel first and then those with more channels. */
  method ChannelProvenBridges(values: seq<Entry>, limit: nat) returns (best: seq<Bridge>, ghost chosen: seq<Entry>)
    ensures best == Bridges(Take(Filter(Sort(values, ChannelProvenLe), ChannelProven), limit))
    ensures best == Bridges(chosen) && |best| <= limit
    ensures forall e | e in chosen :: e in values && e.channelOkCount > 0 && e.circuitFails != 0xFFFF_FFFF
    ensures forall i, j | 0 <= i < j < |chosen| ::
      || Later(chosen[i].lastChannelOk, chosen[j].lastChannelOk)
      || (chosen[i].lastChannelOk == chosen[j].lastChannelOk && chosen[i].channelOkCount >= chosen[j].channelOkCount)
    ensures forall e | e in values && e.channelOkCount > 0 && e.circuitFails != 0xFFFF_FFFF ::
      || e in chosen
      || (|best| == limit
          && forall i | 0 <= i < |chosen| ::
               || Later(chosen[i].lastChannelOk, e.lastChannelOk)
               || (chosen[i].lastChannelOk == e.lastChannelOk && chosen[i].channelOkCount >= e.channelOkCount))
  {
    OtherRankings();
    var proven := Select(values, ChannelProven);
    var ranked := RankAndTake(proven, limit, ChannelProvenLe);
    FilterSort(values, ChannelProvenLe, ChannelProven);
    BestThatPass(values, ChannelProvenLe, ChannelProven, limit);
    best, chosen := Bridges(ranked), ranked;
    forall a, b | ChannelProvenLe(a, b)
      ensures Later(a.lastChannelOk, b.lastChannelOk)
        || (a.lastChannelOk == b.lastChannelOk && a.channelOkCount >= b.channelOkCount)
    {
      ChannelFieldByField(a, b);
    }
  }
}
