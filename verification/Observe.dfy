/**
 Observations recorded in the bridge health store: probe outcomes, circuit and channel events, and the removal of
 dead bridges.
 */
module Observe {
  import opened Text
  import opened Health
  import Ranking

  type Entries = map<nat, Entry>

  /** A bridge first heard of at `now`. */
  function Blank(b: Bridge, now: Time, latency: nat): Entry {
    Entry(b, None, now, latency, 0, 0, 0, None, 0, None, None, 0, now, {})
  }

  function Known(entries: Entries, b: Bridge, now: Time, latency: nat): Entry {
    if b.identity in entries then entries[b.identity] else Blank(b, now, latency)
  }

  datatype Event =
    | Reached(bridge: Bridge, latency: nat, now: Time)
    | Unreached(bridge: Bridge, now: Time)
    | CircuitFailed(bridge: Bridge, now: Time, window: nat)
    | PermanentlyFailed(bridge: Bridge, now: Time)
    | Offered(bridge: Bridge, source: string, now: Time)
    | CircuitBuilt(bridge: Bridge, now: Time)
    | ChannelOpened(bridge: Bridge, now: Time)
    | CircuitVerified(bridge: Bridge, now: Time)
    | VerificationTried(bridge: Bridge, now: Time)
    | Pruned(maxFails: nat, maxCircuitFails: nat)

  predicate IsDead(e: Entry, maxFails: nat, maxCircuitFails: nat) {
    e.fails >= maxFails || e.circuitFails >= maxCircuitFails
  }

  function Survivors(entries: Entries, maxFails: nat, maxCircuitFails: nat): Entries {
    map id | id in entries && !IsDead(entries[id], maxFails, maxCircuitFails) :: entries[id]
  }

  /** The failure counter moves at most once per window. */
  predicate Counts(e: Entry, now: Time, window: nat) {
    now - e.lastAttempt >= window
  }

  predicate CircuitCounts(e: Entry, now: Time, window: nat) {
    now - e.lastCircuitObservation >= window
  }

  /** What an event does to the store, with one window for probe failures. */
  function Apply(entries: Entries, window: nat, ev: Event): Entries {
    match ev
    case Reached(b, latency, now) =>
      var e := Known(entries, b, now, latency);
      entries[b.identity := e.(bridge := b, lastOk := Some(now), lastAttempt := now, lastLatency := latency,
                               fails := 0, okCount := SaturatingInc(e.okCount))]
    case Unreached(b, now) =>
      if b.identity !in entries then entries[b.identity := Blank(b, now, 0).(fails := 1)]
      else
        var e := entries[b.identity];
        if Counts(e, now, window)
        then entries[b.identity := e.(fails := SaturatingInc(e.fails), lastAttempt := now)] else entries
    case CircuitFailed(b, now, w) =>
      if b.identity !in entries then entries[b.identity := Blank(b, now, 0).(circuitFails := 1)]
      else
        var e := entries[b.identity];
        if CircuitCounts(e, now, w)
        then entries[b.identity := e.(circuitFails := SaturatingInc(e.circuitFails), lastCircuitObservation := now)]
        else entries
    case PermanentlyFailed(b, now) =>
      entries[b.identity := Known(entries, b, now, 0).(circuitFails := RETIRED_CIRCUIT_FAILS,
                                                       lastCircuitObservation := now)]
    case Offered(b, source, now) =>
      var e := Known(entries, b, now, 0);
      entries[b.identity := e.(sources := e.sources + {source})]
    case CircuitBuilt(b, now) =>
      if b.identity !in entries then entries
      else entries[b.identity := entries[b.identity].(circuitFails := 0, lastCircuitObservation := now)]
    case ChannelOpened(b, now) =>
      if b.identity !in entries then entries
      else
        var e := entries[b.identity];
        entries[b.identity := e.(channelOkCount := SaturatingInc(e.channelOkCount), lastChannelOk := Some(now))]
    case CircuitVerified(b, now) =>
      if b.identity !in entries then entries
      else
        var e := entries[b.identity];
        entries[b.identity := e.(verifiedCount := SaturatingInc(e.verifiedCount), lastVerified := Some(now),
                                 lastVerificationAttempt := Some(now))]
    case VerificationTried(b, now) =>
      if b.identity !in entries then entries
      else entries[b.identity := entries[b.identity].(lastVerificationAttempt := Some(now))]
    case Pruned(maxFails, maxCircuitFails) => Survivors(entries, maxFails, maxCircuitFails)
  }

  function ApplyAll(entries: Entries, window: nat, evs: seq<Event>): Entries {
    if evs == [] then entries else Apply(ApplyAll(entries, window, evs[..|evs| - 1]), window, evs[|evs| - 1])
  }

  lemma ApplyMore(entries: Entries, window: nat, evs: seq<Event>, ev: Event)
    ensures ApplyAll(entries, window, evs + [ev]) == Apply(ApplyAll(entries, window, evs), window, ev)
  {
    assert (evs + [ev])[..|evs|] == evs;
  }

  /** Entries are filed under their own identity. */
  ghost predicate StoreOk(entries: Entries) {
    forall id | id in entries :: entries[id].bridge.identity == id
  }

  // ---------------------------------------------------------------------------------------------
  // A probe round
  // ---------------------------------------------------------------------------------------------

  datatype Alive = Alive(bridge: Bridge, latency: nat)

  function AliveIds(alive: seq<Alive>): set<nat> {
    if alive == [] then {} else AliveIds(alive[..|alive| - 1]) + {alive[|alive| - 1].bridge.identity}
  }

  function ProbedIds(probed: seq<Bridge>): set<nat> {
    if probed == [] then {} else ProbedIds(probed[..|probed| - 1]) + {probed[|probed| - 1].identity}
  }

  lemma {:induction false} ProbedIdsAre(probed: seq<Bridge>, id: nat)
    ensures id in ProbedIds(probed) <==> exists b :: b in probed && b.identity == id
  {
    if probed != [] {
      var front, last := probed[..|probed| - 1], probed[|probed| - 1];
      ProbedIdsAre(front, id);
      assert probed == front + [last];
      if id in ProbedIds(front) {
        var b :| b in front && b.identity == id;
        assert b in probed;
      }
    }
  }

  function Reaches(alive: seq<Alive>, now: Time): seq<Event> {
    if alive == [] then []
    else Reaches(alive[..|alive| - 1], now) + [Reached(alive[|alive| - 1].bridge, alive[|alive| - 1].latency, now)]
  }

  function Misses(probed: seq<Bridge>, aliveIds: set<nat>, now: Time): seq<Event> {
    if probed == [] then []
    else
      var before := Misses(probed[..|probed| - 1], aliveIds, now);
      if probed[|probed| - 1].identity in aliveIds then before else before + [Unreached(probed[|probed| - 1], now)]
  }

  /** A probe round as the events it records before pruning: successes first, then the other probed bridges. */
  function RoundEvents(probed: seq<Bridge>, alive: seq<Alive>, now: Time): seq<Event> {
    Reaches(alive, now) + Misses(probed, AliveIds(alive), now)
  }

  /** `removed` holds the bridge of every dead entry, once. */
  ghost predicate ListsDead(removed: seq<Bridge>, entries: Entries, maxFails: nat, maxCircuitFails: nat) {
    && (forall i, j | 0 <= i < j < |removed| :: removed[i].identity != removed[j].identity)
    && forall b :: b in removed <==>
         b.identity in entries && entries[b.identity].bridge == b
         && IsDead(entries[b.identity], maxFails, maxCircuitFails)
  }

  /** `removed` holds the bridges of the entries under `ids`, once each. */
  ghost predicate Removes(removed: seq<Bridge>, entries: Entries, ids: set<nat>) {
    && (forall i, j | 0 <= i < j < |removed| :: removed[i].identity != removed[j].identity)
    && forall b :: b in removed <==> b.identity in ids && b.identity in entries && entries[b.identity].bridge == b
  }

  lemma RemovesOneMore(removed: seq<Bridge>, entries: Entries, ids: set<nat>, id: nat)
    requires StoreOk(entries) && Removes(removed, entries, ids) && id !in ids && id in entries
    ensures Removes(removed + [entries[id].bridge], entries, ids + {id})
  {
    var more := removed + [entries[id].bridge];
    forall i | 0 <= i < |removed| ensures removed[i].identity != id { assert removed[i] in removed; }
    forall b ensures b in more <==>
      b.identity in ids + {id} && b.identity in entries && entries[b.identity].bridge == b
    {
      assert b in removed <==> b.identity in ids && b.identity in entries && entries[b.identity].bridge == b;
    }
  }

  /** Part way through pruning: everything dead but `todo` is out of the store and listed. */
  ghost predicate Pruning(entries: Entries, before: Entries, removed: seq<Bridge>, dead: set<nat>, todo: set<nat>) {
    && StoreOk(before) && dead <= before.Keys && todo <= dead
    && entries == before - (dead - todo) && Removes(removed, before, dead - todo)
  }

  lemma BeginPruning(entries: Entries, dead: set<nat>)
    requires StoreOk(entries) && dead <= entries.Keys
    ensures Pruning(entries, entries, [], dead, dead)
  {
    assert dead - dead == {};
  }

  lemma PruneOneMore(
    entries: Entries, before: Entries, removed: seq<Bridge>, dead: set<nat>, todo: set<nat>, id: nat)
    requires Pruning(entries, before, removed, dead, todo) && id in todo
    ensures id in entries
    ensures Pruning(entries - {id}, before, removed + [entries[id].bridge], dead, todo - {id})
  {
    RemovesOneMore(removed, before, dead - todo, id);
    assert dead - (todo - {id}) == (dead - todo) + {id};
  }

  lemma PruneDone(
    entries: Entries, before: Entries, removed: seq<Bridge>, dead: set<nat>, maxFails: nat, maxCircuitFails: nat)
    requires Pruning(entries, before, removed, dead, {})
    requires dead == set id | id in before && IsDead(before[id], maxFails, maxCircuitFails)
    ensures StoreOk(entries) && entries == Survivors(before, maxFails, maxCircuitFails)
    ensures ListsDead(removed, before, maxFails, maxCircuitFails)
  {
    assert dead - {} == dead;
  }

  /** A counter that has moved on by one, and stops at its greatest value. */
  predicate OneMore(before: nat, after: nat) {
    after == if before < 0xFFFF_FFFF then before + 1 else 0xFFFF_FFFF
  }

  /** Nothing but addresses and attempts is known of a bridge. */
  predicate HasNoHistory(e: Entry) {
    && e.okCount == 0 && e.lastOk.None? && e.channelOkCount == 0 && e.lastChannelOk.None?
    && e.verifiedCount == 0 && e.lastVerified.None? && e.lastVerificationAttempt.None?
  }

  /** Only the entry of one bridge may differ, and it is there. */
  ghost predicate OnlyTouches(before: Entries, after: Entries, id: nat) {
    && after.Keys == before.Keys + {id}
    && forall other | other in before && other != id :: after[other] == before[other]
  }

  /** In the verification queue the entry comes after every entry last tried before `now`. */
  ghost predicate GoesBehind(e: Entry, now: Time) {
    forall other: Entry | Ranking.CmpOption(Ranking.LastTried(other), Some(now)).Less? ::
      Ranking.TriedLe(other, e) && !Ranking.TriedLe(e, other)
  }

  /** What a probe round makes of a bridge: an alive one has no failures; one that was not probed, or was probed too
      soon after its last attempt, is as before; and any other has one failure more. */
  ghost predicate Probed(
    before: Entries, e: Entry, id: nat, window: nat, probed: seq<Bridge>, alive: seq<Alive>, now: Time)
  {
    if exists a :: a in alive && a.bridge.identity == id
    then e.fails == 0 && e.lastOk == Some(now) && e.lastAttempt == now
    else if !(exists b :: b in probed && b.identity == id)
    then id in before && e == before[id]
    else if id in before && now < before[id].lastAttempt + window
    then e == before[id]
    else
      && e.lastAttempt == now
      && (window > 0 ==> OneMore(if id in before then before[id].fails else 0, e.fails))
  }

  class BridgeStore {
    var entries: Entries

    constructor (entries: Entries)
      requires StoreOk(entries)
      ensures this.entries == entries
    {
      this.entries := entries;
    }

    /** A success: the bridge is alive unless retired, has no failures, and none counts until a window later. */
    method RecordAt(b: Bridge, latency: nat, now: Time)
      requires StoreOk(entries)
      modifies this
      ensures StoreOk(entries) && entries == Apply(old(entries), 0, Reached(b, latency, now))
      ensures OnlyTouches(old(entries), entries, b.identity)
      ensures entries[b.identity].fails == 0
      ensures entries[b.identity].IsProvenAlive() <==> !entries[b.identity].IsRetired()
      ensures forall later, window | later - now < window :: !Counts(entries[b.identity], later, window)
      ensures var e := entries[b.identity];
        && e.bridge == b && e.lastOk == Some(now) && e.lastAttempt == now && e.lastLatency == latency
        && OneMore(if b.identity in old(entries) then old(entries)[b.identity].okCount else 0, e.okCount)
        && (b.identity !in old(entries) ==> HasNoHistory(e.(okCount := 0, lastOk := None)) && e.circuitFails == 0)
    {
      var e := Known(entries, b, now, latency);
      e := e.(bridge := b, lastOk := Some(now), lastAttempt := now, lastLatency := latency, fails := 0,
              okCount := SaturatingInc(e.okCount));
      entries := entries[b.identity := e];
    }

    /** A failure: counted exactly for an unknown bridge or a window after the last attempt that mattered; the
        counter then grows by one, and nothing more counts until another window has passed. */
    method NoteFailureAt(b: Bridge, now: Time, window: nat) returns (counted: bool)
      requires StoreOk(entries)
      modifies this
      ensures StoreOk(entries) && entries == Apply(old(entries), window, Unreached(b, now))
      ensures counted <==> b.identity !in old(entries) || Counts(old(entries)[b.identity], now, window)
      ensures !counted ==> entries == old(entries)
      ensures OnlyTouches(old(entries), entries, b.identity)
      ensures counted ==>
        && entries[b.identity].fails
           == SaturatingInc(if b.identity in old(entries) then old(entries)[b.identity].fails else 0)
        && forall later | later - now < window :: !Counts(entries[b.identity], later, window)
      ensures b.identity in old(entries) ==> (counted <==> now >= old(entries)[b.identity].lastAttempt + window)
      ensures counted ==>
        && entries[b.identity].lastAttempt == now
        && OneMore(if b.identity in old(entries) then old(entries)[b.identity].fails else 0, entries[b.identity].fails)
        && (b.identity !in old(entries) ==> HasNoHistory(entries[b.identity]) && entries[b.identity].circuitFails == 0)
    {
      if b.identity in entries {
        var e := entries[b.identity];
        counted := now - e.lastAttempt >= window;
        if counted {
          entries := entries[b.identity := e.(fails := SaturatingInc(e.fails), lastAttempt := now)];
        }
      } else {
        entries := entries[b.identity := Blank(b, now, 0).(fails := 1)];
        counted := true;
      }
    }

    /** A circuit failure: the same for its own counter and clock; it cannot bring a retired bridge back. */
    method NoteCircuitFailureAt(b: Bridge, now: Time, window: nat) returns (counted: bool)
      requires StoreOk(entries)
      modifies this
      ensures StoreOk(entries) && entries == Apply(old(entries), 0, CircuitFailed(b, now, window))
      ensures counted <==> b.identity !in old(entries) || CircuitCounts(old(entries)[b.identity], now, window)
      ensures !counted ==> entries == old(entries)
      ensures OnlyTouches(old(entries), entries, b.identity)
      ensures counted ==> forall later | later - now < window :: !CircuitCounts(entries[b.identity], later, window)
      ensures b.identity in old(entries) && old(entries)[b.identity].IsRetired() ==> entries[b.identity].IsRetired()
      ensures b.identity in old(entries) ==>
        (counted <==> now >= old(entries)[b.identity].lastCircuitObservation + window)
      ensures counted ==>
        && entries[b.identity].lastCircuitObservation == now
        && OneMore(if b.identity in old(entries) then old(entries)[b.identity].circuitFails else 0,
                   entries[b.identity].circuitFails)
        && (b.identity !in old(entries) ==> HasNoHistory(entries[b.identity]) && entries[b.identity].fails == 0)
    {
      if b.identity in entries {
        var e := entries[b.identity];
        counted := now - e.lastCircuitObservation >= window;
        if counted {
          entries := entries[b.identity := e.(circuitFails := SaturatingInc(e.circuitFails),
                                              lastCircuitObservation := now)];
        }
      } else {
        entries := entries[b.identity := Blank(b, now, 0).(circuitFails := 1)];
        counted := true;
      }
    }

    /** A verdict: the bridge is retired and so never proven alive, whatever its TCP record. */
    method NotePermanentFailureAt(b: Bridge, now: Time)
      requires StoreOk(entries)
      modifies this
      ensures StoreOk(entries) && entries == Apply(old(entries), 0, PermanentlyFailed(b, now))
      ensures OnlyTouches(old(entries), entries, b.identity)
      ensures entries[b.identity].IsRetired() && !entries[b.identity].IsProvenAlive()
      ensures entries[b.identity].circuitFails == 0xFFFF_FFFF && entries[b.identity].lastCircuitObservation == now
    {
      entries := entries[b.identity := Known(entries, b, now, 0).(
        circuitFails := RETIRED_CIRCUIT_FAILS, lastCircuitObservation := now)];
    }

    /** Credit is additive: no other source loses its own. */
    method NoteSourceAt(b: Bridge, source: string, now: Time)
      requires StoreOk(entries)
      modifies this
      ensures StoreOk(entries) && entries == Apply(old(entries), 0, Offered(b, source, now))
      ensures OnlyTouches(old(entries), entries, b.identity) && source in entries[b.identity].sources
      ensures b.identity in old(entries) ==> old(entries)[b.identity].sources <= entries[b.identity].sources
    {
      var e := Known(entries, b, now, 0);
      entries := entries[b.identity := e.(sources := e.sources + {source})];
    }

    /** A built circuit ends retirement, and says nothing of a bridge the store does not track. */
    method NoteCircuitSuccessAt(b: Bridge, now: Time)
      requires StoreOk(entries)
      modifies this
      ensures StoreOk(entries) && entries == Apply(old(entries), 0, CircuitBuilt(b, now))
      ensures b.identity !in old(entries) ==> entries == old(entries)
      ensures b.identity in old(entries) ==>
        && OnlyTouches(old(entries), entries, b.identity) && !entries[b.identity].IsRetired()
        && entries[b.identity].circuitFails == 0 && entries[b.identity].lastCircuitObservation == now
    {
      if b.identity in entries {
        entries := entries[b.identity := entries[b.identity].(circuitFails := 0, lastCircuitObservation := now)];
      }
    }

    /** A warm channel makes a tracked bridge channel-proven. */
    method NoteChannelSuccessAt(b: Bridge, now: Time)
      requires StoreOk(entries)
      modifies this
      ensures StoreOk(entries) && entries == Apply(old(entries), 0, ChannelOpened(b, now))
      ensures b.identity !in old(entries) ==> entries == old(entries)
      ensures b.identity in old(entries) ==>
        && OnlyTouches(old(entries), entries, b.identity) && entries[b.identity].channelOkCount > 0
        && OneMore(old(entries)[b.identity].channelOkCount, entries[b.identity].channelOkCount)
        && entries[b.identity].lastChannelOk == Some(now)
    {
      if b.identity in entries {
        var e := entries[b.identity];
        entries := entries[b.identity := e.(
          channelOkCount := SaturatingInc(e.channelOkCount), lastChannelOk := Some(now))];
      }
    }

    /** A verification moves a tracked bridge behind every bridge last tried before it. */
    method NoteCircuitVerifiedAt(b: Bridge, now: Time)
      requires StoreOk(entries)
      modifies this
      ensures StoreOk(entries) && entries == Apply(old(entries), 0, CircuitVerified(b, now))
      ensures b.identity !in old(entries) ==> entries == old(entries)
      ensures b.identity in old(entries) ==>
        && OnlyTouches(old(entries), entries, b.identity) && GoesBehind(entries[b.identity], now)
        && OneMore(old(entries)[b.identity].verifiedCount, entries[b.identity].verifiedCount)
        && entries[b.identity].lastVerified == entries[b.identity].lastVerificationAttempt == Some(now)
    {
      if b.identity in entries {
        var e := entries[b.identity];
        entries := entries[b.identity := e.(
          verifiedCount := SaturatingInc(e.verifiedCount), lastVerified := Some(now),
          lastVerificationAttempt := Some(now))];
      }
    }

    /** So does a failed attempt, without counting as a verification. */
    method NoteVerificationAttemptAt(b: Bridge, now: Time)
      requires StoreOk(entries)
      modifies this
      ensures StoreOk(entries) && entries == Apply(old(entries), 0, VerificationTried(b, now))
      ensures b.identity !in old(entries) ==> entries == old(entries)
      ensures b.identity in old(entries) ==>
        OnlyTouches(old(entries), entries, b.identity) && GoesBehind(entries[b.identity], now)
        && entries[b.identity].lastVerified == old(entries)[b.identity].lastVerified
        && entries[b.identity].verifiedCount == old(entries)[b.identity].verifiedCount
        && entries[b.identity].lastVerificationAttempt == Some(now)
    {
      if b.identity in entries {
        entries := entries[b.identity := entries[b.identity].(lastVerificationAttempt := Some(now))];
      }
    }

    method Prune(maxFails: nat, maxCircuitFails: nat) returns (removed: seq<Bridge>)
      requires StoreOk(entries)
      modifies this
      ensures StoreOk(entries) && entries == Survivors(old(entries), maxFails, maxCircuitFails)
      ensures ListsDead(removed, old(entries), maxFails, maxCircuitFails)
      ensures forall b :: b in removed <==>
        && b.identity in old(entries) && old(entries)[b.identity].bridge == b
        && (old(entries)[b.identity].fails >= maxFails || old(entries)[b.identity].circuitFails >= maxCircuitFails)
      ensures forall id | id in old(entries) ::
        if old(entries)[id].fails >= maxFails || old(entries)[id].circuitFails >= maxCircuitFails
        then id !in entries else id in entries && entries[id] == old(entries)[id]
    {
      removed := [];
      var todo := set id | id in entries && IsDead(entries[id], maxFails, maxCircuitFails);
      ghost var before, dead := entries, todo;
      BeginPruning(before, dead);
      while todo != {}
        invariant Pruning(entries, before, removed, dead, todo)
        decreases todo
      {
        var id :| id in todo;
        PruneOneMore(entries, before, removed, dead, todo, id);
        removed := removed + [entries[id].bridge];
        entries := entries - {id};
        todo := todo - {id};
      }
      PruneDone(entries, before, removed, dead, maxFails, maxCircuitFails);
    }

    /** `note_probe_round`: survivors are below both limits; survivors and removed bridges are exactly the
        bridges known before, probed or alive. */
    method NoteProbeRound(
      probed: seq<Bridge>, alive: seq<Alive>, now: Time, window: nat, maxFails: nat, maxCircuitFails: nat)
      returns (removed: seq<Bridge>)
      requires StoreOk(entries)
      modifies this
      ensures StoreOk(entries)
      ensures entries == Apply(ApplyAll(old(entries), window, RoundEvents(probed, alive, now)), window,
                               Pruned(maxFails, maxCircuitFails))
      ensures forall id | id in entries :: entries[id].fails < maxFails && entries[id].circuitFails < maxCircuitFails
      ensures entries.Keys !! ProbedIds(removed)
      ensures entries.Keys + ProbedIds(removed) == old(entries).Keys + ProbedIds(probed) + AliveIds(alive)
      ensures forall id | id in entries :: Probed(old(entries), entries[id], id, window, probed, alive, now)
    {
      RecordAll(alive, now, window);
      FailAll(probed, AliveIds(alive), now, window);
      ApplyConcat(old(entries), window, Reaches(alive, now), Misses(probed, AliveIds(alive), now));
      RoundKeys(old(entries), window, probed, alive, now);
      ghost var before := entries;
      removed := Prune(maxFails, maxCircuitFails);
      RemovedAndKept(before, removed, maxFails, maxCircuitFails);
      forall id | id in entries ensures Probed(old(entries), entries[id], id, window, probed, alive, now) {
        RoundProbes(old(entries), window, probed, alive, now, id);
      }
    }

    method RecordAll(alive: seq<Alive>, now: Time, window: nat)
      requires StoreOk(entries)
      modifies this
      ensures StoreOk(entries) && entries == ApplyAll(old(entries), window, Reaches(alive, now))
    {
      for i := 0 to |alive|
        invariant StoreOk(entries) && entries == ApplyAll(old(entries), window, Reaches(alive[..i], now))
      {
        ReachesMore(alive, i, now);
        ApplyMore(old(entries), window, Reaches(alive[..i], now), Reached(alive[i].bridge, alive[i].latency, now));
        RecordAt(alive[i].bridge, alive[i].latency, now);
      }
      assert alive[..|alive|] == alive;
    }

    method FailAll(probed: seq<Bridge>, aliveIds: set<nat>, now: Time, window: nat)
      requires StoreOk(entries)
      modifies this
      ensures StoreOk(entries) && entries == ApplyAll(old(entries), window, Misses(probed, aliveIds, now))
    {
      for i := 0 to |probed|
        invariant StoreOk(entries) && entries == ApplyAll(old(entries), window, Misses(probed[..i], aliveIds, now))
      {
        MissesMore(probed, i, aliveIds, now);
        if probed[i].identity in aliveIds {
          continue;
        }
        ApplyMore(old(entries), window, Misses(probed[..i], aliveIds, now), Unreached(probed[i], now));
        var _ := NoteFailureAt(probed[i], now, window);
      }
      assert probed[..|probed|] == probed;
    }
  }

  lemma ReachesMore(alive: seq<Alive>, i: nat, now: Time)
    requires i < |alive|
    ensures Reaches(alive[..i + 1], now) == Reaches(alive[..i], now) + [Reached(alive[i].bridge, alive[i].latency, now)]
  {
    assert alive[..i + 1][..i] == alive[..i];
  }

  lemma MissesMore(probed: seq<Bridge>, i: nat, aliveIds: set<nat>, now: Time)
    requires i < |probed|
    ensures probed[i].identity in aliveIds ==>
      Misses(probed[..i + 1], aliveIds, now) == Misses(probed[..i], aliveIds, now)
    ensures probed[i].identity !in aliveIds ==>
      Misses(probed[..i + 1], aliveIds, now) == Misses(probed[..i], aliveIds, now) + [Unreached(probed[i], now)]
  {
    assert probed[..i + 1][..i] == probed[..i];
  }

  lemma {:induction false} ApplyConcat(entries: Entries, window: nat, a: seq<Event>, b: seq<Event>)
    ensures ApplyAll(entries, window, a + b) == ApplyAll(ApplyAll(entries, window, a), window, b)
    decreases |b|
  {
    if b == [] {
      assert a + b == a;
    } else {
      ApplyConcat(entries, window, a, b[..|b| - 1]);
      assert (a + b)[..|a + b| - 1] == a + b[..|b| - 1];
    }
  }

  lemma RemovedAndKept(entries: Entries, removed: seq<Bridge>, maxFails: nat, maxCircuitFails: nat)
    requires StoreOk(entries) && ListsDead(removed, entries, maxFails, maxCircuitFails)
    ensures var kept := Survivors(entries, maxFails, maxCircuitFails);
      kept.Keys !! ProbedIds(removed) && kept.Keys + ProbedIds(removed) == entries.Keys
  {
    var kept := Survivors(entries, maxFails, maxCircuitFails);
    forall id ensures id in ProbedIds(removed) <==> id in entries && id !in kept {
      ProbedIdsAre(removed, id);
      if id in entries && id !in kept { assert entries[id].bridge in removed; }
    }
  }

  /** The identities of the bridges events speak of. */
  function Mentioned(evs: seq<Event>): set<nat> {
    if evs == [] then {}
    else Mentioned(evs[..|evs| - 1]) + (if evs[|evs| - 1].Pruned? then {} else {evs[|evs| - 1].bridge.identity})
  }

  ghost predicate AreProbes(evs: seq<Event>) {
    forall i | 0 <= i < |evs| :: evs[i].Reached? || evs[i].Unreached?
  }

  lemma {:induction false} ProbesAddTheirBridges(entries: Entries, window: nat, evs: seq<Event>)
    requires AreProbes(evs)
    ensures ApplyAll(entries, window, evs).Keys == entries.Keys + Mentioned(evs)
  {
    if evs != [] { ProbesAddTheirBridges(entries, window, evs[..|evs| - 1]); }
  }

  lemma {:induction false} ReachesMention(alive: seq<Alive>, now: Time)
    ensures AreProbes(Reaches(alive, now)) && Mentioned(Reaches(alive, now)) == AliveIds(alive)
  {
    if alive != [] {
      ReachesMention(alive[..|alive| - 1], now);
      var evs := Reaches(alive, now);
      assert evs[..|evs| - 1] == Reaches(alive[..|alive| - 1], now);
    }
  }

  lemma MentionedMore(evs: seq<Event>, b: Bridge, now: Time)
    ensures Mentioned(evs + [Unreached(b, now)]) == Mentioned(evs) + {b.identity}
  {
    assert (evs + [Unreached(b, now)])[..|evs|] == evs;
  }

  lemma {:induction false} MissesMention(probed: seq<Bridge>, aliveIds: set<nat>, now: Time)
    ensures AreProbes(Misses(probed, aliveIds, now))
    ensures Mentioned(Misses(probed, aliveIds, now)) == ProbedIds(probed) - aliveIds
  {
    if probed != [] {
      var front, last := probed[..|probed| - 1], probed[|probed| - 1];
      MissesMention(front, aliveIds, now);
      if last.identity !in aliveIds { MentionedMore(Misses(front, aliveIds, now), last, now); }
    }
  }

  lemma {:induction false} MentionedConcat(a: seq<Event>, b: seq<Event>)
    ensures Mentioned(a + b) == Mentioned(a) + Mentioned(b)
    decreases |b|
  {
    if b == [] {
      assert a + b == a;
    } else {
      MentionedConcat(a, b[..|b| - 1]);
      assert (a + b)[..|a + b| - 1] == a + b[..|b| - 1];
    }
  }

  /** Before pruning, a round leaves exactly the old, probed and alive bridges. */
  lemma RoundKeys(entries: Entries, window: nat, probed: seq<Bridge>, alive: seq<Alive>, now: Time)
    ensures ApplyAll(entries, window, RoundEvents(probed, alive, now)).Keys
         == entries.Keys + ProbedIds(probed) + AliveIds(alive)
  {
    ReachesMention(alive, now);
    MissesMention(probed, AliveIds(alive), now);
    MentionedConcat(Reaches(alive, now), Misses(probed, AliveIds(alive), now));
    ProbesAddTheirBridges(entries, window, RoundEvents(probed, alive, now));
  }

  lemma {:induction false} AliveIdsAre(alive: seq<Alive>, id: nat)
    ensures id in AliveIds(alive) <==> exists a :: a in alive && a.bridge.identity == id
  {
    if alive != [] {
      var front, last := alive[..|alive| - 1], alive[|alive| - 1];
      AliveIdsAre(front, id);
      assert alive == front + [last];
      if id in AliveIds(front) {
        var a :| a in front && a.bridge.identity == id;
        assert a in alive;
      }
    }
  }

  lemma {:induction false} ReachedAre(entries: Entries, window: nat, alive: seq<Alive>, now: Time, id: nat)
    ensures var after := ApplyAll(entries, window, Reaches(alive, now));
      if id in AliveIds(alive)
      then id in after && after[id].fails == 0 && after[id].lastOk == Some(now) && after[id].lastAttempt == now
      else (id in after <==> id in entries) && (id in after ==> after[id] == entries[id])
  {
    if alive != [] {
      var last := alive[|alive| - 1];
      ReachedAre(entries, window, alive[..|alive| - 1], now, id);
      ApplyMore(entries, window, Reaches(alive[..|alive| - 1], now), Reached(last.bridge, last.latency, now));
    }
  }

  lemma {:induction false} MissedAre(
    entries: Entries, window: nat, probed: seq<Bridge>, aliveIds: set<nat>, now: Time, id: nat)
    ensures var after := ApplyAll(entries, window, Misses(probed, aliveIds, now));
      if id in aliveIds || id !in ProbedIds(probed) || (id in entries && now < entries[id].lastAttempt + window)
      then (id in after <==> id in entries) && (id in after ==> after[id] == entries[id])
      else
        && id in after && after[id].lastAttempt == now
        && (window > 0 ==> OneMore(if id in entries then entries[id].fails else 0, after[id].fails))
  {
    if probed != [] {
      var front, last := probed[..|probed| - 1], probed[|probed| - 1];
      MissedAre(entries, window, front, aliveIds, now, id);
      if last.identity !in aliveIds {
        ApplyMore(entries, window, Misses(front, aliveIds, now), Unreached(last, now));
      }
    }
  }

  lemma RoundProbes(entries: Entries, window: nat, probed: seq<Bridge>, alive: seq<Alive>, now: Time, id: nat)
    requires id in ApplyAll(entries, window, RoundEvents(probed, alive, now))
    ensures var after := ApplyAll(entries, window, RoundEvents(probed, alive, now));
      Probed(entries, after[id], id, window, probed, alive, now)
  {
    var reached := ApplyAll(entries, window, Reaches(alive, now));
    ApplyConcat(entries, window, Reaches(alive, now), Misses(probed, AliveIds(alive), now));
    ReachedAre(entries, window, alive, now, id);
    MissedAre(reached, window, probed, AliveIds(alive), now, id);
    AliveIdsAre(alive, id);
    ProbedIdsAre(probed, id);
  }

  // ---------------------------------------------------------------------------------------------
  // How fast failures can add up
  // ---------------------------------------------------------------------------------------------

  /** For entries created or last reached within the history: the times of the failures counted since. */
  type History = map<nat, seq<Time>>

  function Track(counted: History, entries: Entries, window: nat, ev: Event): History {
    match ev
    case Reached(b, _, _) => counted[b.identity := []]
    case Unreached(b, now) =>
      if b.identity !in entries then counted[b.identity := [now]]
      else if Counts(entries[b.identity], now, window) && b.identity in counted
      then counted[b.identity := counted[b.identity] + [now]] else counted
    case CircuitFailed(b, _, _) => if b.identity in entries then counted else counted[b.identity := []]
    case PermanentlyFailed(b, _) => if b.identity in entries then counted else counted[b.identity := []]
    case Offered(b, _, _) => if b.identity in entries then counted else counted[b.identity := []]
    case Pruned(maxFails, maxCircuitFails) =>
      map id | id in counted && id in Survivors(entries, maxFails, maxCircuitFails) :: counted[id]
    case _ => counted
  }

  function TrackAll(entries: Entries, window: nat, evs: seq<Event>): History {
    if evs == [] then map[]
    else
      var front := evs[..|evs| - 1];
      Track(TrackAll(entries, window, front), ApplyAll(entries, window, front), window, evs[|evs| - 1])
  }

  ghost predicate Spaced(times: seq<Time>, window: nat) {
    forall i | 0 <= i < |times| - 1 :: times[i + 1] - times[i] >= window
  }

  function Capped(n: nat): nat {
    if n < U32_MAX then n else U32_MAX
  }

  /** The counter of a tracked entry is the number of counted failures, and those are a window apart. */
  ghost predicate Explains(e: Entry, times: seq<Time>, window: nat) {
    && e.fails == Capped(|times|)
    && Spaced(times, window)
    && (times != [] ==> e.lastAttempt == times[|times| - 1])
  }

  ghost predicate Explained(counted: History, entries: Entries, window: nat) {
    forall id | id in counted :: id in entries && Explains(entries[id], counted[id], window)
  }

  lemma StepKeepsExplained(counted: History, entries: Entries, window: nat, ev: Event)
    requires Explained(counted, entries, window)
    ensures Explained(Track(counted, entries, window, ev), Apply(entries, window, ev), window)
  {
  }

  lemma {:induction false} RunKeepsExplained(entries: Entries, window: nat, evs: seq<Event>)
    ensures Explained(TrackAll(entries, window, evs), ApplyAll(entries, window, evs), window)
  {
    if evs != [] {
      var front := evs[..|evs| - 1];
      RunKeepsExplained(entries, window, front);
      StepKeepsExplained(TrackAll(entries, window, front), ApplyAll(entries, window, front), window, evs[|evs| - 1]);
    }
  }

  /** Counted failures `i` to `j` span at least `j - i` windows. */
  lemma {:induction false} SpanAtLeast(times: seq<Time>, window: nat, i: nat, j: nat)
    requires Spaced(times, window) && i <= j < |times|
    ensures times[j] - times[i] >= (j - i) * window
    decreases j
  {
    if i < j {
      SpanAtLeast(times, window, i, j - 1);
      assert (j - i) * window == (j - 1 - i) * window + window;
    }
  }

  /** After any events, whatever their clock readings: the failures counted against a tracked bridge since its
      last success, `k` of them, span at least `k - 1` windows. */
  lemma CountedFailuresSpanWindows(entries: Entries, window: nat, evs: seq<Event>, id: nat)
    requires id in TrackAll(entries, window, evs) && TrackAll(entries, window, evs)[id] != []
    ensures var times := TrackAll(entries, window, evs)[id];
      times[|times| - 1] - times[0] >= (|times| - 1) * window
  {
    RunKeepsExplained(entries, window, evs);
    var times := TrackAll(entries, window, evs)[id];
    SpanAtLeast(times, window, 0, |times| - 1);
  }

  /** A tracked bridge reaches the failure limit, and so is pruned for it, only after that many counted
      failures, spanning at least one window less than the limit. */
  lemma PrunedOnlyAfterTheSpan(entries: Entries, window: nat, evs: seq<Event>, id: nat, maxFails: nat)
    requires maxFails > 0 && id in TrackAll(entries, window, evs)
    ensures id in ApplyAll(entries, window, evs)
    ensures ApplyAll(entries, window, evs)[id].fails >= maxFails ==>
      var times := TrackAll(entries, window, evs)[id];
      |times| >= maxFails && times[|times| - 1] - times[0] >= (maxFails - 1) * window
  {
    RunKeepsExplained(entries, window, evs);
    LimitNeedsFailures(ApplyAll(entries, window, evs)[id], TrackAll(entries, window, evs)[id], window, maxFails);
  }

  lemma LimitNeedsFailures(e: Entry, times: seq<Time>, window: nat, maxFails: nat)
    requires maxFails > 0 && Explains(e, times, window)
    ensures e.fails >= maxFails ==>
      |times| >= maxFails && times[|times| - 1] - times[0] >= (maxFails - 1) * window
  {
    if e.fails >= maxFails {
      SpanAtLeast(times, window, 0, |times| - 1);
      MoreWindows(maxFails - 1, |times| - 1, window);
    }
  }

  lemma {:induction false} MoreWindows(a: nat, b: nat, window: nat)
    requires a <= b
    ensures a * window <= b * window
  {
    if a < b {
      MoreWindows(a, b - 1, window);
      assert b * window == (b - 1) * window + window;
    }
  }

  /** Every entry that was not in the store at the start is tracked. */
  lemma {:induction false} NewEntriesAreTracked(entries: Entries, window: nat, evs: seq<Event>, id: nat)
    requires id !in entries && id in ApplyAll(entries, window, evs)
    ensures id in TrackAll(entries, window, evs)
  {
    var front := evs[..|evs| - 1];
    if id in ApplyAll(entries, window, front) { NewEntriesAreTracked(entries, window, front, id); }
  }

  // ---------------------------------------------------------------------------------------------
  // What an observation leaves alone
  // ---------------------------------------------------------------------------------------------

  predicate IsTcp(ev: Event) { ev.Reached? || ev.Unreached? }

  predicate IsCircuit(ev: Event) { ev.CircuitFailed? || ev.PermanentlyFailed? || ev.CircuitBuilt? }

  /** Entries of other bridges stay as they are; of its own bridge, an observation of one layer changes no counter
      or time of another, and only a success forgets failures. */
  lemma LayersAreSeparate(entries: Entries, window: nat, ev: Event, id: nat)
    requires !ev.Pruned? && id in entries
    ensures id in Apply(entries, window, ev)
    ensures id != ev.bridge.identity ==> Apply(entries, window, ev)[id] == entries[id]
    ensures var before, after := entries[id], Apply(entries, window, ev)[id];
      && (!IsTcp(ev) ==>
            (after.fails, after.okCount, after.lastOk, after.lastAttempt, after.lastLatency)
            == (before.fails, before.okCount, before.lastOk, before.lastAttempt, before.lastLatency))
      && (!IsCircuit(ev) ==>
            (after.circuitFails, after.lastCircuitObservation) == (before.circuitFails, before.lastCircuitObservation))
      && (!ev.ChannelOpened? ==>
            (after.channelOkCount, after.lastChannelOk) == (before.channelOkCount, before.lastChannelOk))
      && (!ev.CircuitVerified? ==>
            (after.verifiedCount, after.lastVerified) == (before.verifiedCount, before.lastVerified))
      && (after.fails < before.fails && before.fails <= U32_MAX ==> ev.Reached?)
      && (after.circuitFails < before.circuitFails && before.circuitFails <= U32_MAX ==> ev.CircuitBuilt?)
      && before.sources <= after.sources
  {
  }

  /** A retired bridge stays retired through any observations until a circuit through it is built: failures
      saturate, and a reachable endpoint changes nothing. */
  lemma {:induction false} RetirementLasts(entries: Entries, window: nat, evs: seq<Event>, id: nat)
    requires id in entries && entries[id].IsRetired()
    requires forall i | 0 <= i < |evs| :: !evs[i].Pruned? && !(evs[i].CircuitBuilt? && evs[i].bridge.identity == id)
    ensures id in ApplyAll(entries, window, evs) && ApplyAll(entries, window, evs)[id].IsRetired()
    ensures !ApplyAll(entries, window, evs)[id].IsProvenAlive()
  {
    if evs != [] {
      var front, last := evs[..|evs| - 1], evs[|evs| - 1];
      RetirementLasts(entries, window, front, id);
      LayersAreSeparate(ApplyAll(entries, window, front), window, last, id);
    }
  }
}
