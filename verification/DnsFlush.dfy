/**
 Lookups, failures, invalidations, merges, flushes and save captures interleaved.  One action is one section
 under the mutex of the live cache or of the fallback store, or one taking or releasing of the flush gate, so
 every interleaving of those sections is a run.
 */
module DnsFlush {
  import opened Text
  import opened DnsCache

  datatype Pc =
    | Idle
    | Looking(host: Host, captured: nat)
    | Invalidating(host: Host, observed: Identity, tried: seq<Addr>)
    | FlushGated
    | Merging(rest: seq<Hint>)
    | CaptureGated
    | CapturedLive(live: seq<Hint>, liveGeneration: nat)
    | Captured(live: seq<Hint>, disk: seq<Hint>, liveGeneration: nat, diskGeneration: nat, wall: nat)

  /** An answer a flush has taken out of the live cache, and the generation it was live in. */
  datatype Moved = Moved(hint: Hint, generation: nat)

  /** `moved` is a history variable: every answer any flush has taken out of the live cache. */
  datatype State = State(
    live: Live, store: Store, generation: nat, nextVersion: nat, gate: Option<nat>, pcs: seq<Pc>, moved: set<Moved>)

  /** Choices the code leaves to clocks, the network, hash map order and callers are carried by the action. */
  datatype Action =
    | BeginLookup(host: Host)
    | PublishAnswer(ips: seq<Addr>, validFor: int, now: int, wall: nat, kept: Live)
    | PublishFailure(now: int, wall: nat, kept: Live)
    | BeginInvalidate(host: Host, observed: Identity, tried: seq<Addr>)
    | FinishInvalidate
    | MergeHint(hint: Hint)
    | FlushAcquire
    | FlushClear(now: int, listing: seq<Hint>)
    | FlushMerge
    | FlushRelease
    | CaptureAcquire
    | CaptureLive(now: int, listing: seq<Hint>)
    | CaptureDisk(wall: nat, listing: seq<Hint>)
    | CaptureRelease

  predicate HoldsGate(pc: Pc) {
    pc.FlushGated? || pc.Merging? || pc.CaptureGated? || pc.CapturedLive? || pc.Captured?
  }

  ghost predicate Enabled(s: State, t: nat, a: Action) {
    && t < |s.pcs|
    && var pc := s.pcs[t];
    match a
    case BeginLookup(_) => pc.Idle?
    case PublishAnswer(_, _, now, _, kept) => pc.Looking? && MakesRoom(s.live, kept, now)
    case PublishFailure(now, _, kept) => pc.Looking? && MakesRoom(s.live, kept, now)
    case BeginInvalidate(_, _, _) => pc.Idle?
    case FinishInvalidate => pc.Invalidating?
    case MergeHint(_) => pc.Idle?
    case FlushAcquire => pc.Idle? && s.gate.None?
    case FlushClear(now, listing) => pc.FlushGated? && Lists(listing, Preserved(s.live, now))
    case FlushMerge => pc.Merging? && pc.rest != []
    case FlushRelease => pc.Merging? && pc.rest == []
    case CaptureAcquire => pc.Idle? && s.gate.None?
    case CaptureLive(now, listing) => pc.CaptureGated? && Lists(listing, Preserved(s.live, now))
    case CaptureDisk(wall, listing) => pc.CapturedLive? && Lists(listing, DiskOnly(s.store, Hosts(pc.live), wall))
    case CaptureRelease => pc.Captured?
  }

  function Insert(s: State, host: Host, addrs: seq<Addr>, expiresAt: int, stamp: nat, kept: Live): State {
    s.(live := kept[host := Cached(addrs, expiresAt, stamp, s.generation, s.nextVersion)],
       nextVersion := s.nextVersion + 1)
  }

  predicate HasFreshPositive(live: Live, host: Host, generation: nat, now: int) {
    host in live && live[host].generation == generation && live[host].addrs != [] && live[host].expiresAt > now
  }

  /** The effect on everything but the program counter. */
  function Effect(s: State, pc: Pc, t: nat, a: Action): State {
    match a
    case PublishAnswer(ips, validFor, now, wall, kept) =>
      if pc.Looking? && s.generation == pc.captured
      then Insert(s, pc.host, ips, now + Clamp(validFor, MIN_TTL, MAX_TTL), wall, kept) else s
    case PublishFailure(now, wall, kept) =>
      if pc.Looking? && s.generation == pc.captured && !HasFreshPositive(s.live, pc.host, pc.captured, now)
      then Insert(s, pc.host, [], now + NEGATIVE_TTL, wall, kept) else s
    case FinishInvalidate =>
      if pc.Invalidating? && Invalidates(s.live, pc.host, pc.observed, pc.tried)
      then s.(live := s.live - {pc.host}) else s
    case MergeHint(hint) => s.(store := Merge(s.store, hint))
    case FlushAcquire => s.(gate := Some(t))
    case FlushClear(_, listing) =>
      s.(live := map[], generation := s.generation + 1,
         moved := s.moved + set x | x in listing :: Moved(x, s.generation))
    case FlushMerge => if pc.Merging? && pc.rest != [] then s.(store := Merge(s.store, pc.rest[0])) else s
    case FlushRelease => s.(gate := None)
    case CaptureAcquire => s.(gate := Some(t))
    case CaptureRelease => s.(gate := None)
    case _ => s
  }

  predicate Invalidates(live: Live, host: Host, observed: Identity, tried: seq<Addr>) {
    && host in live && Identity(live[host].generation, live[host].version) == observed
    && live[host].addrs != [] && tried != [] && forall a | a in tried :: a in live[host].addrs
  }

  function Next(s: State, pc: Pc, a: Action): Pc {
    match a
    case BeginLookup(host) => Looking(host, s.generation)
    case BeginInvalidate(host, observed, tried) =>
      if observed.generation == s.generation then Invalidating(host, observed, tried) else Idle
    case FlushAcquire => FlushGated
    case FlushClear(_, listing) => Merging(listing)
    case FlushMerge => if pc.Merging? && pc.rest != [] then Merging(pc.rest[1..]) else pc
    case CaptureAcquire => CaptureGated
    case CaptureLive(_, listing) => CapturedLive(listing, s.generation)
    case CaptureDisk(wall, listing) =>
      if pc.CapturedLive? then Captured(pc.live, listing, pc.liveGeneration, s.generation, wall) else pc
    case _ => Idle
  }

  function Do(s: State, t: nat, a: Action): State
    requires t < |s.pcs|
  {
    var pc := s.pcs[t];
    Effect(s, pc, t, a).(pcs := s.pcs[t := Next(s, pc, a)])
  }

  ghost predicate Init(s: State) {
    && s.live == map[] && s.gate.None? && s.moved == {}
    && forall t | 0 <= t < |s.pcs| :: s.pcs[t].Idle?
  }

  /** A run: `states[k + 1]` is what thread `who[k]` makes of `states[k]` with `what[k]`. */
  ghost predicate Run(states: seq<State>, who: seq<nat>, what: seq<Action>) {
    && |states| == |who| + 1 == |what| + 1
    && Init(states[0])
    && forall k | 0 <= k < |who| ::
         Enabled(states[k], who[k], what[k]) && states[k + 1] == Do(states[k], who[k], what[k])
  }

  // ---------------------------------------------------------------------------------------------
  // The invariant
  // ---------------------------------------------------------------------------------------------

  /** Every live answer belongs to the current network generation. */
  ghost predicate LiveIsCurrent(s: State) {
    IsCurrent(s.live, s.generation, s.nextVersion)
  }

  ghost predicate IsCurrent(live: Live, generation: nat, nextVersion: nat) {
    |live| <= CAP && forall h | h in live :: live[h].generation == generation && live[h].version < nextVersion
  }

  ghost predicate GateIsOwned(s: State) {
    && (s.gate.Some? ==> s.gate.value < |s.pcs|)
    && forall t: nat | t < |s.pcs| :: HoldsGate(s.pcs[t]) <==> s.gate == Some(t)
  }

  ghost predicate LookupsArePast(s: State) {
    forall t: nat | t < |s.pcs| && s.pcs[t].Looking? :: s.pcs[t].captured <= s.generation
  }

  /** What the flush in progress still has to merge. */
  function Pending(s: State): seq<Hint> {
    if s.gate.Some? && s.gate.value < |s.pcs| && s.pcs[s.gate.value].Merging? then s.pcs[s.gate.value].rest else []
  }

  ghost predicate Covers(store: Store, x: Hint) {
    x.host in store && store[x.host].stamp >= x.answer.stamp
  }

  /** An answer taken out of the live cache is in the store, or about to be merged by the gate's owner. */
  ghost predicate MovedIsSafe(s: State) {
    forall x | x in s.moved :: x.generation < s.generation && (Covers(s.store, x.hint) || x.hint in Pending(s))
  }

  /** A finished capture lists each host once, saw one generation, and misses nothing that has moved. */
  ghost predicate IsWhole(moved: set<Moved>, generation: nat, pc: Pc) {
    && (pc.CapturedLive? ==> pc.liveGeneration == generation && DistinctHosts(pc.live))
    && (pc.Captured? ==>
          && pc.liveGeneration == pc.diskGeneration == generation
          && DistinctHosts(pc.live + pc.disk)
          && ListsMoved(moved, generation, pc.live, pc.disk, pc.wall))
  }

  /** Every moved answer inside the window is listed from the store at least as recent, unless its host is listed
      with a live answer of a later generation. */
  ghost predicate ListsMoved(moved: set<Moved>, generation: nat, live: seq<Hint>, disk: seq<Hint>, wall: nat) {
    forall x | x in moved && InWindow(x.hint.answer.stamp, wall) ::
      (x.hint.host in Hosts(live) && x.generation < generation) || ListsAtLeast(disk, x.hint)
  }

  ghost predicate ListsAtLeast(disk: seq<Hint>, x: Hint) {
    exists y :: y in disk && y.host == x.host && y.answer.stamp >= x.answer.stamp
  }

  ghost predicate CapturesAreWhole(s: State) {
    forall t: nat | t < |s.pcs| :: IsWhole(s.moved, s.generation, s.pcs[t])
  }

  ghost predicate Inv(s: State) {
    LiveIsCurrent(s) && GateIsOwned(s) && LookupsArePast(s) && MovedIsSafe(s) && CapturesAreWhole(s)
  }

  lemma InsertKeepsLive(live: Live, generation: nat, next: nat, host: Host, answer: Cached, kept: Live, now: int)
    requires IsCurrent(live, generation, next) && MakesRoom(live, kept, now)
    requires answer.generation == generation && answer.version == next
    ensures IsCurrent(kept[host := answer], generation, next + 1)
  {
    MakesRoomLeaves(live, kept, now);
    OneMoreKey(kept, host, answer);
  }

  lemma RemoveKeepsLive(live: Live, generation: nat, next: nat, host: Host)
    requires IsCurrent(live, generation, next)
    ensures IsCurrent(live - {host}, generation, next)
  {
    SmallerMap(live - {host}, live);
  }

  lemma StepKeepsLive(s: State, t: nat, a: Action)
    requires Enabled(s, t, a) && LiveIsCurrent(s)
    ensures LiveIsCurrent(Do(s, t, a))
  {
    var pc := s.pcs[t];
    match a {
      case PublishAnswer(ips, validFor, now, wall, kept) =>
        var answer := Cached(ips, now + Clamp(validFor, MIN_TTL, MAX_TTL), wall, s.generation, s.nextVersion);
        InsertKeepsLive(s.live, s.generation, s.nextVersion, pc.host, answer, kept, now);
      case PublishFailure(now, wall, kept) =>
        var answer := Cached([], now + NEGATIVE_TTL, wall, s.generation, s.nextVersion);
        InsertKeepsLive(s.live, s.generation, s.nextVersion, pc.host, answer, kept, now);
      case FinishInvalidate => RemoveKeepsLive(s.live, s.generation, s.nextVersion, pc.host);
      case _ =>
    }
  }

  lemma StepKeepsGate(s: State, t: nat, a: Action)
    requires Enabled(s, t, a) && GateIsOwned(s)
    ensures GateIsOwned(Do(s, t, a))
  {
  }

  lemma StepKeepsLookups(s: State, t: nat, a: Action)
    requires Enabled(s, t, a) && LookupsArePast(s)
    ensures LookupsArePast(Do(s, t, a)) && s.generation <= Do(s, t, a).generation
  {
  }

  lemma MergeCovers(store: Store, x: Hint, hint: Hint)
    ensures Covers(store, x) ==> Covers(Merge(store, hint), x)
    ensures Covers(Merge(store, hint), hint)
  {
  }

  lemma StepKeepsMoved(s: State, t: nat, a: Action)
    requires Enabled(s, t, a) && GateIsOwned(s) && MovedIsSafe(s)
    ensures MovedIsSafe(Do(s, t, a))
  {
    var pc := s.pcs[t];
    if a.MergeHint? {
      forall x { MergeCovers(s.store, x, a.hint); }
    } else if a.FlushMerge? {
      forall x { MergeCovers(s.store, x, pc.rest[0]); }
      assert pc.rest == [pc.rest[0]] + pc.rest[1..];
    }
  }

  /** Nobody else's program counter changes, and the history they depend on only changes under the gate. */
  lemma StepKeepsOtherCaptures(s: State, t: nat, a: Action, u: nat)
    requires Enabled(s, t, a) && Inv(s) && u < |s.pcs| && u != t
    ensures IsWhole(Do(s, t, a).moved, Do(s, t, a).generation, Do(s, t, a).pcs[u])
  {
    assert IsWhole(s.moved, s.generation, s.pcs[u]);
    if HoldsGate(s.pcs[u]) { assert s.gate == Some(u); }
  }

  lemma DiskListsMoved(s: State, t: nat, wall: nat, listing: seq<Hint>)
    requires Enabled(s, t, CaptureDisk(wall, listing)) && Inv(s)
    ensures ListsMoved(s.moved, s.generation, s.pcs[t].live, listing, wall)
    ensures DistinctHosts(s.pcs[t].live + listing)
  {
    var live := s.pcs[t].live;
    assert HoldsGate(s.pcs[t]) && Pending(s) == [];
    forall x | x in s.moved && InWindow(x.hint.answer.stamp, wall) && x.hint.host !in Hosts(live)
      ensures ListsAtLeast(listing, x.hint)
    {
      assert Covers(s.store, x.hint);
      ListingHas(listing, DiskOnly(s.store, Hosts(live), wall), x.hint.host);
    }
    assert IsWhole(s.moved, s.generation, s.pcs[t]);
    var both := live + listing;
    forall i, j | 0 <= i < j < |both| ensures both[i].host != both[j].host {
      if i < |live| <= j {
        assert live[i].host in Hosts(live);
        assert listing[j - |live|].host in DiskOnly(s.store, Hosts(live), wall);
      }
    }
  }

  lemma StepKeepsOwnCapture(s: State, t: nat, a: Action)
    requires Enabled(s, t, a) && Inv(s)
    ensures IsWhole(Do(s, t, a).moved, Do(s, t, a).generation, Do(s, t, a).pcs[t])
  {
    assert IsWhole(s.moved, s.generation, s.pcs[t]);
    match a {
      case CaptureDisk(wall, listing) => DiskListsMoved(s, t, wall, listing);
      case _ =>
    }
  }

  lemma StepKeepsInv(s: State, t: nat, a: Action)
    requires Enabled(s, t, a) && Inv(s)
    ensures Inv(Do(s, t, a))
  {
    StepKeepsLive(s, t, a);
    StepKeepsGate(s, t, a);
    StepKeepsLookups(s, t, a);
    StepKeepsMoved(s, t, a);
    StepKeepsOwnCapture(s, t, a);
    forall u: nat | u < |s.pcs| && u != t
      ensures IsWhole(Do(s, t, a).moved, Do(s, t, a).generation, Do(s, t, a).pcs[u])
    {
      StepKeepsOtherCaptures(s, t, a, u);
    }
  }

  /** The invariant holds in every state of every run. */
  lemma {:induction false} RunKeepsInv(states: seq<State>, who: seq<nat>, what: seq<Action>, k: nat)
    requires Run(states, who, what) && k < |states|
    ensures Inv(states[k])
  {
    if k > 0 {
      RunKeepsInv(states, who, what, k - 1);
      StepKeepsInv(states[k - 1], who[k - 1], what[k - 1]);
    }
  }

  // ---------------------------------------------------------------------------------------------
  // What follows for every run
  // ---------------------------------------------------------------------------------------------

  /** The generation never goes back, and each flush moves it on. */
  lemma {:induction false} GenerationOnlyGrows(states: seq<State>, who: seq<nat>, what: seq<Action>, i: nat, j: nat)
    requires Run(states, who, what) && i <= j < |states|
    ensures states[i].generation <= states[j].generation
    ensures (exists k :: i <= k < j && what[k].FlushClear?) ==> states[i].generation < states[j].generation
    decreases j
  {
    if i < j {
      GenerationOnlyGrows(states, who, what, i, j - 1);
      assert states[j] == Do(states[j - 1], who[j - 1], what[j - 1]);
    }
  }

  /** A thread's program counter is its own. */
  lemma {:induction false} PcIsPrivate(states: seq<State>, who: seq<nat>, what: seq<Action>, i: nat, j: nat, t: nat)
    requires Run(states, who, what) && i <= j < |states| && t < |states[i].pcs|
    requires forall m | i <= m < j :: who[m] != t
    ensures |states[j].pcs| == |states[i].pcs| && states[j].pcs[t] == states[i].pcs[t]
    decreases j
  {
    if i < j {
      PcIsPrivate(states, who, what, i, j - 1, t);
      assert states[j] == Do(states[j - 1], who[j - 1], what[j - 1]);
    }
  }

  /** A lookup that began before some flush publishes nothing after it, success or failure. */
  lemma StaleLookupPublishesNothing(
    states: seq<State>, who: seq<nat>, what: seq<Action>, i: nat, k: nat, j: nat)
    requires Run(states, who, what) && i < k < j < |who|
    requires what[i].BeginLookup? && what[k].FlushClear?
    requires who[j] == who[i] && forall m | i < m < j :: who[m] != who[i]
    requires what[j].PublishAnswer? || what[j].PublishFailure?
    ensures states[j + 1].live == states[j].live
  {
    assert states[i + 1] == Do(states[i], who[i], what[i]);
    PcIsPrivate(states, who, what, i + 1, j, who[i]);
    GenerationOnlyGrows(states, who, what, i + 1, j);
    assert states[j + 1] == Do(states[j], who[j], what[j]);
  }

  /** A failed lookup never replaces an unexpired positive answer for the same host: in a reachable state such
      an answer is of the current generation, so the whole cache is left alone. */
  lemma FailureNeverReplacesFreshPositive(states: seq<State>, who: seq<nat>, what: seq<Action>, j: nat, host: Host)
    requires Run(states, who, what) && j < |who|
    requires what[j].PublishFailure? && states[j].pcs[who[j]].host == host
    requires host in states[j].live && states[j].live[host].addrs != []
    requires states[j].live[host].expiresAt > what[j].now
    ensures states[j + 1].live == states[j].live
  {
    RunKeepsInv(states, who, what, j);
  }

  /** While a capture is under way no flush can clear or merge: the capture falls wholly before or wholly
      after every flush. */
  lemma CapturesExcludeFlushes(states: seq<State>, who: seq<nat>, what: seq<Action>, j: nat, t: nat)
    requires Run(states, who, what) && j < |who| && t < |states[j].pcs|
    requires states[j].pcs[t].CaptureGated? || states[j].pcs[t].CapturedLive? || states[j].pcs[t].Captured?
    ensures !what[j].FlushClear? && !what[j].FlushMerge?
  {
    RunKeepsInv(states, who, what, j);
    assert HoldsGate(states[j].pcs[t]);
  }

  /** What a capture lists from the live cache is of the generation it records. */
  lemma LiveListingIsCurrent(states: seq<State>, who: seq<nat>, what: seq<Action>, j: nat, x: Hint)
    requires Run(states, who, what) && j < |who| && what[j].CaptureLive? && x in what[j].listing
    ensures x.host in states[j].live && states[j].live[x.host].generation == states[j].generation
    ensures states[j + 1].pcs[who[j]] == CapturedLive(what[j].listing, states[j].generation)
  {
    RunKeepsInv(states, who, what, j);
  }

  /** Every finished capture lists each host at most once, read both stores in one generation, and lists every
      in-window answer any flush has ever moved: from the store and at least as recent, or replaced by a live
      answer of a later generation. */
  lemma CaptureMissesNothingMoved(states: seq<State>, who: seq<nat>, what: seq<Action>, j: nat, t: nat)
    requires Run(states, who, what) && j < |states| && t < |states[j].pcs| && states[j].pcs[t].Captured?
    ensures var pc := states[j].pcs[t];
      && DistinctHosts(pc.live + pc.disk)
      && pc.liveGeneration == pc.diskGeneration == states[j].generation
      && ListsMoved(states[j].moved, pc.liveGeneration, pc.live, pc.disk, pc.wall)
  {
    RunKeepsInv(states, who, what, j);
    assert IsWhole(states[j].moved, states[j].generation, states[j].pcs[t]);
  }

  /** Outside a flush, every answer ever moved out of the live cache is in the store, or was overtaken there by
      one at least as recent. */
  lemma NothingMovedIsLost(states: seq<State>, who: seq<nat>, what: seq<Action>, j: nat)
    requires Run(states, who, what) && j < |states|
    requires forall t: nat | t < |states[j].pcs| :: !states[j].pcs[t].Merging?
    ensures forall x | x in states[j].moved :: Covers(states[j].store, x.hint)
  {
    RunKeepsInv(states, who, what, j);
  }

  // ---------------------------------------------------------------------------------------------
  // What is moved, stored and captured
  // ---------------------------------------------------------------------------------------------

  /** The live cache holds this very answer, it is not a failure, and it expired at most 24 hours ago. */
  ghost predicate WasLive(s: State, now: int, x: Hint) {
    && x.host in s.live && x.answer.addrs == s.live[x.host].addrs && x.answer.stamp == s.live[x.host].stamp
    && x.answer.addrs != [] && now <= s.live[x.host].expiresAt + 86_400_000_000_000
  }

  /** A flush takes out exactly the positive answers that are fresh or stale for at most 24 hours. */
  lemma FlushMovesExactly(states: seq<State>, who: seq<nat>, what: seq<Action>, j: nat, x: Moved)
    requires Run(states, who, what) && j < |who|
    ensures x in states[j + 1].moved <==>
      x in states[j].moved
      || (what[j].FlushClear? && x.generation == states[j].generation && WasLive(states[j], what[j].now, x.hint))
  {
    assert states[j + 1] == Do(states[j], who[j], what[j]);
    if what[j].FlushClear? {
      ListingIs(what[j].listing, Preserved(states[j].live, what[j].now));
      assert x.hint == Hint(x.hint.host, x.hint.answer);
    }
  }

  /** A capture lists exactly the answers a flush would take out at that moment. */
  lemma CaptureListsExactly(states: seq<State>, who: seq<nat>, what: seq<Action>, j: nat, x: Hint)
    requires Run(states, who, what) && j < |who| && what[j].CaptureLive?
    ensures states[j + 1].pcs[who[j]].CapturedLive?
    ensures x in states[j + 1].pcs[who[j]].live <==> WasLive(states[j], what[j].now, x)
  {
    assert states[j + 1] == Do(states[j], who[j], what[j]);
    ListingIs(what[j].listing, Preserved(states[j].live, what[j].now));
    assert x == Hint(x.host, x.answer);
  }

  /** From the store it adds exactly the answers stamped at most 24 hours ago of hosts not listed yet. */
  lemma DiskCaptureListsExactly(states: seq<State>, who: seq<nat>, what: seq<Action>, j: nat, x: Hint)
    requires Run(states, who, what) && j < |who| && what[j].CaptureDisk?
    ensures states[j].pcs[who[j]].CapturedLive? && states[j + 1].pcs[who[j]].Captured?
    ensures var was, pc, store := states[j].pcs[who[j]], states[j + 1].pcs[who[j]], states[j].store;
      && pc.live == was.live
      && (x in pc.disk <==>
            && x.host in store && x.answer == store[x.host] && what[j].wall <= x.answer.stamp + 86_400
            && forall y | y in was.live :: y.host != x.host)
  {
    assert states[j + 1] == Do(states[j], who[j], what[j]);
    var live := states[j].pcs[who[j]].live;
    ListingIs(what[j].listing, DiskOnly(states[j].store, Hosts(live), what[j].wall));
    assert x == Hint(x.host, x.answer);
    assert x.host in Hosts(live) <==> exists y :: y in live && y.host == x.host;
  }

  /** The hints merged from outside by step `j`. */
  function MergedHints(what: seq<Action>, j: nat): set<Hint>
    requires j <= |what|
  {
    set k | 0 <= k < j && what[k].MergeHint? :: what[k].hint
  }

  ghost predicate IsMoved(moved: set<Moved>, x: Hint) {
    exists m :: m in moved && m.hint == x
  }

  ghost predicate Offered(start: Store, merged: set<Hint>, moved: set<Moved>, x: Hint) {
    (x.host in start && start[x.host] == x.answer) || x in merged || IsMoved(moved, x)
  }

  ghost predicate StoreIsOffered(start: Store, merged: set<Hint>, s: State) {
    && (forall h | h in s.store :: Offered(start, merged, s.moved, Hint(h, s.store[h])))
    && forall t, x | 0 <= t < |s.pcs| && s.pcs[t].Merging? && x in s.pcs[t].rest :: IsMoved(s.moved, x)
  }

  lemma StepStoresOffered(start: Store, merged: set<Hint>, merged': set<Hint>, s: State, t: nat, a: Action)
    requires Enabled(s, t, a) && StoreIsOffered(start, merged, s)
    requires merged <= merged' && (a.MergeHint? ==> a.hint in merged')
    ensures StoreIsOffered(start, merged', Do(s, t, a))
  {
    var s', pc := Do(s, t, a), s.pcs[t];
    forall x | IsMoved(s.moved, x) ensures IsMoved(s'.moved, x) {
      var m :| m in s.moved && m.hint == x;
      assert m in s'.moved;
    }
    forall u, x | 0 <= u < |s'.pcs| && s'.pcs[u].Merging? && x in s'.pcs[u].rest ensures IsMoved(s'.moved, x) {
      if u == t && a.FlushClear? {
        assert Moved(x, s.generation) in s'.moved;
      } else if u == t {
        assert x in pc.rest;
      }
    }
    if a.FlushMerge? { assert pc.rest[0] in pc.rest && IsMoved(s.moved, pc.rest[0]); }
    forall h | h in s'.store ensures Offered(start, merged', s'.moved, Hint(h, s'.store[h])) {
      if h in s.store && s'.store[h] == s.store[h] {
        assert Offered(start, merged, s.moved, Hint(h, s.store[h]));
      }
    }
  }

  /** Every stored answer was stored at the start, was merged from outside, or was moved there by a flush. */
  lemma {:induction false} StoreHoldsOnlyOffered(states: seq<State>, who: seq<nat>, what: seq<Action>, j: nat)
    requires Run(states, who, what) && j < |states|
    ensures StoreIsOffered(states[0].store, MergedHints(what, j), states[j])
  {
    if j > 0 {
      StoreHoldsOnlyOffered(states, who, what, j - 1);
      var before, now := MergedHints(what, j - 1), MergedHints(what, j);
      assert what[j - 1].MergeHint? ==> what[j - 1].hint in now;
      StepStoresOffered(states[0].store, before, now, states[j - 1], who[j - 1], what[j - 1]);
    }
  }

  lemma {:induction false} MovedIsPositive(states: seq<State>, who: seq<nat>, what: seq<Action>, j: nat)
    requires Run(states, who, what) && j < |states|
    ensures forall x | x in states[j].moved :: x.hint.answer.addrs != []
  {
    if j > 0 {
      MovedIsPositive(states, who, what, j - 1);
      forall x | x in states[j].moved ensures x.hint.answer.addrs != [] {
        FlushMovesExactly(states, who, what, j - 1, x);
      }
    }
  }

  /** No failure ever reaches the store: if none was stored at the start and none is merged from outside, every
      stored answer has addresses, however flushes and failed lookups interleave. */
  lemma StoreStaysPositive(states: seq<State>, who: seq<nat>, what: seq<Action>, j: nat, host: Host)
    requires Run(states, who, what) && j < |states| && host in states[j].store
    requires forall h | h in states[0].store :: states[0].store[h].addrs != []
    requires forall k | 0 <= k < j && what[k].MergeHint? :: what[k].hint.answer.addrs != []
    ensures states[j].store[host].addrs != []
  {
    StoreHoldsOnlyOffered(states, who, what, j);
    MovedIsPositive(states, who, what, j);
    assert Offered(states[0].store, MergedHints(what, j), states[j].moved, Hint(host, states[j].store[host]));
  }

  // ---------------------------------------------------------------------------------------------
  // The steps are the methods
  // ---------------------------------------------------------------------------------------------

  /** The object's fields are those of the state. */
  ghost predicate Shows(r: Resolver, s: State)
    reads r
  {
    r.live == s.live && r.store == s.store && r.generation == s.generation && r.nextVersion == s.nextVersion
  }

  /** A lookup's publication is a step of the protocol. */
  method PublishAnswerSteps(
    r: Resolver, ghost s: State, ghost t: nat, host: Host, captured: nat, ips: seq<Addr>, validFor: int, now: int,
    wall: nat) returns (ghost a: Action)
    requires r.Valid() && Shows(r, s) && t < |s.pcs| && s.pcs[t] == Looking(host, captured)
    modifies r
    ensures a.PublishAnswer? && a.ips == ips && a.validFor == validFor && a.now == now && a.wall == wall
    ensures Enabled(s, t, a) && Shows(r, Do(s, t, a))
  {
    var room := MakeRoom(r.live, now);
    ghost var kept := room;
    var published := r.RememberAnswerIfGeneration(host, ips, validFor, captured, now, wall);
    if published.Some? {
      kept :| MakesRoom(old(r.live), kept, now) && r.live == kept[host := Cached(ips,
        now + Clamp(validFor, MIN_TTL, MAX_TTL), wall, r.generation, old(r.nextVersion))];
    }
    a := PublishAnswer(ips, validFor, now, wall, kept);
  }

  method PublishFailureSteps(
    r: Resolver, ghost s: State, ghost t: nat, host: Host, captured: nat, now: int, wall: nat)
    returns (ghost a: Action)
    requires r.Valid() && Shows(r, s) && t < |s.pcs| && s.pcs[t] == Looking(host, captured)
    modifies r
    ensures a.PublishFailure? && a.now == now && a.wall == wall
    ensures Enabled(s, t, a) && Shows(r, Do(s, t, a))
  {
    var room := MakeRoom(r.live, now);
    ghost var kept := room;
    var stored := r.RememberFailureIfGeneration(host, captured, now, wall);
    if stored {
      kept :| MakesRoom(old(r.live), kept, now)
        && r.live == kept[host := Cached([], now + NEGATIVE_TTL, wall, r.generation, old(r.nextVersion))];
    }
    a := PublishFailure(now, wall, kept);
    FailureEffect(s, t, now, wall, kept);
  }

  lemma FailureEffect(s: State, t: nat, now: int, wall: nat, kept: Live)
    requires t < |s.pcs| && s.pcs[t].Looking?
    ensures var pc, n := s.pcs[t], Do(s, t, PublishFailure(now, wall, kept));
      && n.store == s.store && n.generation == s.generation
      && if s.generation == pc.captured && !HasFreshPositive(s.live, pc.host, pc.captured, now)
         then n.live == kept[pc.host := Cached([], now + NEGATIVE_TTL, wall, s.generation, s.nextVersion)]
              && n.nextVersion == s.nextVersion + 1
         else n.live == s.live && n.nextVersion == s.nextVersion
  {
  }

  method InvalidateSteps(r: Resolver, ghost s: State, ghost t: nat, host: Host, observed: Identity, tried: seq<Addr>)
    requires r.Valid() && Shows(r, s) && t < |s.pcs| && s.pcs[t] == Invalidating(host, observed, tried)
    modifies r
    ensures Enabled(s, t, FinishInvalidate) && Shows(r, Do(s, t, FinishInvalidate))
  {
    var removed := r.InvalidateIfCurrent(host, observed, tried);
  }

  method MergeSteps(r: Resolver, ghost s: State, ghost t: nat, hint: Hint)
    requires Shows(r, s) && t < |s.pcs| && s.pcs[t].Idle?
    modifies r
    ensures Enabled(s, t, MergeHint(hint)) && Shows(r, Do(s, t, MergeHint(hint)))
  {
    r.MergeDiskFallbackEntry(hint);
  }

  /** What a flush does once the live cache is cleared, when no other thread moves: its merges, then the
      release. */
  ghost function MergesOut(s: State, t: nat): State
    requires t < |s.pcs| && s.pcs[t].Merging?
    decreases |s.pcs[t].rest|
  {
    if s.pcs[t].rest == [] then Do(s, t, FlushRelease) else MergesOut(Do(s, t, FlushMerge), t)
  }

  lemma {:induction false} MergeFirst(store: Store, x: Hint, rest: seq<Hint>)
    ensures MergeAll(store, [x] + rest) == MergeAll(Merge(store, x), rest)
  {
    if rest == [] {
      assert ([x] + rest)[..0] == [];
    } else {
      MergeFirst(store, x, rest[..|rest| - 1]);
      assert ([x] + rest)[..|rest|] == [x] + rest[..|rest| - 1];
    }
  }

  lemma {:induction false} MergesOutIs(s: State, t: nat)
    requires t < |s.pcs| && s.pcs[t].Merging?
    ensures MergesOut(s, t) == s.(store := MergeAll(s.store, s.pcs[t].rest), gate := None, pcs := s.pcs[t := Idle])
    decreases |s.pcs[t].rest|
  {
    var rest := s.pcs[t].rest;
    if rest != [] {
      MergesOutIs(Do(s, t, FlushMerge), t);
      MergeFirst(s.store, rest[0], rest[1..]);
      assert [rest[0]] + rest[1..] == rest;
    }
  }

  /** A flush that nobody interrupts leaves the object as `FlushDnsCache` does, in whatever order the hash map
      lists the answers. */
  method FlushSteps(r: Resolver, ghost s: State, ghost t: nat, now: int, ghost listing: seq<Hint>)
    requires r.Valid() && Shows(r, s) && t < |s.pcs| && s.pcs[t].Idle? && s.gate.None?
    requires Lists(listing, Preserved(s.live, now))
    modifies r
    ensures var gated := Do(s, t, FlushAcquire);
      && Enabled(s, t, FlushAcquire) && Enabled(gated, t, FlushClear(now, listing))
      && Shows(r, MergesOut(Do(gated, t, FlushClear(now, listing)), t))
  {
    r.FlushDnsCache(now);
    MergesOutIs(Do(Do(s, t, FlushAcquire), t, FlushClear(now, listing)), t);
    MergeListing(s.store, listing, Preserved(s.live, now));
  }

  // ---------------------------------------------------------------------------------------------
  // Invalidation
  // ---------------------------------------------------------------------------------------------

  /** Every answer in `after` was already in `before`, or has a version not given out by then. */
  ghost predicate OldOrNewer(before: State, after: State) {
    && before.nextVersion <= after.nextVersion
    && forall h | h in after.live ::
         (h in before.live && before.live[h] == after.live[h]) || after.live[h].version >= before.nextVersion
  }

  lemma InsertIsOldOrNewer(
    s: State, host: Host, addrs: seq<Addr>, expiresAt: int, stamp: nat, kept: Live, now: int)
    requires LiveIsCurrent(s) && MakesRoom(s.live, kept, now)
    ensures OldOrNewer(s, Insert(s, host, addrs, expiresAt, stamp, kept))
  {
    MakesRoomLeaves(s.live, kept, now);
  }

  lemma StepIsOldOrNewer(s: State, t: nat, a: Action)
    requires Enabled(s, t, a) && LiveIsCurrent(s)
    ensures OldOrNewer(s, Do(s, t, a))
  {
    var pc := s.pcs[t];
    if a.PublishAnswer? {
      InsertIsOldOrNewer(s, pc.host, a.ips, a.now + Clamp(a.validFor, MIN_TTL, MAX_TTL), a.wall, a.kept, a.now);
    } else if a.PublishFailure? {
      InsertIsOldOrNewer(s, pc.host, [], a.now + NEGATIVE_TTL, a.wall, a.kept, a.now);
    }
  }

  lemma {:induction false} RunIsOldOrNewer(states: seq<State>, who: seq<nat>, what: seq<Action>, i: nat, j: nat)
    requires Run(states, who, what) && i <= j < |states|
    ensures OldOrNewer(states[i], states[j])
    decreases j
  {
    if i < j {
      RunIsOldOrNewer(states, who, what, i, j - 1);
      RunKeepsInv(states, who, what, j - 1);
      StepIsOldOrNewer(states[j - 1], who[j - 1], what[j - 1]);
    }
  }

  /** Invalidating an answer seen earlier in the run removes that answer or nothing: a newer answer for the host,
      or one of another network generation, has another identity. */
  lemma InvalidationSparesNewerAnswers(
    states: seq<State>, who: seq<nat>, what: seq<Action>, i: nat, j: nat, host: Host, tried: seq<Addr>)
    requires Run(states, who, what) && i <= j < |states| && host in states[i].live
    requires var seen := states[i].live[host];
      Invalidates(states[j].live, host, Identity(seen.generation, seen.version), tried)
    ensures states[j].live[host] == states[i].live[host] && states[j].generation == states[i].generation
  {
    RunIsOldOrNewer(states, who, what, i, j);
    RunKeepsInv(states, who, what, i);
    RunKeepsInv(states, who, what, j);
  }
}
