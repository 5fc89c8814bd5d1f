/**
 The lock discipline of the DNS cache: every call is a program of acquisitions and releases, every acquisition
 climbs a fixed rank, and so no set of threads running any calls can deadlock.
 */
module DnsLocks {

  datatype Lock =
    | Registry
    | Snapshot(path: nat)
    | FlushGate
    | Live
    | Store
    | NextGeneration(path: nat)
    | Publish(path: nat)
    | PublishedGeneration(path: nat)
    | TempSection(path: nat)

  datatype Op = Acquire(lock: Lock) | Release(lock: Lock)

  /** What the code may be asked to do; the numbers of merged answers and the paths are arbitrary. */
  datatype Call =
    | Flush(preserved: nat)
    | Capture(path: nat)
    | PublishJob(path: nat, recorded: bool)
    | FailedJob(path: nat)
    | Merges(count: nat)
    | Query(answeredLive: bool)
    | Lookup

  const TOP := 5

  function Rank(l: Lock): nat {
    match l
    case Registry => 0
    case Snapshot(_) => 1
    case FlushGate => 2
    case Live => 3
    case Store => 3
    case NextGeneration(_) => 4
    case Publish(_) => 1
    case PublishedGeneration(_) => 4
    case TempSection(_) => 5
  }

  function Section(l: Lock): seq<Op> {
    [Acquire(l), Release(l)]
  }

  function StoreSections(n: nat): seq<Op> {
    if n == 0 then [] else Section(Store) + StoreSections(n - 1)
  }

  /** The locks a call takes and gives back, in order. */
  function Program(c: Call): seq<Op> {
    match c
    case Flush(n) => [Acquire(FlushGate)] + (Section(Live) + (StoreSections(n) + [Release(FlushGate)]))
    case Capture(p) =>
      Section(Registry) + ([Acquire(Snapshot(p))] + ([Acquire(FlushGate)] + (Section(Live) + (Section(Store)
      + (Section(NextGeneration(p)) + [Release(FlushGate), Release(Snapshot(p))])))))
    case PublishJob(p, recorded) =>
      Section(TempSection(p)) + (Section(Registry)
      + ([Acquire(Publish(p))] + (Section(PublishedGeneration(p)) + (Section(TempSection(p))
      + (if recorded then Section(PublishedGeneration(p)) + [Release(Publish(p))] else [Release(Publish(p))])))))
    case FailedJob(p) => Section(TempSection(p)) + Section(TempSection(p))
    case Merges(n) => StoreSections(n)
    case Query(answeredLive) => if answeredLive then Section(Live) else Section(Live) + Section(Store)
    case Lookup => Section(Live)
  }

  function Programs(calls: seq<Call>): seq<Op> {
    if calls == [] then [] else Program(calls[0]) + Programs(calls[1..])
  }

  /** From `held`, the program only acquires above everything it holds, only releases what it holds, and ends
      holding nothing. */
  ghost predicate Climbs(held: set<Lock>, rest: seq<Op>)
    decreases |rest|
  {
    if rest == [] then held == {}
    else match rest[0]
      case Acquire(l) => (forall h | h in held :: Rank(h) < Rank(l)) && Climbs(held + {l}, rest[1..])
      case Release(l) => l in held && Climbs(held - {l}, rest[1..])
  }

  // ---------------------------------------------------------------------------------------------
  // Every call climbs
  // ---------------------------------------------------------------------------------------------

  /** Programs that end holding nothing can follow one another. */
  lemma {:induction false} ClimbsThen(held: set<Lock>, a: seq<Op>, b: seq<Op>)
    requires Climbs(held, a) && Climbs({}, b)
    ensures Climbs(held, a + b)
    decreases |a|
  {
    if a == [] {
      assert a + b == b;
    } else {
      assert (a + b)[1..] == a[1..] + b;
      match a[0]
      case Acquire(l) => ClimbsThen(held + {l}, a[1..], b);
      case Release(l) => ClimbsThen(held - {l}, a[1..], b);
    }
  }

  /** A section may be put in front wherever its lock ranks above everything held. */
  lemma SectionThen(held: set<Lock>, l: Lock, rest: seq<Op>)
    requires (forall h | h in held :: Rank(h) < Rank(l)) && Climbs(held, rest)
    ensures Climbs(held, Section(l) + rest)
  {
    var all := Section(l) + rest;
    assert all[1..][1..] == rest;
    assert (held + {l}) - {l} == held;
    assert Climbs(held + {l}, all[1..]);
  }

  lemma {:induction false} StoreSectionsThen(held: set<Lock>, n: nat, rest: seq<Op>)
    requires (forall h | h in held :: Rank(h) < Rank(Store)) && Climbs(held, rest)
    ensures Climbs(held, StoreSections(n) + rest)
  {
    if n == 0 {
      assert StoreSections(n) + rest == rest;
    } else {
      StoreSectionsThen(held, n - 1, rest);
      SectionThen(held, Store, StoreSections(n - 1) + rest);
      assert StoreSections(n) + rest == Section(Store) + (StoreSections(n - 1) + rest);
    }
  }

  lemma AcquireThen(held: set<Lock>, l: Lock, rest: seq<Op>)
    requires (forall h | h in held :: Rank(h) < Rank(l)) && Climbs(held + {l}, rest)
    ensures Climbs(held, [Acquire(l)] + rest)
  {
    assert ([Acquire(l)] + rest)[1..] == rest;
  }

  lemma LastRelease(l: Lock)
    ensures Climbs({l}, [Release(l)])
  {
    assert {l} - {l} == {};
    assert [Release(l)][1..] == [];
  }

  lemma FlushClimbs(n: nat)
    ensures Climbs({}, Program(Flush(n)))
  {
    LastRelease(FlushGate);
    StoreSectionsThen({FlushGate}, n, [Release(FlushGate)]);
    SectionThen({FlushGate}, Live, StoreSections(n) + [Release(FlushGate)]);
    assert {} + {FlushGate} == {FlushGate};
    AcquireThen({}, FlushGate, Section(Live) + (StoreSections(n) + [Release(FlushGate)]));
  }

  lemma CaptureClimbs(p: nat)
    ensures Climbs({}, Program(Capture(p)))
  {
    var s, g := Snapshot(p), FlushGate;
    LastRelease(s);
    assert ({s} + {g}) - {g} == {s};
    assert [Release(g), Release(s)][1..] == [Release(s)];
    assert Climbs({s, g}, [Release(g), Release(s)]);
    SectionThen({s, g}, NextGeneration(p), [Release(g), Release(s)]);
    SectionThen({s, g}, Store, Section(NextGeneration(p)) + [Release(g), Release(s)]);
    SectionThen({s, g}, Live, Section(Store) + (Section(NextGeneration(p)) + [Release(g), Release(s)]));
    var inner := Section(Live) + (Section(Store) + (Section(NextGeneration(p)) + [Release(g), Release(s)]));
    assert {s} + {g} == {s, g};
    AcquireThen({s}, g, inner);
    assert {} + {s} == {s};
    AcquireThen({}, s, [Acquire(g)] + inner);
    SectionThen({}, Registry, [Acquire(s)] + ([Acquire(g)] + inner));
  }

  lemma PublishClimbs(p: nat, recorded: bool)
    ensures Climbs({}, Program(PublishJob(p, recorded)))
  {
    var l, t, g := Publish(p), TempSection(p), PublishedGeneration(p);
    LastRelease(l);
    var tail := if recorded then Section(g) + [Release(l)] else [Release(l)];
    SectionThen({l}, g, [Release(l)]);
    SectionThen({l}, t, tail);
    SectionThen({l}, g, Section(t) + tail);
    assert {} + {l} == {l};
    AcquireThen({}, l, Section(g) + (Section(t) + tail));
    var all := [Acquire(l)] + (Section(g) + (Section(t) + tail));
    SectionThen({}, Registry, all);
    SectionThen({}, t, Section(Registry) + all);
  }

  lemma SectionClimbs(l: Lock)
    ensures Climbs({}, Section(l))
  {
    SectionThen({}, l, []);
    assert Section(l) + [] == Section(l);
  }

  lemma CallClimbs(c: Call)
    ensures Climbs({}, Program(c))
  {
    match c
    case Flush(n) => FlushClimbs(n);
    case Capture(p) => CaptureClimbs(p);
    case PublishJob(p, recorded) => PublishClimbs(p, recorded);
    case FailedJob(p) =>
      SectionClimbs(TempSection(p));
      ClimbsThen({}, Section(TempSection(p)), Section(TempSection(p)));
    case Merges(n) =>
      StoreSectionsThen({}, n, []);
      assert StoreSections(n) + [] == StoreSections(n);
    case Query(answeredLive) =>
      SectionClimbs(Live);
      SectionClimbs(Store);
      ClimbsThen({}, Section(Live), Section(Store));
    case Lookup => SectionClimbs(Live);
  }

  lemma {:induction false} CallsClimb(calls: seq<Call>)
    ensures Climbs({}, Programs(calls))
  {
    if calls != [] {
      CallClimbs(calls[0]);
      CallsClimb(calls[1..]);
      ClimbsThen({}, Program(calls[0]), Programs(calls[1..]));
    }
  }

  // ---------------------------------------------------------------------------------------------
  // Threads
  // ---------------------------------------------------------------------------------------------

  datatype Thread = Thread(held: set<Lock>, rest: seq<Op>)

  type State = seq<Thread>

  /** A release never waits; an acquisition waits while anybody, the thread itself included, has the lock. */
  ghost predicate CanStep(s: State, t: nat) {
    && t < |s| && s[t].rest != []
    && (s[t].rest[0].Acquire? ==> forall u: nat | u < |s| :: s[t].rest[0].lock !in s[u].held)
  }

  function StepOf(s: State, t: nat): State
    requires t < |s| && s[t].rest != []
  {
    var op := s[t].rest[0];
    s[t := Thread(if op.Acquire? then s[t].held + {op.lock} else s[t].held - {op.lock}, s[t].rest[1..])]
  }

  ghost predicate Start(s: State, calls: seq<seq<Call>>) {
    |s| == |calls| && forall t: nat | t < |s| :: s[t] == Thread({}, Programs(calls[t]))
  }

  ghost predicate Run(calls: seq<seq<Call>>, states: seq<State>, who: seq<nat>) {
    && |states| == |who| + 1 && Start(states[0], calls)
    && forall k | 0 <= k < |who| :: CanStep(states[k], who[k]) && states[k + 1] == StepOf(states[k], who[k])
  }

  ghost predicate Inv(s: State) {
    && (forall t: nat | t < |s| :: Climbs(s[t].held, s[t].rest))
    && (forall t: nat, u: nat | t < u < |s| :: s[t].held !! s[u].held)
  }

  lemma StepKeepsInv(s: State, t: nat)
    requires Inv(s) && CanStep(s, t)
    ensures Inv(StepOf(s, t))
  {
    assert Climbs(s[t].held, s[t].rest);
  }

  lemma {:induction false} RunKeepsInv(calls: seq<seq<Call>>, states: seq<State>, who: seq<nat>, k: nat)
    requires Run(calls, states, who) && k < |states|
    ensures Inv(states[k])
  {
    if k > 0 {
      RunKeepsInv(calls, states, who, k - 1);
      StepKeepsInv(states[k - 1], who[k - 1]);
    } else {
      forall t: nat | t < |states[0]| ensures Climbs(states[0][t].held, states[0][t].rest) {
        CallsClimb(calls[t]);
      }
    }
  }

  lemma RankIsBounded(l: Lock)
    ensures Rank(l) <= TOP
  {
  }

  /** Follow the waiting: a thread that cannot step waits for a lock whose holder, if it cannot step either,
      waits for a lock of higher rank. */
  lemma {:induction false} SomebodyCanStep(s: State, t: nat)
    requires Inv(s) && t < |s| && s[t].rest != []
    ensures exists u: nat :: CanStep(s, u)
    decreases if s[t].rest[0].Acquire? then 1 + TOP - Rank(s[t].rest[0].lock) else 0
  {
    if !CanStep(s, t) {
      var l := s[t].rest[0].lock;
      var u: nat :| u < |s| && l in s[u].held;
      assert Climbs(s[u].held, s[u].rest);
      RankIsBounded(l);
      if s[u].rest[0].Acquire? { RankIsBounded(s[u].rest[0].lock); }
      SomebodyCanStep(s, u);
    }
  }

  /** However many threads make whatever calls: in every reachable state with an unfinished thread, some thread
      can step. */
  lemma NoDeadlock(calls: seq<seq<Call>>, states: seq<State>, who: seq<nat>, k: nat, t: nat)
    requires Run(calls, states, who) && k < |states| && t < |states[k]| && states[k][t].rest != []
    ensures exists u: nat :: CanStep(states[k], u)
  {
    RunKeepsInv(calls, states, who, k);
    SomebodyCanStep(states[k], t);
  }

  function Remaining(s: State): nat {
    if s == [] then 0 else |s[0].rest| + Remaining(s[1..])
  }

  lemma {:induction false} StepShrinks(s: State, t: nat)
    requires t < |s| && s[t].rest != []
    ensures Remaining(StepOf(s, t)) == Remaining(s) - 1
  {
    var n := StepOf(s, t);
    if t == 0 {
      assert n[1..] == s[1..];
    } else {
      StepShrinks(s[1..], t - 1);
      assert n[1..] == StepOf(s[1..], t - 1);
    }
  }

  lemma {:induction false} NothingRemains(s: State)
    ensures Remaining(s) == 0 <==> forall t: nat | t < |s| :: s[t].rest == []
  {
    if s != [] {
      NothingRemains(s[1..]);
      if forall t: nat | t < |s| :: s[t].rest == [] {
        forall t: nat | t < |s[1..]| ensures s[1..][t].rest == [] { assert s[1..][t] == s[t + 1]; }
      }
      if Remaining(s) == 0 {
        forall t: nat | t < |s| ensures s[t].rest == [] { if t > 0 { assert s[t] == s[1..][t - 1]; } }
      }
    }
  }

  /** Every run can only take as many steps as there are operations, and a run that cannot be continued has
      finished every call. */
  lemma {:induction false} RunsAreBounded(calls: seq<seq<Call>>, states: seq<State>, who: seq<nat>, k: nat)
    requires Run(calls, states, who) && k < |states|
    ensures k + Remaining(states[k]) == Remaining(states[0])
  {
    if k > 0 {
      RunsAreBounded(calls, states, who, k - 1);
      StepShrinks(states[k - 1], who[k - 1]);
    }
  }

  lemma EveryCallCompletes(calls: seq<seq<Call>>, states: seq<State>, who: seq<nat>)
    requires Run(calls, states, who)
    ensures |who| <= Remaining(states[0])
    ensures |who| == Remaining(states[0]) <==> !(exists u: nat :: CanStep(states[|who|], u))
    ensures |who| == Remaining(states[0]) <==> forall t: nat | t < |states[|who|]| :: states[|who|][t].rest == []
  {
    RunsAreBounded(calls, states, who, |who|);
    var s := states[|who|];
    NothingRemains(s);
    if t: nat :| t < |s| && s[t].rest != [] {
      NoDeadlock(calls, states, who, |who|, t);
    }
  }
}
