/**
 Saves of the DNS cache: captures numbered under a per-path snapshot lock, and jobs that publish them under a
 per-path publish lock.  Any number of threads save to any number of paths; writes and renames may fail, and a
 rename that reports an error may still have taken effect.
 */
module DnsSave {
  import opened Text

  type Path = nat

  /** One capture: its generation number, and when the live cache and the fallback store were read. */
  datatype Capture = Capture(generation: nat, liveAt: nat, diskAt: nat)

  /** `captures` and `successes` are history: all captures taken, and the generations recorded as published.
      `file` is the generation whose data the target file holds, once a save of this process has replaced it. */
  datatype PathState = PathState(
    snapshotLock: Option<nat>, nextGeneration: nat, captures: seq<Capture>,
    publishLock: Option<nat>, publishedGeneration: nat, successes: seq<nat>, file: Option<nat>)

  datatype Pc =
    | Idle
    | Capturing(path: Path)
    | ReadLive(path: Path, liveAt: nat)
    | ReadBoth(path: Path, liveAt: nat, diskAt: nat)
    | Job(path: Path, generation: nat)
    | Publishing(path: Path, generation: nat)
    | Renamed(path: Path, generation: nat)
    | Returned(path: Path, generation: nat, ok: bool)

  datatype State = State(clock: nat, paths: seq<PathState>, pcs: seq<Pc>)

  /** `allOrNothing`: a rename that reports an error has not taken effect. */
  datatype Policy = Policy(allOrNothing: bool)

  datatype Action =
    | BeginCapture(path: Path)
    | ReadLiveStore
    | ReadDiskStore
    | Allocate
    | WriteFails
    | EnterPublication
    | RenameSucceeds
    | RenameFails(tookEffect: bool)
    | RecordPublished
    | Restart

  predicate HasPath(pc: Pc) { !pc.Idle? }

  predicate InCapture(pc: Pc) { pc.Capturing? || pc.ReadLive? || pc.ReadBoth? }

  predicate InPublication(pc: Pc) { pc.Publishing? || pc.Renamed? }

  predicate Enabled(policy: Policy, s: State, t: nat, a: Action) {
    && t < |s.pcs|
    && var pc := s.pcs[t];
    && (HasPath(pc) ==> pc.path < |s.paths|)
    && match a
       case BeginCapture(path) => pc.Idle? && path < |s.paths| && s.paths[path].snapshotLock.None?
       case ReadLiveStore => pc.Capturing?
       case ReadDiskStore => pc.ReadLive?
       case Allocate => pc.ReadBoth?
       case WriteFails => pc.Job?
       case EnterPublication => pc.Job? && s.paths[pc.path].publishLock.None?
       case RenameSucceeds => pc.Publishing?
       case RenameFails(tookEffect) => pc.Publishing? && (tookEffect ==> !policy.allOrNothing)
       case RecordPublished => pc.Renamed?
       case Restart => true
  }

  /** What a step of thread `t` does to the state of the path it works on. */
  function Effect(p: PathState, pc: Pc, t: nat, a: Action): PathState {
    match a
    case BeginCapture(_) => p.(snapshotLock := Some(t))
    case Allocate =>
      if pc.ReadBoth? then
        p.(snapshotLock := None, nextGeneration := p.nextGeneration + 1,
           captures := p.captures + [Capture(p.nextGeneration + 1, pc.liveAt, pc.diskAt)])
      else p
    case EnterPublication =>
      if pc.Job? && pc.generation > p.publishedGeneration then p.(publishLock := Some(t)) else p
    case RenameSucceeds => if pc.Publishing? then p.(file := Some(pc.generation)) else p
    case RenameFails(tookEffect) =>
      if pc.Publishing? then
        p.(publishLock := None, file := if tookEffect then Some(pc.generation) else p.file)
      else p
    case RecordPublished =>
      if pc.Renamed? then
        p.(publishLock := None, publishedGeneration := pc.generation, successes := p.successes + [pc.generation])
      else p
    case _ => p
  }

  function Next(p: PathState, clock: nat, pc: Pc, a: Action): Pc {
    match a
    case BeginCapture(path) => Capturing(path)
    case ReadLiveStore => if pc.Capturing? then ReadLive(pc.path, clock) else pc
    case ReadDiskStore => if pc.ReadLive? then ReadBoth(pc.path, pc.liveAt, clock) else pc
    case Allocate => if pc.ReadBoth? then Job(pc.path, p.nextGeneration + 1) else pc
    case WriteFails => if pc.Job? then Returned(pc.path, pc.generation, false) else pc
    case EnterPublication =>
      if !pc.Job? then pc
      else if pc.generation <= p.publishedGeneration then Returned(pc.path, pc.generation, true)
      else Publishing(pc.path, pc.generation)
    case RenameSucceeds => if pc.Publishing? then Renamed(pc.path, pc.generation) else pc
    case RenameFails(_) => if pc.Publishing? then Returned(pc.path, pc.generation, false) else pc
    case RecordPublished => if pc.Renamed? then Returned(pc.path, pc.generation, true) else pc
    case Restart => Idle
  }

  function PathOf(pc: Pc, a: Action): Path {
    if a.BeginCapture? then a.path else if HasPath(pc) then pc.path else 0
  }

  /** A restart of the process loses every counter, lock and job; numbering and `file` begin anew. */
  function Do(s: State, t: nat, a: Action): State
    requires t < |s.pcs| && (a.Restart? || PathOf(s.pcs[t], a) < |s.paths|)
  {
    if a.Restart? then State(s.clock + 1, seq(|s.paths|, _ => FRESH), seq(|s.pcs|, _ => Idle))
    else
      var pc := s.pcs[t];
      var path := PathOf(pc, a);
      var p := s.paths[path];
      State(s.clock + 1, s.paths[path := Effect(p, pc, t, a)], s.pcs[t := Next(p, s.clock, pc, a)])
  }

  const FRESH := PathState(None, 0, [], None, 0, [], None)

  ghost predicate Init(s: State) {
    && (forall t | 0 <= t < |s.pcs| :: s.pcs[t].Idle?)
    && (forall p | 0 <= p < |s.paths| :: s.paths[p] == FRESH)
  }

  ghost predicate Step(policy: Policy, s: State, t: nat, a: Action, n: State) {
    Enabled(policy, s, t, a) && n == Do(s, t, a)
  }

  ghost predicate Run(policy: Policy, states: seq<State>, who: seq<nat>, what: seq<Action>) {
    && |states| == |who| + 1 == |what| + 1
    && Init(states[0])
    && forall k | 0 <= k < |who| :: Step(policy, states[k], who[k], what[k], states[k + 1])
  }

  // ---------------------------------------------------------------------------------------------
  // The invariant
  // ---------------------------------------------------------------------------------------------

  /** A thread holds exactly the lock its program counter says. */
  ghost predicate LocksMatch(p: PathState, path: Path, t: nat, pc: Pc) {
    && (p.snapshotLock == Some(t) <==> InCapture(pc) && pc.path == path)
    && (p.publishLock == Some(t) <==> InPublication(pc) && pc.path == path)
  }

  /** Captures are numbered 1, 2, 3, ... in the order their data was read: all of an earlier capture was read
      before any of a later one. */
  ghost predicate CapturesInOrder(p: PathState, clock: nat) {
    && |p.captures| == p.nextGeneration
    && (forall i | 0 <= i < |p.captures| ::
          p.captures[i].generation == i + 1 && p.captures[i].liveAt < p.captures[i].diskAt < clock)
    && (forall i, j | 0 <= i < j < |p.captures| :: p.captures[i].diskAt < p.captures[j].liveAt)
  }

  ghost predicate ReadsAfter(captures: seq<Capture>, liveAt: nat) {
    forall i | 0 <= i < |captures| :: captures[i].diskAt < liveAt
  }

  /** What the program counter of a thread working on this path promises. */
  ghost predicate PcFits(p: PathState, clock: nat, pc: Pc) {
    match pc
    case ReadLive(_, liveAt) => liveAt < clock && ReadsAfter(p.captures, liveAt)
    case ReadBoth(_, liveAt, diskAt) => liveAt < diskAt < clock && ReadsAfter(p.captures, liveAt)
    case Publishing(_, generation) => generation > p.publishedGeneration
    case Renamed(_, generation) => generation > p.publishedGeneration
    case Returned(_, generation, ok) => ok ==> generation <= p.publishedGeneration
    case _ => true
  }

  function Last(s: seq<nat>): nat {
    if s == [] then 0 else s[|s| - 1]
  }

  /** The recorded generation is that of the last success, and the recorded generations strictly increase. */
  ghost predicate PublishedInOrder(p: PathState) {
    && p.publishedGeneration == Last(p.successes)
    && (forall i | 0 <= i < |p.successes| :: 0 < p.successes[i] <= p.publishedGeneration)
    && (forall i, j | 0 <= i < j < |p.successes| :: p.successes[i] < p.successes[j])
  }

  ghost predicate PathOk(p: PathState, clock: nat) {
    CapturesInOrder(p, clock) && PublishedInOrder(p)
  }

  /** Everything about thread `t` as seen from `path`. */
  ghost predicate ThreadOk(p: PathState, path: Path, clock: nat, t: nat, pc: Pc) {
    LocksMatch(p, path, t, pc) && (HasPath(pc) && pc.path == path ==> PcFits(p, clock, pc))
  }

  ghost predicate Inv(s: State) {
    && (forall t: nat | t < |s.pcs| && HasPath(s.pcs[t]) :: s.pcs[t].path < |s.paths|)
    && (forall q: nat | q < |s.paths| :: PathOk(s.paths[q], s.clock))
    && (forall q: nat, t: nat | q < |s.paths| && t < |s.pcs| ::
          ThreadOk(s.paths[q], q, s.clock, t, s.pcs[t]))
  }

  lemma TimePasses(p: PathState, path: Path, clock: nat, t: nat, pc: Pc)
    ensures PathOk(p, clock) ==> PathOk(p, clock + 1)
    ensures ThreadOk(p, path, clock, t, pc) ==> ThreadOk(p, path, clock + 1, t, pc)
  {
  }

  lemma EffectKeepsPath(policy: Policy, s: State, t: nat, a: Action)
    requires Inv(s) && Enabled(policy, s, t, a) && !a.Restart?
    ensures PathOf(s.pcs[t], a) < |s.paths|
    ensures PathOk(Effect(s.paths[PathOf(s.pcs[t], a)], s.pcs[t], t, a), s.clock + 1)
  {
    var path := PathOf(s.pcs[t], a);
    assert ThreadOk(s.paths[path], path, s.clock, t, s.pcs[t]);
    assert PathOk(s.paths[path], s.clock);
  }

  lemma EffectKeepsActor(policy: Policy, s: State, t: nat, a: Action)
    requires Inv(s) && Enabled(policy, s, t, a) && !a.Restart?
    ensures PathOf(s.pcs[t], a) < |s.paths|
    ensures var path, pc := PathOf(s.pcs[t], a), s.pcs[t];
      ThreadOk(Effect(s.paths[path], pc, t, a), path, s.clock + 1, t, Next(s.paths[path], s.clock, pc, a))
  {
    var path := PathOf(s.pcs[t], a);
    assert ThreadOk(s.paths[path], path, s.clock, t, s.pcs[t]);
    assert PathOk(s.paths[path], s.clock);
  }

  /** A step of `t` disturbs no other thread on the same path: what the other relies on is locked or only
      grows. */
  lemma EffectKeepsOthers(policy: Policy, s: State, t: nat, a: Action, u: nat)
    requires Inv(s) && Enabled(policy, s, t, a) && !a.Restart? && u < |s.pcs| && u != t
    ensures PathOf(s.pcs[t], a) < |s.paths|
    ensures var path := PathOf(s.pcs[t], a);
      ThreadOk(Effect(s.paths[path], s.pcs[t], t, a), path, s.clock + 1, u, s.pcs[u])
  {
    var path := PathOf(s.pcs[t], a);
    assert ThreadOk(s.paths[path], path, s.clock, t, s.pcs[t]);
    assert ThreadOk(s.paths[path], path, s.clock, u, s.pcs[u]);
  }

  /** Seen from any other path, the actor holds nothing before or after. */
  lemma EffectStaysOnPath(policy: Policy, s: State, t: nat, a: Action, q: nat)
    requires Inv(s) && Enabled(policy, s, t, a) && !a.Restart? && q < |s.paths| && q != PathOf(s.pcs[t], a)
    ensures PathOf(s.pcs[t], a) < |s.paths|
    ensures ThreadOk(s.paths[q], q, s.clock + 1, t, Next(s.paths[PathOf(s.pcs[t], a)], s.clock, s.pcs[t], a))
  {
    assert ThreadOk(s.paths[q], q, s.clock, t, s.pcs[t]);
  }

  lemma StepKeepsThreads(policy: Policy, s: State, t: nat, a: Action, n: State, q: nat, u: nat)
    requires Inv(s) && Step(policy, s, t, a, n) && !a.Restart? && q < |s.paths| && u < |s.pcs|
    ensures ThreadOk(n.paths[q], q, n.clock, u, n.pcs[u])
  {
    assert ThreadOk(s.paths[q], q, s.clock, u, s.pcs[u]);
    if q == PathOf(s.pcs[t], a) {
      if u == t { EffectKeepsActor(policy, s, t, a); } else { EffectKeepsOthers(policy, s, t, a, u); }
    } else if u == t {
      EffectStaysOnPath(policy, s, t, a, q);
    } else {
      TimePasses(s.paths[q], q, s.clock, u, s.pcs[u]);
    }
  }

  lemma StepKeepsInv(policy: Policy, s: State, t: nat, a: Action, n: State)
    requires Inv(s) && Step(policy, s, t, a, n)
    ensures Inv(n)
  {
    if a.Restart? {
      return;
    }
    EffectKeepsPath(policy, s, t, a);
    forall q: nat | q < |n.paths| ensures PathOk(n.paths[q], n.clock) {
      assert PathOk(s.paths[q], s.clock);
      TimePasses(s.paths[q], q, s.clock, t, s.pcs[t]);
    }
    forall q: nat, u: nat | q < |n.paths| && u < |n.pcs|
      ensures ThreadOk(n.paths[q], q, n.clock, u, n.pcs[u])
    {
      StepKeepsThreads(policy, s, t, a, n, q, u);
    }
  }

  lemma {:induction false} RunKeepsInv(policy: Policy, states: seq<State>, who: seq<nat>, what: seq<Action>, k: nat)
    requires Run(policy, states, who, what) && k < |states|
    ensures Inv(states[k])
  {
    if k > 0 {
      RunKeepsInv(policy, states, who, what, k - 1);
      StepKeepsInv(policy, states[k - 1], who[k - 1], what[k - 1], states[k]);
    } else {
      var s := states[0];
      forall q: nat | q < |s.paths| ensures s.paths[q] == FRESH { }
    }
  }

  // ---------------------------------------------------------------------------------------------
  // What follows for every run, whatever a failed rename leaves behind
  // ---------------------------------------------------------------------------------------------

  /** Capture numbers follow the order in which data was read: of two captures of one path, the one with the
      smaller number read both stores before the other read either. */
  lemma CaptureNumbersFollowTheData(
    policy: Policy, states: seq<State>, who: seq<nat>, what: seq<Action>, k: nat, path: Path, i: nat, j: nat)
    requires Run(policy, states, who, what) && k < |states| && path < |states[k].paths|
    requires i < |states[k].paths[path].captures| && j < |states[k].paths[path].captures|
    ensures var c := states[k].paths[path].captures;
      c[i].generation < c[j].generation <==> c[i].diskAt < c[j].liveAt
  {
    RunKeepsInv(policy, states, who, what, k);
    assert PathOk(states[k].paths[path], states[k].clock);
  }

  /** The generations recorded as published strictly increase. */
  lemma PublishedGenerationsIncrease(
    policy: Policy, states: seq<State>, who: seq<nat>, what: seq<Action>, k: nat, path: Path, i: nat, j: nat)
    requires Run(policy, states, who, what) && k < |states| && path < |states[k].paths|
    requires i < j < |states[k].paths[path].successes|
    ensures states[k].paths[path].successes[i] < states[k].paths[path].successes[j]
      <= states[k].paths[path].publishedGeneration
  {
    RunKeepsInv(policy, states, who, what, k);
    assert PathOk(states[k].paths[path], states[k].clock);
  }

  /** A save that returned Ok left a published generation at least its own, from then on. */
  lemma OkMeansPublished(policy: Policy, states: seq<State>, who: seq<nat>, what: seq<Action>, k: nat, t: nat)
    requires Run(policy, states, who, what) && k < |states| && t < |states[k].pcs|
    requires states[k].pcs[t].Returned? && states[k].pcs[t].ok
    ensures states[k].pcs[t].path < |states[k].paths|
    ensures states[k].pcs[t].generation <= states[k].paths[states[k].pcs[t].path].publishedGeneration
  {
    RunKeepsInv(policy, states, who, what, k);
    var path := states[k].pcs[t].path;
    assert ThreadOk(states[k].paths[path], path, states[k].clock, t, states[k].pcs[t]);
  }

  /** A job is turned away at publication exactly when a save at least as new has succeeded: newer saves that
      failed, or are still on their way, never veto it. */
  lemma TurnedAwayExactlyBehindASuccess(
    policy: Policy, states: seq<State>, who: seq<nat>, what: seq<Action>, k: nat)
    requires Run(policy, states, who, what) && k < |who| && what[k].EnterPublication?
    ensures who[k] < |states[k].pcs| && states[k].pcs[who[k]].Job?
    ensures var job := states[k].pcs[who[k]];
      && job.path < |states[k].paths| && who[k] < |states[k + 1].pcs|
      && (!states[k + 1].pcs[who[k]].Publishing? <==>
            exists i :: 0 <= i < |states[k].paths[job.path].successes|
                        && states[k].paths[job.path].successes[i] >= job.generation)
  {
    RunKeepsInv(policy, states, who, what, k);
    assert Step(policy, states[k], who[k], what[k], states[k + 1]);
    var job := states[k].pcs[who[k]];
    var p := states[k].paths[job.path];
    assert PathOk(p, states[k].clock);
    if job.generation <= p.publishedGeneration {
      JobsAreNumbered(policy, states, who, what, k, who[k]);
      assert p.successes[|p.successes| - 1] >= job.generation;
    }
  }

  /** A job's number was allocated by a capture, so it is not zero. */
  ghost predicate Numbered(pc: Pc) {
    pc.Job? ==> pc.generation > 0
  }

  lemma {:induction false} JobsAreNumbered(
    policy: Policy, states: seq<State>, who: seq<nat>, what: seq<Action>, k: nat, t: nat)
    requires Run(policy, states, who, what) && k < |states| && t < |states[k].pcs|
    ensures Numbered(states[k].pcs[t])
  {
    if k > 0 {
      assert Step(policy, states[k - 1], who[k - 1], what[k - 1], states[k]);
      JobsAreNumbered(policy, states, who, what, k - 1, t);
    }
  }

  // ---------------------------------------------------------------------------------------------
  // The file itself
  // ---------------------------------------------------------------------------------------------

  /** The generation the file should hold: the one just renamed, else the last one recorded. */
  function Expected(p: PathState, pcs: seq<Pc>): Option<nat> {
    if p.publishLock.Some? && p.publishLock.value < |pcs| && pcs[p.publishLock.value].Renamed?
    then Some(pcs[p.publishLock.value].generation)
    else if p.successes == [] then None else Some(Last(p.successes))
  }

  ghost predicate FilesMatch(s: State) {
    forall q: nat | q < |s.paths| :: s.paths[q].file == Expected(s.paths[q], s.pcs)
  }

  lemma StepKeepsFiles(policy: Policy, s: State, t: nat, a: Action, n: State, q: nat)
    requires policy.allOrNothing && Inv(s) && Step(policy, s, t, a, n) && q < |s.paths|
    requires s.paths[q].file == Expected(s.paths[q], s.pcs)
    ensures n.paths[q].file == Expected(n.paths[q], n.pcs)
  {
    assert ThreadOk(s.paths[q], q, s.clock, t, s.pcs[t]);
  }

  lemma {:induction false} RunKeepsFiles(policy: Policy, states: seq<State>, who: seq<nat>, what: seq<Action>, k: nat)
    requires Run(policy, states, who, what) && policy.allOrNothing && k < |states|
    ensures FilesMatch(states[k])
  {
    if k > 0 {
      RunKeepsFiles(policy, states, who, what, k - 1);
      RunKeepsInv(policy, states, who, what, k - 1);
      assert Step(policy, states[k - 1], who[k - 1], what[k - 1], states[k]);
      forall q: nat | q < |states[k].paths|
        ensures states[k].paths[q].file == Expected(states[k].paths[q], states[k].pcs)
      {
        StepKeepsFiles(policy, states[k - 1], who[k - 1], what[k - 1], states[k], q);
      }
    } else {
      forall q: nat | q < |states[0].paths| ensures states[0].paths[q] == FRESH { }
    }
  }

  /** The step replaces the data of one save by that of an older one. */
  predicate RollsBackAt(s: State, n: State, q: Path) {
    && q < |s.paths| == |n.paths| && s.paths[q].file.Some? && n.paths[q].file.Some?
    && n.paths[q].file.value < s.paths[q].file.value
  }

  ghost predicate RollsBack(s: State, n: State) {
    exists q :: RollsBackAt(s, n, q)
  }

  ghost predicate NeverRollsBack(policy: Policy) {
    forall states: seq<State>, who: seq<nat>, what: seq<Action>, k: nat ::
      Run(policy, states, who, what) && k < |who| ==> !RollsBack(states[k], states[k + 1])
  }

  lemma NoRollbackStep(policy: Policy, s: State, t: nat, a: Action, n: State)
    requires policy.allOrNothing && Inv(s) && FilesMatch(s) && Step(policy, s, t, a, n)
    ensures !RollsBack(s, n)
  {
    forall q: nat | q < |s.paths| && s.paths[q].file.Some? && n.paths[q].file.Some?
      ensures n.paths[q].file.value >= s.paths[q].file.value
    {
      assert ThreadOk(s.paths[q], q, s.clock, t, s.pcs[t]);
      assert s.paths[q].file == Expected(s.paths[q], s.pcs);
      assert PathOk(s.paths[q], s.clock);
    }
  }

  /** Saves by two threads: generation 2 is renamed, but the rename reports an error; then generation 1 is
      published over it. */
  function BadAction(k: nat): Action {
    if k == 0 || k == 4 then BeginCapture(0)
    else if k == 1 || k == 5 then ReadLiveStore
    else if k == 2 || k == 6 then ReadDiskStore
    else if k == 3 || k == 7 then Allocate
    else if k == 8 || k == 10 then EnterPublication
    else if k == 9 then RenameFails(true)
    else RenameSucceeds
  }

  function BadThread(k: nat): nat {
    if 4 <= k <= 9 then 1 else 0
  }

  function BadPath(k: nat): PathState {
    var one, two := Capture(1, 1, 2), Capture(2, 5, 6);
    if k == 0 then FRESH
    else if k <= 3 then FRESH.(snapshotLock := Some(0))
    else if k == 4 then FRESH.(nextGeneration := 1, captures := [one])
    else if k <= 7 then FRESH.(snapshotLock := Some(1), nextGeneration := 1, captures := [one])
    else
      var both := FRESH.(nextGeneration := 2, captures := [one, two]);
      if k == 8 then both
      else if k == 9 then both.(publishLock := Some(1))
      else if k == 10 then both.(file := Some(2))
      else if k == 11 then both.(file := Some(2), publishLock := Some(0))
      else both.(file := Some(1), publishLock := Some(0))
  }

  function BadPcs(k: nat): seq<Pc> {
    var first :=
      if k == 0 then Idle else if k == 1 then Capturing(0) else if k == 2 then ReadLive(0, 1)
      else if k == 3 then ReadBoth(0, 1, 2) else if k <= 10 then Job(0, 1)
      else if k == 11 then Publishing(0, 1) else Renamed(0, 1);
    var second :=
      if k <= 4 then Idle else if k == 5 then Capturing(0) else if k == 6 then ReadLive(0, 5)
      else if k == 7 then ReadBoth(0, 5, 6) else if k == 8 then Job(0, 2)
      else if k == 9 then Publishing(0, 2) else Returned(0, 2, false);
    [first, second]
  }

  function BadState(k: nat): State {
    State(k, [BadPath(k)], BadPcs(k))
  }

  lemma BadStep(policy: Policy, k: nat)
    requires !policy.allOrNothing && k < 12
    ensures Step(policy, BadState(k), BadThread(k), BadAction(k), BadState(k + 1))
  {
    var s, t, a := BadState(k), BadThread(k), BadAction(k);
    assert Enabled(policy, s, t, a);
    BadPathStep(k);
    assert Do(s, t, a).paths == [BadPath(k + 1)];
    BadPcsStep(k);
    assert Do(s, t, a).pcs == BadPcs(k + 1);
  }

  lemma BadPathStep(k: nat)
    requires k < 12
    ensures Effect(BadPath(k), BadPcs(k)[BadThread(k)], BadThread(k), BadAction(k)) == BadPath(k + 1)
  {
  }

  lemma BadPcsStep(k: nat)
    requires k < 12
    ensures Next(BadPath(k), k, BadPcs(k)[BadThread(k)], BadAction(k)) == BadPcs(k + 1)[BadThread(k)]
    ensures BadPcs(k)[1 - BadThread(k)] == BadPcs(k + 1)[1 - BadThread(k)]
  {
  }

  lemma RollbackHappens(policy: Policy)
    requires !policy.allOrNothing
    ensures !NeverRollsBack(policy)
  {
    var states := seq(13, (k: nat) => BadState(k));
    var who := seq(12, (k: nat) => BadThread(k));
    var what := seq(12, (k: nat) => BadAction(k));
    forall k | 0 <= k < 12
      ensures Step(policy, states[k], who[k], what[k], states[k + 1])
    {
      BadStep(policy, k);
    }
    assert Run(policy, states, who, what);
    assert RollsBackAt(states[11], states[12], 0);
  }

  // -- which runs roll back

  /** A rename of this process that took effect, as the file shows it, and whether it was reported so. */
  datatype Rename = Rename(generation: nat, reported: bool)

  predicate RenamesAt(s: State, t: nat, a: Action, q: Path) {
    && t < |s.pcs| && s.pcs[t].Publishing? && s.pcs[t].path == q
    && (a.RenameSucceeds? || (a.RenameFails? && a.tookEffect))
  }

  /** The last effective rename onto path `q` before step `k`, since the process started. */
  ghost function LastRename(states: seq<State>, who: seq<nat>, what: seq<Action>, q: Path, k: nat): Option<Rename>
    requires |states| == |who| + 1 == |what| + 1 && k < |states|
  {
    if k == 0 || what[k - 1].Restart? then None
    else if RenamesAt(states[k - 1], who[k - 1], what[k - 1], q)
    then Some(Rename(states[k - 1].pcs[who[k - 1]].generation, what[k - 1].RenameSucceeds?))
    else LastRename(states, who, what, q, k - 1)
  }

  /** What the file holds, and that a reported rename is recorded or about to be. */
  ghost predicate Shows(s: State, q: Path, last: Option<Rename>)
    requires q < |s.paths|
  {
    var p := s.paths[q];
    match last
    case None => p.file.None?
    case Some(r) =>
      && p.file == Some(r.generation)
      && (r.reported ==> r.generation <= p.publishedGeneration || IsRenaming(s, q, r.generation))
  }

  predicate IsRenaming(s: State, q: Path, generation: nat)
    requires q < |s.paths|
  {
    var lock := s.paths[q].publishLock;
    lock.Some? && lock.value < |s.pcs| && s.pcs[lock.value] == Renamed(q, generation)
  }

  lemma StepShows(policy: Policy, s: State, t: nat, a: Action, n: State, q: Path, last: Option<Rename>)
    requires Inv(s) && Step(policy, s, t, a, n) && !a.Restart? && q < |s.paths| && Shows(s, q, last)
    ensures RenamesAt(s, t, a, q) ==> Shows(n, q, Some(Rename(s.pcs[t].generation, a.RenameSucceeds?)))
    ensures !RenamesAt(s, t, a, q) ==> Shows(n, q, last)
  {
    assert ThreadOk(s.paths[q], q, s.clock, t, s.pcs[t]);
    assert PathOk(s.paths[q], s.clock);
  }

  lemma {:induction false} RunShows(
    policy: Policy, states: seq<State>, who: seq<nat>, what: seq<Action>, q: Path, k: nat)
    requires Run(policy, states, who, what) && k < |states| && q < |states[k].paths|
    ensures Shows(states[k], q, LastRename(states, who, what, q, k))
  {
    if k == 0 {
      assert states[0].paths[q] == FRESH;
    } else {
      var s := states[k - 1];
      assert Step(policy, s, who[k - 1], what[k - 1], states[k]);
      RunKeepsInv(policy, states, who, what, k - 1);
      if !what[k - 1].Restart? {
        RunShows(policy, states, who, what, q, k - 1);
        StepShows(policy, s, who[k - 1], what[k - 1], states[k], q, LastRename(states, who, what, q, k - 1));
      }
    }
  }

  lemma RollbackStep(policy: Policy, s: State, t: nat, a: Action, n: State, q: Path, last: Option<Rename>)
    requires Inv(s) && Step(policy, s, t, a, n) && q < |s.paths| && Shows(s, q, last)
    ensures RollsBackAt(s, n, q) <==>
      && RenamesAt(s, t, a, q) && last.Some? && !last.value.reported
      && s.pcs[t].generation < last.value.generation
  {
    assert ThreadOk(s.paths[q], q, s.clock, t, s.pcs[t]);
    assert PathOk(s.paths[q], s.clock);
  }

  /** Whatever a failed rename leaves behind: step `k` rolls a path back exactly when it is an effective rename of
      some generation, and the last effective rename before it was of a newer one and reported an error. */
  lemma RollsBackExactlyAfterUnreportedRename(
    policy: Policy, states: seq<State>, who: seq<nat>, what: seq<Action>, q: Path, k: nat)
    requires Run(policy, states, who, what) && k < |who| && q < |states[k].paths|
    ensures RollsBackAt(states[k], states[k + 1], q) <==>
      var last := LastRename(states, who, what, q, k);
      && RenamesAt(states[k], who[k], what[k], q) && last.Some? && !last.value.reported
      && states[k].pcs[who[k]].generation < last.value.generation
  {
    RunKeepsInv(policy, states, who, what, k);
    RunShows(policy, states, who, what, q, k);
    assert Step(policy, states[k], who[k], what[k], states[k + 1]);
    RollbackStep(policy, states[k], who[k], what[k], states[k + 1], q, LastRename(states, who, what, q, k));
  }

  /** Published data is never replaced by older data exactly when a failed rename leaves the target alone. */
  lemma NoRollbackExactlyWhenRenameIsAtomic(policy: Policy)
    ensures NeverRollsBack(policy) <==> policy.allOrNothing
  {
    if policy.allOrNothing {
      forall states: seq<State>, who: seq<nat>, what: seq<Action>, k: nat
        | Run(policy, states, who, what) && k < |who|
        ensures !RollsBack(states[k], states[k + 1])
      {
        RunKeepsInv(policy, states, who, what, k);
        RunKeepsFiles(policy, states, who, what, k);
        NoRollbackStep(policy, states[k], who[k], what[k], states[k + 1]);
      }
    } else {
      RollbackHappens(policy);
    }
  }

  // ---------------------------------------------------------------------------------------------
  // The sections as one thread runs them
  // ---------------------------------------------------------------------------------------------

  datatype Outcome = Succeeds | Fails(tookEffect: bool)

  /** The actions of one job from the publication check to its return. */
  function Publication(p: PathState, t: nat, path: Path, generation: nat, outcome: Outcome): (PathState, Pc) {
    var job := Job(path, generation);
    var p1, pc1 := Effect(p, job, t, EnterPublication), Next(p, 0, job, EnterPublication);
    if pc1.Returned? then (p1, pc1)
    else match outcome
      case Fails(tookEffect) => (Effect(p1, pc1, t, RenameFails(tookEffect)), Next(p1, 0, pc1, RenameFails(tookEffect)))
      case Succeeds =>
        var p2, pc2 := Effect(p1, pc1, t, RenameSucceeds), Next(p1, 0, pc1, RenameSucceeds);
        (Effect(p2, pc2, t, RecordPublished), Next(p2, 0, pc2, RecordPublished))
  }

  /** Per-path save state, with the generation the target file holds. */
  class PersistPathState {
    var nextGeneration: nat
    var publishedGeneration: nat
    var file: Option<nat>

    constructor ()
      ensures Holds(FRESH)
    {
      nextGeneration, publishedGeneration, file := 0, 0, None;
    }

    /** The object holds what the transition system knows of the path. */
    ghost predicate Holds(p: PathState)
      reads this
    {
      nextGeneration == p.nextGeneration && publishedGeneration == p.publishedGeneration && file == p.file
    }

    /** Does what the action does: the job gets a number no capture of this path had before. */
    method AllocateGeneration(ghost p: PathState, ghost pc: Pc, ghost t: nat, ghost clock: nat)
      returns (generation: nat)
      requires Holds(p) && CapturesInOrder(p, clock) && pc.ReadBoth?
      modifies `nextGeneration
      ensures Holds(Effect(p, pc, t, Allocate)) && Next(p, clock, pc, Allocate) == Job(pc.path, generation)
      ensures forall c | c in p.captures :: c.generation < generation
    {
      nextGeneration := nextGeneration + 1;
      generation := nextGeneration;
    }

    /** The publication section does what the job's actions do one after another, and never takes the recorded
        generation back. */
    method PublishSection(generation: nat, outcome: Outcome, ghost p: PathState, ghost t: nat, ghost path: Path)
      returns (ok: bool)
      requires Holds(p)
      modifies `publishedGeneration, `file
      ensures Holds(Publication(p, t, path, generation, outcome).0)
      ensures Publication(p, t, path, generation, outcome).1 == Returned(path, generation, ok)
      ensures ok <==> generation <= p.publishedGeneration || outcome.Succeeds?
      ensures p.publishedGeneration <= publishedGeneration && (ok ==> generation <= publishedGeneration)
    {
      if generation <= publishedGeneration {
        return true;
      }
      match outcome {
        case Fails(tookEffect) =>
          if tookEffect { file := Some(generation); }
          return false;
        case Succeeds =>
          file := Some(generation);
      }
      publishedGeneration := generation;
      ok := true;
    }
  }
}
