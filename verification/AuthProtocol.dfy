/**
 Logins of any number of processes and registry edits by command-line tools, interleaved.  One action is one
 access to shared state: the registry file, the path lock, a process's user list or its success cache.
 */
module AuthProtocol {
  import opened Text
  import opened Auth

  datatype Proc = Proc(users: Registry, guard: Option<nat>, cache: Cache, secret: nat)

  datatype Login = Login(proc: nat, name: string, password: string)

  datatype Pc =
    | Idle
    | Checking(login: Login, hash: string)
    | Verifying(login: Login, hash: string)
    | Verified(login: Login, hash: string)
    | Hashed(login: Login, newHash: string)
    | Locked(login: Login, newHash: string)
    | Guarded(login: Login, newHash: string)
    | Loaded(login: Login, newHash: string, current: Registry)
    | Stored(login: Login, newHash: string, current: Registry)
    | Committed(login: Login, newHash: string)
    | Accepted(login: Login, hash: string, firstUse: bool)
    | Refused(login: Login)
    | EditLocked
    | EditLoaded(current: Registry)

  /** A replacement of the registry file. */
  datatype Edit = FirstUse(name: string, hash: string) | Tool(change: Registry -> Registry)

  /** `initial` and `edits` are history: the registry the run began with and every replacement since. */
  datatype State = State(
    disk: Registry, lock: Option<nat>, procs: seq<Proc>, pcs: seq<Pc>, initial: Registry, edits: seq<Edit>)

  /** `allOrNothing`: a save that reports an error has not replaced the file. */
  datatype Policy = Policy(crypto: Crypto, allOrNothing: bool)

  datatype Action =
    | Begin(login: Login, salt: nat, hashingFails: bool)
    | LookUpCache
    | RunArgon
    | PublishCache
    | TakeLock
    | LockFails
    | TakeGuard
    | Load
    | LoadFails
    | Examine
    | SaveSucceeds
    | SaveFails(tookEffect: bool)
    | Commit
    | PublishFirstUse
    | Finish
    | TakeEditLock
    | LoadForEdit
    | SaveEdit(change: Registry -> Registry)
    | AbandonEdit
    | Restart(proc: nat, secret: nat)

  function Apply(users: Registry, e: Edit): Registry {
    match e
    case FirstUse(name, hash) => SetHash(users, name, hash)
    case Tool(change) => change(users)
  }

  function ApplyAll(users: Registry, es: seq<Edit>): Registry {
    if es == [] then users else Apply(ApplyAll(users, es[..|es| - 1]), es[|es| - 1])
  }

  predicate HoldsLock(pc: Pc) {
    pc.Locked? || pc.Guarded? || pc.Loaded? || pc.Stored? || pc.EditLocked? || pc.EditLoaded?
  }

  predicate HoldsGuard(pc: Pc) {
    pc.Guarded? || pc.Loaded? || pc.Stored?
  }

  predicate HasLogin(pc: Pc) {
    !pc.Idle? && !pc.EditLocked? && !pc.EditLoaded?
  }

  predicate Of(pc: Pc, proc: nat) {
    HasLogin(pc) && pc.login.proc == proc
  }

  predicate Enabled(policy: Policy, s: State, t: nat, a: Action) {
    && t < |s.pcs|
    && var pc := s.pcs[t];
    && (HasLogin(pc) ==> pc.login.proc < |s.procs|)
    && match a
       case Begin(login, _, _) => pc.Idle? && login.proc < |s.procs| && s.procs[login.proc].guard.None?
       case LookUpCache => pc.Checking?
       case RunArgon => pc.Verifying?
       case PublishCache => pc.Verified?
       case TakeLock => pc.Hashed? && s.lock.None?
       case LockFails => pc.Hashed?
       case TakeGuard => pc.Locked? && s.procs[pc.login.proc].guard.None?
       case Load => pc.Guarded?
       case LoadFails => pc.Guarded?
       case Examine => pc.Loaded? && !StandingOf(pc.current, pc.login.name).Claimable?
       case SaveSucceeds => pc.Loaded? && StandingOf(pc.current, pc.login.name).Claimable?
       case SaveFails(tookEffect) =>
         pc.Loaded? && StandingOf(pc.current, pc.login.name).Claimable? && (tookEffect ==> !policy.allOrNothing)
       case Commit => pc.Stored?
       case PublishFirstUse => pc.Committed?
       case Finish => pc.Accepted? || pc.Refused?
       case TakeEditLock => pc.Idle? && s.lock.None?
       case LoadForEdit => pc.EditLocked?
       case SaveEdit(_) => pc.EditLoaded?
       case AbandonEdit => pc.EditLocked? || pc.EditLoaded?
       case Restart(proc, _) => proc < |s.procs|
  }

  /** The program counter after a step; a restart ends every login of its process. */
  function Next(c: Crypto, s: State, pc: Pc, a: Action): Pc
    requires HasLogin(pc) ==> pc.login.proc < |s.procs|
    requires a.Begin? ==> a.login.proc < |s.procs|
  {
    match a
    case Begin(login, salt, hashingFails) =>
      (match StandingOf(s.procs[login.proc].users, login.name)
       case Gone => Refused(login)
       case Lost(hash) => Checking(login, hash)
       case Claimable =>
         if login.password == "" || hashingFails then Refused(login)
         else Hashed(login, c.compute(login.password, salt)))
    case LookUpCache =>
      if !pc.Checking? then pc
      else if CacheHit(c, s.procs[pc.login.proc], pc.login, pc.hash) then Accepted(pc.login, pc.hash, false)
      else Verifying(pc.login, pc.hash)
    case RunArgon =>
      if !pc.Verifying? then pc
      else if c.verify(pc.hash, pc.login.password) then Verified(pc.login, pc.hash) else Refused(pc.login)
    case PublishCache => if pc.Verified? then Accepted(pc.login, pc.hash, false) else pc
    case TakeLock => if pc.Hashed? then Locked(pc.login, pc.newHash) else pc
    case LockFails => if pc.Hashed? then Refused(pc.login) else pc
    case TakeGuard => if pc.Locked? then Guarded(pc.login, pc.newHash) else pc
    case Load => if pc.Guarded? then Loaded(pc.login, pc.newHash, s.disk) else pc
    case LoadFails => if pc.Guarded? then Refused(pc.login) else pc
    case Examine =>
      if !pc.Loaded? then pc
      else (match StandingOf(pc.current, pc.login.name)
            case Lost(hash) => Checking(pc.login, hash)
            case _ => Refused(pc.login))
    case SaveSucceeds =>
      if pc.Loaded? then Stored(pc.login, pc.newHash, SetHash(pc.current, pc.login.name, pc.newHash)) else pc
    case SaveFails(_) => if pc.Loaded? then Refused(pc.login) else pc
    case Commit => if pc.Stored? then Committed(pc.login, pc.newHash) else pc
    case PublishFirstUse => if pc.Committed? then Accepted(pc.login, pc.newHash, true) else pc
    case TakeEditLock => EditLocked
    case LoadForEdit => EditLoaded(s.disk)
    case Restart(_, _) => pc
    case _ => Idle
  }

  predicate CacheHit(c: Crypto, p: Proc, login: Login, hash: string) {
    Hits(c, p.secret, p.cache, login.name, login.password, hash)
  }

  /** What a step does to the process its login belongs to. */
  function ProcAfter(c: Crypto, p: Proc, t: nat, pc: Pc, a: Action): Proc {
    match a
    case PublishCache =>
      if pc.Verified? then p.(cache := Publish(c, p, pc.login, pc.hash)) else p
    case PublishFirstUse =>
      if pc.Committed? then p.(cache := Publish(c, p, pc.login, pc.newHash)) else p
    case TakeGuard => p.(guard := Some(t))
    case LoadFails => p.(guard := None)
    case Examine =>
      if pc.Loaded? && StandingOf(pc.current, pc.login.name).Lost?
      then p.(guard := None, users := pc.current) else p.(guard := None)
    case SaveFails(_) => p.(guard := None)
    case Commit => if pc.Stored? then p.(guard := None, users := pc.current) else p
    case _ => p
  }

  function Publish(c: Crypto, p: Proc, login: Login, hash: string): Cache {
    p.cache[login.name := Entry(hash, c.hmac(p.secret, login.name, login.password))]
  }

  function LockAfter(lock: Option<nat>, t: nat, a: Action): Option<nat> {
    if a.TakeLock? || a.TakeEditLock? then Some(t)
    else if a.LoadFails? || a.Examine? || a.SaveFails? || a.Commit? || a.SaveEdit? || a.AbandonEdit? then None
    else lock
  }

  /** The replacement of the file a step makes, if any. */
  function EditOf(pc: Pc, a: Action): seq<Edit> {
    match a
    case SaveSucceeds => if pc.Loaded? then [FirstUse(pc.login.name, pc.newHash)] else []
    case SaveFails(tookEffect) => if pc.Loaded? && tookEffect then [FirstUse(pc.login.name, pc.newHash)] else []
    case SaveEdit(change) => [Tool(change)]
    case _ => []
  }

  /** A save writes what was loaded, edited; whether the file changed meanwhile is a theorem, not an
      assumption. */
  function DiskAfter(disk: Registry, pc: Pc, a: Action): Registry {
    match a
    case SaveSucceeds => if pc.Loaded? then SetHash(pc.current, pc.login.name, pc.newHash) else disk
    case SaveFails(tookEffect) =>
      if pc.Loaded? && tookEffect then SetHash(pc.current, pc.login.name, pc.newHash) else disk
    case SaveEdit(change) => if pc.EditLoaded? then change(pc.current) else disk
    case _ => disk
  }

  function DoStep(c: Crypto, s: State, t: nat, a: Action): State
    requires t < |s.pcs| && (HasLogin(s.pcs[t]) ==> s.pcs[t].login.proc < |s.procs|)
    requires a.Begin? ==> a.login.proc < |s.procs|
  {
    var pc := s.pcs[t];
    s.(disk := DiskAfter(s.disk, pc, a), lock := LockAfter(s.lock, t, a), edits := s.edits + EditOf(pc, a),
       procs := if HasLogin(pc) then s.procs[pc.login.proc := ProcAfter(c, s.procs[pc.login.proc], t, pc, a)]
                else s.procs,
       pcs := s.pcs[t := Next(c, s, pc, a)])
  }

  /** The kernel drops the locks of a process that dies; the new one reads the registry and starts a new
      cache under a new secret. */
  function DoRestart(s: State, proc: nat, secret: nat): State
    requires proc < |s.procs|
  {
    s.(lock := if s.lock.Some? && s.lock.value < |s.pcs| && Of(s.pcs[s.lock.value], proc) then None else s.lock,
       procs := s.procs[proc := Proc(s.disk, None, map[], secret)],
       pcs := seq(|s.pcs|, t requires 0 <= t < |s.pcs| => if Of(s.pcs[t], proc) then Idle else s.pcs[t]))
  }

  function Do(policy: Policy, s: State, t: nat, a: Action): State
    requires Enabled(policy, s, t, a)
  {
    if a.Restart? then DoRestart(s, a.proc, a.secret) else DoStep(policy.crypto, s, t, a)
  }

  ghost predicate Init(s: State) {
    && s.disk == s.initial && s.edits == [] && s.lock.None?
    && (forall p | 0 <= p < |s.procs| :: s.procs[p].guard.None? && s.procs[p].cache == map[])
    && (forall t | 0 <= t < |s.pcs| :: s.pcs[t].Idle?)
  }

  ghost predicate Run(policy: Policy, states: seq<State>, who: seq<nat>, what: seq<Action>) {
    && |states| == |who| + 1 == |what| + 1
    && Init(states[0])
    && forall k: nat | k < |who| :: StepAt(policy, states, who, what, k)
  }

  ghost predicate StepAt(policy: Policy, states: seq<State>, who: seq<nat>, what: seq<Action>, k: nat)
    requires k < |who| == |what| && |states| == |who| + 1
  {
    Enabled(policy, states[k], who[k], what[k]) && states[k + 1] == Do(policy, states[k], who[k], what[k])
  }

  // ---------------------------------------------------------------------------------------------
  // The invariant
  // ---------------------------------------------------------------------------------------------

  ghost predicate LockIsOwned(lock: Option<nat>, pcs: seq<Pc>) {
    && (lock.Some? ==> lock.value < |pcs|)
    && forall t: nat | t < |pcs| :: HoldsLock(pcs[t]) <==> lock == Some(t)
  }

  ghost predicate GuardsAreOwned(procs: seq<Proc>, pcs: seq<Pc>) {
    && (forall t: nat | t < |pcs| && HasLogin(pcs[t]) :: pcs[t].login.proc < |procs|)
    && (forall p: nat | p < |procs| && procs[p].guard.Some? ::
          var g := procs[p].guard.value; g < |pcs| && HoldsGuard(pcs[g]) && Of(pcs[g], p))
    && (forall t: nat | t < |pcs| && HoldsGuard(pcs[t]) :: procs[pcs[t].login.proc].guard == Some(t))
  }

  /** A hash adopted on first use is one the password verifies against. */
  predicate Adopts(c: Crypto, login: Login, hash: string) {
    hash != INIT && c.verify(hash, login.password)
  }

  /** What each program counter promises about the file, the history and the password. */
  ghost predicate PcOk(c: Crypto, disk: Registry, edits: seq<Edit>, pc: Pc) {
    match pc
    case Verified(login, hash) => c.verify(hash, login.password)
    case Hashed(login, newHash) => Adopts(c, login, newHash)
    case Locked(login, newHash) => Adopts(c, login, newHash)
    case Guarded(login, newHash) => Adopts(c, login, newHash)
    case Loaded(login, newHash, current) => Adopts(c, login, newHash) && current == disk
    case Stored(login, newHash, current) =>
      Adopts(c, login, newHash) && current == disk && FirstUse(login.name, newHash) in edits
    case Committed(login, newHash) => Adopts(c, login, newHash) && FirstUse(login.name, newHash) in edits
    case Accepted(login, hash, firstUse) =>
      c.verify(hash, login.password) && (firstUse ==> FirstUse(login.name, hash) in edits)
    case EditLoaded(current) => current == disk
    case _ => true
  }

  ghost predicate PcsOk(c: Crypto, s: State) {
    forall t: nat | t < |s.pcs| :: PcOk(c, s.disk, s.edits, s.pcs[t])
  }

  ghost predicate CachesOk(c: Crypto, procs: seq<Proc>) {
    forall p: nat | p < |procs| :: CacheOk(c, procs[p].secret, procs[p].cache)
  }

  ghost predicate DiskIsTheEdits(s: State) {
    s.disk == ApplyAll(s.initial, s.edits)
  }

  ghost predicate Inv(c: Crypto, s: State) {
    && LockIsOwned(s.lock, s.pcs) && GuardsAreOwned(s.procs, s.pcs)
    && PcsOk(c, s) && CachesOk(c, s.procs) && DiskIsTheEdits(s)
  }

  // -- a restart

  lemma RestartKeepsInv(c: Crypto, s: State, proc: nat, secret: nat)
    requires Inv(c, s) && proc < |s.procs|
    ensures Inv(c, DoRestart(s, proc, secret))
  {
  }

  // -- a step of one thread

  /** A lock moves between nobody and the thread that steps. */
  predicate Moves(before: Option<nat>, after: Option<nat>, t: nat) {
    after == before || (before.None? && after == Some(t)) || (before == Some(t) && after.None?)
  }

  lemma LockMoves(policy: Policy, s: State, t: nat, a: Action)
    requires LockIsOwned(s.lock, s.pcs) && Enabled(policy, s, t, a) && !a.Restart?
    ensures Moves(s.lock, LockAfter(s.lock, t, a), t)
    ensures HoldsLock(Next(policy.crypto, s, s.pcs[t], a)) <==> LockAfter(s.lock, t, a) == Some(t)
  {
    assert HoldsLock(s.pcs[t]) <==> s.lock == Some(t);
  }

  lemma LockMoved(lock: Option<nat>, after: Option<nat>, pcs: seq<Pc>, t: nat, pc: Pc)
    requires LockIsOwned(lock, pcs) && t < |pcs| && Moves(lock, after, t)
    requires HoldsLock(pc) <==> after == Some(t)
    ensures LockIsOwned(after, pcs[t := pc])
  {
  }

  lemma StepKeepsLock(policy: Policy, s: State, t: nat, a: Action)
    requires Inv(policy.crypto, s) && Enabled(policy, s, t, a) && !a.Restart?
    ensures LockIsOwned(Do(policy, s, t, a).lock, Do(policy, s, t, a).pcs)
  {
    LockMoves(policy, s, t, a);
    LockMoved(s.lock, LockAfter(s.lock, t, a), s.pcs, t, Next(policy.crypto, s, s.pcs[t], a));
  }

  lemma GuardMoves(policy: Policy, s: State, t: nat, a: Action)
    requires GuardsAreOwned(s.procs, s.pcs) && Enabled(policy, s, t, a) && !a.Restart? && HasLogin(s.pcs[t])
    ensures var pc, n := s.pcs[t], Next(policy.crypto, s, s.pcs[t], a);
      var p := s.procs[pc.login.proc];
      var q := ProcAfter(policy.crypto, p, t, pc, a);
      && Moves(p.guard, q.guard, t)
      && (HasLogin(n) ==> n.login.proc == pc.login.proc)
      && (HoldsGuard(n) <==> q.guard == Some(t))
  {
    var pc := s.pcs[t];
    assert HoldsGuard(pc) <==> s.procs[pc.login.proc].guard == Some(t);
  }

  lemma GuardMoved(procs: seq<Proc>, pcs: seq<Pc>, t: nat, p: nat, q: Proc, pc: Pc)
    requires GuardsAreOwned(procs, pcs) && t < |pcs| && Of(pcs[t], p) && p < |procs|
    requires Moves(procs[p].guard, q.guard, t) && (HasLogin(pc) ==> pc.login.proc == p)
    requires HoldsGuard(pc) <==> q.guard == Some(t)
    ensures GuardsAreOwned(procs[p := q], pcs[t := pc])
  {
  }

  lemma StepKeepsGuards(policy: Policy, s: State, t: nat, a: Action)
    requires Inv(policy.crypto, s) && Enabled(policy, s, t, a) && !a.Restart?
    ensures GuardsAreOwned(Do(policy, s, t, a).procs, Do(policy, s, t, a).pcs)
  {
    var pc, n := s.pcs[t], Next(policy.crypto, s, s.pcs[t], a);
    if HasLogin(pc) {
      var p := pc.login.proc;
      GuardMoves(policy, s, t, a);
      GuardMoved(s.procs, s.pcs, t, p, ProcAfter(policy.crypto, s.procs[p], t, pc, a), n);
    } else {
      NewLoginHoldsNothing(policy, s, t, a);
      GuardsWithout(s.procs, s.pcs, t, n);
    }
  }

  lemma NewLoginHoldsNothing(policy: Policy, s: State, t: nat, a: Action)
    requires Enabled(policy, s, t, a) && !a.Restart? && !HasLogin(s.pcs[t])
    ensures var n := Next(policy.crypto, s, s.pcs[t], a);
      !HoldsGuard(n) && (HasLogin(n) ==> n.login.proc < |s.procs|)
  {
  }

  lemma GuardsWithout(procs: seq<Proc>, pcs: seq<Pc>, t: nat, pc: Pc)
    requires GuardsAreOwned(procs, pcs) && t < |pcs| && !HasLogin(pcs[t])
    requires !HoldsGuard(pc) && (HasLogin(pc) ==> pc.login.proc < |procs|)
    ensures GuardsAreOwned(procs, pcs[t := pc])
  {
  }

  lemma StepKeepsCaches(policy: Policy, s: State, t: nat, a: Action)
    requires Inv(policy.crypto, s) && Enabled(policy, s, t, a) && !a.Restart?
    ensures CachesOk(policy.crypto, Do(policy, s, t, a).procs)
  {
    var pc := s.pcs[t];
    assert PcOk(policy.crypto, s.disk, s.edits, pc);
    if HasLogin(pc) {
      var p := s.procs[pc.login.proc];
      if a.PublishCache? {
        PublishKeepsCache(policy.crypto, p.secret, p.cache, pc.login.name, pc.login.password, pc.hash);
      } else if a.PublishFirstUse? {
        PublishKeepsCache(policy.crypto, p.secret, p.cache, pc.login.name, pc.login.password, pc.newHash);
      }
    }
  }

  /** Only the owner of the path lock replaces the file, and what it loaded is still there when it does. */
  lemma EditIsOfTheDisk(policy: Policy, s: State, t: nat, a: Action)
    requires Enabled(policy, s, t, a) && !a.Restart? && PcOk(policy.crypto, s.disk, s.edits, s.pcs[t])
    ensures |EditOf(s.pcs[t], a)| <= 1
    ensures DiskAfter(s.disk, s.pcs[t], a) ==
      if EditOf(s.pcs[t], a) == [] then s.disk else Apply(s.disk, EditOf(s.pcs[t], a)[0])
  {
  }

  lemma ApplyMore(users: Registry, es: seq<Edit>, more: seq<Edit>)
    requires |more| <= 1
    ensures ApplyAll(users, es + more) ==
      if more == [] then ApplyAll(users, es) else Apply(ApplyAll(users, es), more[0])
  {
    if more == [] { assert es + more == es; } else { assert (es + more)[..|es|] == es; }
  }

  lemma StepKeepsHistory(policy: Policy, s: State, t: nat, a: Action)
    requires Inv(policy.crypto, s) && Enabled(policy, s, t, a) && !a.Restart?
    ensures DiskIsTheEdits(Do(policy, s, t, a))
  {
    assert PcOk(policy.crypto, s.disk, s.edits, s.pcs[t]);
    EditIsOfTheDisk(policy, s, t, a);
    ApplyMore(s.initial, s.edits, EditOf(s.pcs[t], a));
  }

  lemma StepKeepsActor(policy: Policy, s: State, t: nat, a: Action)
    requires Sound(policy.crypto) && Inv(policy.crypto, s) && Enabled(policy, s, t, a) && !a.Restart?
    ensures PcOk(policy.crypto, Do(policy, s, t, a).disk, Do(policy, s, t, a).edits, Do(policy, s, t, a).pcs[t])
  {
    var pc := s.pcs[t];
    assert PcOk(policy.crypto, s.disk, s.edits, pc);
    if a.LookUpCache? {
      var p := s.procs[pc.login.proc];
      assert CacheOk(policy.crypto, p.secret, p.cache);
      if CacheHit(policy.crypto, p, pc.login, pc.hash) {
        HitVerifies(policy.crypto, p.secret, p.cache, pc.login.name, pc.login.password, pc.hash);
      }
    }
  }

  lemma StepKeepsOthers(policy: Policy, s: State, t: nat, a: Action, u: nat)
    requires Inv(policy.crypto, s) && Enabled(policy, s, t, a) && !a.Restart? && u < |s.pcs| && u != t
    ensures PcOk(policy.crypto, Do(policy, s, t, a).disk, Do(policy, s, t, a).edits, s.pcs[u])
  {
    assert PcOk(policy.crypto, s.disk, s.edits, s.pcs[u]);
    assert HoldsLock(s.pcs[t]) && HoldsLock(s.pcs[u]) ==> t == u;
  }

  lemma StepKeepsInv(policy: Policy, s: State, t: nat, a: Action)
    requires Sound(policy.crypto) && Inv(policy.crypto, s) && Enabled(policy, s, t, a)
    ensures Inv(policy.crypto, Do(policy, s, t, a))
  {
    if a.Restart? {
      RestartKeepsInv(policy.crypto, s, a.proc, a.secret);
    } else {
      StepKeepsLock(policy, s, t, a);
      StepKeepsGuards(policy, s, t, a);
      StepKeepsCaches(policy, s, t, a);
      StepKeepsHistory(policy, s, t, a);
      StepKeepsActor(policy, s, t, a);
      forall u: nat | u < |s.pcs| && u != t
        ensures PcOk(policy.crypto, Do(policy, s, t, a).disk, Do(policy, s, t, a).edits, s.pcs[u])
      {
        StepKeepsOthers(policy, s, t, a, u);
      }
    }
  }

  lemma {:induction false} RunKeepsInv(policy: Policy, states: seq<State>, who: seq<nat>, what: seq<Action>, k: nat)
    requires Sound(policy.crypto) && Run(policy, states, who, what) && k < |states|
    ensures Inv(policy.crypto, states[k])
  {
    if k > 0 {
      RunKeepsInv(policy, states, who, what, k - 1);
      assert StepAt(policy, states, who, what, k - 1);
      StepKeepsInv(policy, states[k - 1], who[k - 1], what[k - 1]);
    }
  }

  // ---------------------------------------------------------------------------------------------
  // What follows for every run
  // ---------------------------------------------------------------------------------------------

  /** Whatever the interleaving, the registry on disk is the initial one with the edits applied one after
      another in the order the path lock let them in: no edit is lost or overwritten by a stale snapshot. */
  lemma RegistryIsSerial(policy: Policy, states: seq<State>, who: seq<nat>, what: seq<Action>, k: nat)
    requires Sound(policy.crypto) && Run(policy, states, who, what) && k < |states|
    ensures states[k].disk == ApplyAll(states[k].initial, states[k].edits)
  {
    RunKeepsInv(policy, states, who, what, k);
  }

  /** A first-use step changes nothing on disk but the hash of one account, which is enabled and `init` on disk
      at that very moment. */
  lemma FirstUseClaimsOneAccount(policy: Policy, states: seq<State>, who: seq<nat>, what: seq<Action>, k: nat)
    requires Sound(policy.crypto) && Run(policy, states, who, what) && k < |who|
    requires what[k].SaveSucceeds? || (what[k].SaveFails? && what[k].tookEffect)
    ensures who[k] < |states[k].pcs| && states[k].pcs[who[k]].Loaded?
    ensures var pc, before := states[k].pcs[who[k]], states[k].disk;
      var found := Find(before, pc.login.name);
      && found.Some? && before[found.value].enabled && before[found.value].hash == INIT
      && states[k + 1].disk == before[found.value := before[found.value].(hash := pc.newHash)]
      && Adopts(policy.crypto, pc.login, pc.newHash)
  {
    RunKeepsInv(policy, states, who, what, k);
    assert StepAt(policy, states, who, what, k);
    assert PcOk(policy.crypto, states[k].disk, states[k].edits, states[k].pcs[who[k]]);
  }

  /** A login is accepted only with a password that verifies against the hash it was checked against; a first
      use is on disk before it is accepted. */
  lemma AcceptedMeansVerified(policy: Policy, states: seq<State>, who: seq<nat>, what: seq<Action>, k: nat, t: nat)
    requires Sound(policy.crypto) && Run(policy, states, who, what) && k < |states|
    requires t < |states[k].pcs| && states[k].pcs[t].Accepted?
    ensures var pc := states[k].pcs[t];
      && policy.crypto.verify(pc.hash, pc.login.password)
      && (pc.firstUse ==> FirstUse(pc.login.name, pc.hash) in states[k].edits)
  {
    RunKeepsInv(policy, states, who, what, k);
    assert PcOk(policy.crypto, states[k].disk, states[k].edits, states[k].pcs[t]);
  }

  /** In every reachable state of every process, including after rotations and late publishes, a cache hit
      against a hash agrees with Argon2. */
  lemma CacheAgreesWithArgon(
    policy: Policy, states: seq<State>, who: seq<nat>, what: seq<Action>, k: nat, login: Login, hash: string)
    requires Sound(policy.crypto) && Run(policy, states, who, what) && k < |states|
    requires login.proc < |states[k].procs| && CacheHit(policy.crypto, states[k].procs[login.proc], login, hash)
    ensures policy.crypto.verify(hash, login.password)
  {
    RunKeepsInv(policy, states, who, what, k);
    var p := states[k].procs[login.proc];
    assert CacheOk(policy.crypto, p.secret, p.cache);
    HitVerifies(policy.crypto, p.secret, p.cache, login.name, login.password, hash);
  }

  // ---------------------------------------------------------------------------------------------
  // First use happens once
  // ---------------------------------------------------------------------------------------------

  /** Every first use in the history claimed an account that the edits before it had left claimable. */
  ghost predicate ClaimsAreFirst(initial: Registry, edits: seq<Edit>) {
    forall j | 0 <= j < |edits| && edits[j].FirstUse? ::
      edits[j].hash != INIT && StandingOf(ApplyAll(initial, edits[..j]), edits[j].name).Claimable?
  }

  lemma ClaimsMore(initial: Registry, edits: seq<Edit>, e: Edit)
    requires ClaimsAreFirst(initial, edits)
    requires e.FirstUse? ==> e.hash != INIT && StandingOf(ApplyAll(initial, edits), e.name).Claimable?
    ensures ClaimsAreFirst(initial, edits + [e])
  {
    var more := edits + [e];
    forall j | 0 <= j < |more| && more[j].FirstUse?
      ensures more[j].hash != INIT && StandingOf(ApplyAll(initial, more[..j]), more[j].name).Claimable?
    {
      if j < |edits| { assert more[..j] == edits[..j]; } else { assert more[..j] == edits; }
    }
  }

  /** What a step appends to the history. */
  lemma StepEdits(policy: Policy, s: State, t: nat, a: Action)
    requires Enabled(policy, s, t, a) && PcOk(policy.crypto, s.disk, s.edits, s.pcs[t])
    ensures Do(policy, s, t, a).initial == s.initial
    ensures var more := if a.Restart? then [] else EditOf(s.pcs[t], a);
      && Do(policy, s, t, a).edits == s.edits + more && |more| <= 1
      && (more != [] && more[0].FirstUse? ==>
            more[0].hash != INIT && StandingOf(s.disk, more[0].name).Claimable?)
  {
  }

  lemma {:induction false} RunClaimsAreFirst(
    policy: Policy, states: seq<State>, who: seq<nat>, what: seq<Action>, k: nat)
    requires Sound(policy.crypto) && Run(policy, states, who, what) && k < |states|
    ensures ClaimsAreFirst(states[k].initial, states[k].edits)
  {
    if k > 0 {
      var s := states[k - 1];
      RunClaimsAreFirst(policy, states, who, what, k - 1);
      RunKeepsInv(policy, states, who, what, k - 1);
      assert StepAt(policy, states, who, what, k - 1);
      StepEdits(policy, s, who[k - 1], what[k - 1]);
      if states[k].edits != s.edits {
        var e := states[k].edits[|s.edits|];
        assert states[k].edits == s.edits + [e];
        ClaimsMore(s.initial, s.edits, e);
      }
    }
  }

  /** Once claimed, an account stays claimed through any further first uses. */
  lemma FirstUseKeepsClaimed(users: Registry, e: Edit, name: string)
    requires e.FirstUse? && e.hash != INIT
    requires StandingOf(users, name).Lost? || (e.name == name && StandingOf(users, name).Claimable?)
    ensures StandingOf(Apply(users, e), name).Lost?
  {
    if e.name == name { SetHashStanding(users, name, e.hash); } else { SetHashElsewhere(users, e.name, e.hash, name); }
  }

  lemma {:induction false} ClaimedStaysClaimed(initial: Registry, edits: seq<Edit>, i: nat, j: nat, name: string)
    requires i < j <= |edits| && forall k | i <= k < j :: edits[k].FirstUse? && edits[k].hash != INIT
    requires edits[i].name == name && StandingOf(ApplyAll(initial, edits[..i]), name).Claimable?
    ensures StandingOf(ApplyAll(initial, edits[..j]), name).Lost?
    decreases j
  {
    if i < j - 1 { ClaimedStaysClaimed(initial, edits, i, j - 1, name); }
    ApplyNext(initial, edits, j - 1);
    FirstUseKeepsClaimed(ApplyAll(initial, edits[..j - 1]), edits[j - 1], name);
  }

  lemma ApplyNext(initial: Registry, edits: seq<Edit>, j: nat)
    requires j < |edits|
    ensures ApplyAll(initial, edits[..j + 1]) == Apply(ApplyAll(initial, edits[..j]), edits[j])
  {
    assert edits[..j + 1][..j] == edits[..j];
  }

  lemma SetHashElsewhere(users: Registry, name: string, hash: string, other: string)
    requires other != name
    ensures StandingOf(SetHash(users, name, hash), other) == StandingOf(users, other)
  {
    var after := SetHash(users, name, hash);
    assert |after| == |users| && forall i | 0 <= i < |users| :: after[i].name == users[i].name;
    var f, g := Find(users, other), Find(after, other);
    if f.Some? { assert after[f.value].name == other; }
    if g.Some? { assert users[g.value].name == other; }
    assert f == g;
  }

  /** The first connection wins: an account is never claimed twice in a row.  Between two first uses of one name
      some tool has edited the registry. */
  lemma FirstConnectionWins(
    policy: Policy, states: seq<State>, who: seq<nat>, what: seq<Action>, k: nat, i: nat, j: nat)
    requires Sound(policy.crypto) && Run(policy, states, who, what) && k < |states|
    requires i < j < |states[k].edits| && states[k].edits[i].FirstUse? && states[k].edits[j].FirstUse?
    requires states[k].edits[i].name == states[k].edits[j].name
    ensures exists m :: i < m < j && states[k].edits[m].Tool?
  {
    RunClaimsAreFirst(policy, states, who, what, k);
    if forall m | i < m < j :: states[k].edits[m].FirstUse? {
      ClaimedStaysClaimed(states[k].initial, states[k].edits, i, j, states[k].edits[i].name);
      assert false;
    }
  }

  // ---------------------------------------------------------------------------------------------
  // Refused logins, from beginning to end
  // ---------------------------------------------------------------------------------------------

  /** Thread `t` takes step `j` of its own. */
  predicate Acts(who: seq<nat>, what: seq<Action>, j: nat, t: nat) {
    j < |who| == |what| && who[j] == t && !what[j].Restart?
  }

  /** A login that thread `t` begins at step `i` and has not left by step `r`. */
  ghost predicate LoginSpan(who: seq<nat>, what: seq<Action>, i: nat, r: nat, t: nat) {
    && i <= r < |who| == |what| && who[i] == t && what[i].Begin?
    && forall m | i < m <= r ::
         !(who[m] == t && what[m].Finish?) && !(what[m].Restart? && what[m].proc == what[i].login.proc)
  }

  /** Still deciding: before a save has succeeded and before an answer. */
  predicate Undecided(pc: Pc) {
    || pc.Checking? || pc.Verifying? || pc.Verified? || pc.Hashed?
    || pc.Locked? || pc.Guarded? || pc.Loaded?
  }

  /** A step that replaces no file, writes no cache and commits nothing to memory. */
  predicate Harmless(pc: Pc, a: Action) {
    EditOf(pc, a) == [] && !a.PublishCache? && !a.PublishFirstUse? && !a.Commit?
  }

  ghost predicate HarmlessSoFar(states: seq<State>, who: seq<nat>, what: seq<Action>, i: nat, m: nat, t: nat)
    requires |states| == |who| + 1 == |what| + 1 && m < |who|
  {
    forall j: nat | i <= j <= m && Acts(who, what, j, t) ::
      t < |states[j].pcs| && Harmless(states[j].pcs[t], what[j])
  }

  lemma StepWhileUndecided(policy: Policy, s: State, u: nat, a: Action, t: nat, login: Login)
    requires Enabled(policy, s, u, a) && t < |s.pcs| && HasLogin(s.pcs[t]) && s.pcs[t].login == login
    requires !(u == t && a.Finish?) && !(a.Restart? && a.proc == login.proc)
    ensures var n := Do(policy, s, u, a);
      && t < |n.pcs| && HasLogin(n.pcs[t]) && n.pcs[t].login == login
      && (u != t || a.Restart? ==> n.pcs[t] == s.pcs[t])
      && (u == t && !a.Restart? && Undecided(n.pcs[t]) ==> Undecided(s.pcs[t]) && Harmless(s.pcs[t], a))
  {
  }

  lemma RefusingStep(policy: Policy, s: State, t: nat, a: Action, n: State)
    requires Enabled(policy, s, t, a) && n == Do(policy, s, t, a) && HasLogin(s.pcs[t])
    requires Refuses(s, n, t, t)
    ensures Undecided(s.pcs[t]) && (Harmless(s.pcs[t], a) || a == SaveFails(true))
  {
  }

  lemma BeginIsHarmless(policy: Policy, s: State, t: nat, a: Action)
    requires Enabled(policy, s, t, a) && a.Begin?
    ensures var n := Do(policy, s, t, a);
      HasLogin(n.pcs[t]) && n.pcs[t].login == a.login && Harmless(s.pcs[t], a)
  {
  }

  lemma HarmlessMore(states: seq<State>, who: seq<nat>, what: seq<Action>, i: nat, m: nat, t: nat)
    requires |states| == |who| + 1 == |what| + 1 && i < m < |who|
    requires HarmlessSoFar(states, who, what, i, m - 1, t)
    requires Acts(who, what, m, t) ==> t < |states[m].pcs| && Harmless(states[m].pcs[t], what[m])
    ensures HarmlessSoFar(states, who, what, i, m, t)
  {
  }

  lemma {:induction false} UndecidedIsHarmless(
    policy: Policy, states: seq<State>, who: seq<nat>, what: seq<Action>, i: nat, m: nat, t: nat)
    requires Run(policy, states, who, what) && LoginSpan(who, what, i, m, t)
    ensures t < |states[m + 1].pcs| && HasLogin(states[m + 1].pcs[t]) && states[m + 1].pcs[t].login == what[i].login
    ensures Undecided(states[m + 1].pcs[t]) ==> HarmlessSoFar(states, who, what, i, m, t)
    decreases m
  {
    assert StepAt(policy, states, who, what, m);
    if i == m {
      BeginIsHarmless(policy, states[m], t, what[m]);
    } else {
      UndecidedIsHarmless(policy, states, who, what, i, m - 1, t);
      StepWhileUndecided(policy, states[m], who[m], what[m], t, what[i].login);
      if Undecided(states[m + 1].pcs[t]) { HarmlessMore(states, who, what, i, m, t); }
    }
  }

  /** What one step of a refused login did to shared state: nothing to the cache; the file only by a save that
      reported failure; memory only where it synced with the registry after losing the race. */
  ghost predicate StepOfRefused(s: State, n: State, pc: Pc, a: Action, last: bool) {
    && (n.edits != s.edits <==> last && a == SaveFails(true))
    && (a != SaveFails(true) ==> n.disk == s.disk)
    && |n.procs| == |s.procs|
    && forall p: nat | p < |s.procs| ::
         && n.procs[p].cache == s.procs[p].cache
         && n.procs[p].users ==
              if a.Examine? && LostRace(pc) && pc.login.proc == p then s.disk else s.procs[p].users
  }

  predicate LostRace(pc: Pc) {
    pc.Loaded? && StandingOf(pc.current, pc.login.name).Lost?
  }

  lemma HarmlessEffect(policy: Policy, s: State, t: nat, a: Action, last: bool)
    requires Inv(policy.crypto, s) && Enabled(policy, s, t, a) && !a.Restart?
    requires Harmless(s.pcs[t], a) || (last && a == SaveFails(true))
    ensures StepOfRefused(s, Do(policy, s, t, a), s.pcs[t], a, last)
  {
    assert PcOk(policy.crypto, s.disk, s.edits, s.pcs[t]);
  }

  /** A refused login, step by step from its beginning to the refusal at step `r`: it replaced the registry file
      exactly if the refusing step is a save that took effect and reported an error, it never wrote a cache, and
      it changed its process's user list only by syncing it with the registry after losing the race. */
  lemma RefusedLoginStepByStep(
    policy: Policy, states: seq<State>, who: seq<nat>, what: seq<Action>, i: nat, r: nat, t: nat, j: nat)
    requires Sound(policy.crypto) && Run(policy, states, who, what) && LoginSpan(who, what, i, r, t)
    requires Refuses(states[r], states[r + 1], who[r], t)
    requires i <= j <= r && Acts(who, what, j, t)
    ensures t < |states[j].pcs| && StepOfRefused(states[j], states[j + 1], states[j].pcs[t], what[j], j == r)
  {
    assert StepAt(policy, states, who, what, j);
    HarmlessUntilRefused(policy, states, who, what, i, r, t, j);
    RunKeepsInv(policy, states, who, what, j);
    HarmlessEffect(policy, states[j], t, what[j], j == r);
  }

  /** A thread past a successful save never comes to a refusal, so everything before one is harmless. */
  lemma RefusalFollowsUndecided(
    policy: Policy, states: seq<State>, who: seq<nat>, what: seq<Action>, i: nat, r: nat, t: nat)
    requires Run(policy, states, who, what) && LoginSpan(who, what, i, r, t) && i < r
    requires Refuses(states[r], states[r + 1], who[r], t)
    ensures HarmlessSoFar(states, who, what, i, r - 1, t)
    ensures Harmless(states[r].pcs[t], what[r]) || what[r] == SaveFails(true)
  {
    var s, a, n := states[r], what[r], states[r + 1];
    UndecidedIsHarmless(policy, states, who, what, i, r - 1, t);
    assert Undecided(s.pcs[t]) && (Harmless(s.pcs[t], a) || a == SaveFails(true)) by {
      assert StepAt(policy, states, who, what, r);
      RefusingStep(policy, s, t, a, n);
    }
  }

  lemma HarmlessUntilRefused(
    policy: Policy, states: seq<State>, who: seq<nat>, what: seq<Action>, i: nat, r: nat, t: nat, j: nat)
    requires Run(policy, states, who, what) && LoginSpan(who, what, i, r, t)
    requires Refuses(states[r], states[r + 1], who[r], t)
    requires i <= j <= r && Acts(who, what, j, t)
    ensures t < |states[j].pcs| && (Harmless(states[j].pcs[t], what[j]) || (j == r && what[j] == SaveFails(true)))
  {
    if i == r {
      assert StepAt(policy, states, who, what, r);
      BeginIsHarmless(policy, states[r], t, what[r]);
    } else {
      RefusalFollowsUndecided(policy, states, who, what, i, r, t);
      assert j < r ==> HarmlessSoFar(states, who, what, i, r - 1, t);
    }
  }

  /** The step of thread `t` that refuses its login. */
  predicate Refuses(s: State, n: State, u: nat, t: nat) {
    u == t && t < |s.pcs| == |n.pcs| && !s.pcs[t].Refused? && n.pcs[t].Refused?
  }

  // ---------------------------------------------------------------------------------------------
  // Why a login is answered as it is
  // ---------------------------------------------------------------------------------------------

  /** The hash a login is being checked against, and the one it is about to adopt. */
  function CheckedHash(pc: Pc): Option<string> {
    match pc
    case Checking(_, hash) => Some(hash)
    case Verifying(_, hash) => Some(hash)
    case Verified(_, hash) => Some(hash)
    case Accepted(_, hash, firstUse) => if firstUse then None else Some(hash)
    case _ => None
  }

  function NewHash(pc: Pc): Option<string> {
    match pc
    case Hashed(_, newHash) => Some(newHash)
    case Locked(_, newHash) => Some(newHash)
    case Guarded(_, newHash) => Some(newHash)
    case Loaded(_, newHash, _) => Some(newHash)
    case Stored(_, newHash, _) => Some(newHash)
    case Committed(_, newHash) => Some(newHash)
    case Accepted(_, hash, firstUse) => if firstUse then Some(hash) else None
    case _ => None
  }

  predicate HasSaved(pc: Pc) {
    pc.Stored? || pc.Committed? || (pc.Accepted? && pc.firstUse)
  }

  /** No enabled account of that name. */
  ghost predicate NoAccount(users: Registry, name: string) {
    forall hash :: !HasHash(users, name, hash)
  }

  /** How the answer to a login begins: with what the process's own user list shows. */
  lemma BeginDecides(policy: Policy, s: State, t: nat, a: Action)
    requires Enabled(policy, s, t, a) && a.Begin?
    ensures var pc, shown, name := Do(policy, s, t, a).pcs[t], s.procs[a.login.proc].users, a.login.name;
      && (pc.Refused? ==>
            || NoAccount(shown, name)
            || (HasHash(shown, name, "init") && (a.login.password == "" || a.hashingFails)))
      && (CheckedHash(pc).Some? ==> HasHash(shown, name, CheckedHash(pc).value) && CheckedHash(pc).value != "init")
      && (NewHash(pc).Some? ==>
            && HasHash(shown, name, "init") && a.login.password != "" && !a.hashingFails
            && NewHash(pc).value == policy.crypto.compute(a.login.password, a.salt))
      && !HasSaved(pc)
  {
    StandingIs(s.procs[a.login.proc].users, a.login.name);
  }

  /** How it goes on.  A login changes the hash it is checked against only where the registry file shows it
      that hash, and saves only where the file still shows `init`. */
  ghost predicate Decides(c: Crypto, disk: Registry, was: Pc, a: Action, pc: Pc)
    requires HasLogin(was)
  {
    var name := was.login.name;
    && (CheckedHash(pc).Some? && CheckedHash(pc) != CheckedHash(was) ==>
          && a.Examine? && NewHash(was).Some?
          && HasHash(disk, name, CheckedHash(pc).value) && CheckedHash(pc).value != "init")
    && (NewHash(pc).Some? ==> NewHash(pc) == NewHash(was))
    && (HasSaved(pc) && !HasSaved(was) ==> a.SaveSucceeds? && HasHash(disk, name, "init"))
    && (pc.Refused? && !was.Refused? ==>
          || (NewHash(was).Some? && (a.LockFails? || a.LoadFails? || a.SaveFails?))
          || (NewHash(was).Some? && a.Examine? && NoAccount(disk, name))
          || (a.RunArgon? && CheckedHash(was).Some? && !c.verify(CheckedHash(was).value, was.login.password)))
  }

  lemma NextDecides(policy: Policy, s: State, t: nat, a: Action)
    requires Enabled(policy, s, t, a) && HasLogin(s.pcs[t]) && !a.Restart? && !a.Finish?
    requires s.pcs[t].Loaded? ==> s.pcs[t].current == s.disk
    ensures Decides(policy.crypto, s.disk, s.pcs[t], a, Next(policy.crypto, s, s.pcs[t], a))
  {
    if s.pcs[t].Loaded? { StandingIs(s.disk, s.pcs[t].login.name); }
  }

  lemma StepDecides(policy: Policy, s: State, t: nat, a: Action)
    requires Inv(policy.crypto, s) && Enabled(policy, s, t, a) && HasLogin(s.pcs[t]) && !a.Restart? && !a.Finish?
    ensures Decides(policy.crypto, s.disk, s.pcs[t], a, Do(policy, s, t, a).pcs[t])
  {
    assert PcOk(policy.crypto, s.disk, s.edits, s.pcs[t]);
    NextDecides(policy, s, t, a);
  }

  /** The user list of the login's process when the login began. */
  function ShownTo(states: seq<State>, what: seq<Action>, i: nat): Registry
    requires i < |what| < |states| && what[i].Begin? && what[i].login.proc < |states[i].procs|
  {
    states[i].procs[what[i].login.proc].users
  }

  /** The user list showed this hash when the login began, or it showed `init` and the registry file showed the
      hash when the login read it. */
  ghost predicate Saw(states: seq<State>, who: seq<nat>, what: seq<Action>, i: nat, r: nat, t: nat, hash: string)
    requires i <= r < |what| == |who| < |states| && what[i].Begin? && what[i].login.proc < |states[i].procs|
  {
    var name := what[i].login.name;
    && hash != "init"
    && (HasHash(ShownTo(states, what, i), name, hash)
        || (HasHash(ShownTo(states, what, i), name, "init")
            && exists j ::
                 i < j <= r && Acts(who, what, j, t) && what[j].Examine? && HasHash(states[j].disk, name, hash)))
  }

  /** The user list showed `init` and the login brought a password that could be hashed. */
  ghost predicate Claims(c: Crypto, states: seq<State>, what: seq<Action>, i: nat, newHash: string)
    requires i < |what| < |states| && what[i].Begin? && what[i].login.proc < |states[i].procs|
  {
    && HasHash(ShownTo(states, what, i), what[i].login.name, "init")
    && what[i].login.password != "" && !what[i].hashingFails
    && newHash == c.compute(what[i].login.password, what[i].salt)
  }

  ghost predicate HasClaimed(states: seq<State>, who: seq<nat>, what: seq<Action>, i: nat, r: nat, t: nat)
    requires i <= r < |what| == |who| < |states| && what[i].Begin?
  {
    exists j :: i < j <= r && Acts(who, what, j, t) && what[j].SaveSucceeds?
                && HasHash(states[j].disk, what[i].login.name, "init")
  }

  /** Where a login stands is explained by what it saw. */
  ghost predicate Explained(
    c: Crypto, states: seq<State>, who: seq<nat>, what: seq<Action>, i: nat, r: nat, t: nat, pc: Pc)
    requires i <= r < |what| == |who| < |states| && what[i].Begin? && what[i].login.proc < |states[i].procs|
  {
    && (CheckedHash(pc).Some? ==> Saw(states, who, what, i, r, t, CheckedHash(pc).value))
    && (NewHash(pc).Some? ==> Claims(c, states, what, i, NewHash(pc).value))
    && (HasSaved(pc) ==> HasClaimed(states, who, what, i, r, t))
  }

  lemma ExplainedLater(
    c: Crypto, states: seq<State>, who: seq<nat>, what: seq<Action>, i: nat, r: nat, t: nat, pc: Pc)
    requires i <= r && r + 1 < |what| == |who| < |states| && what[i].Begin?
    requires what[i].login.proc < |states[i].procs| && Explained(c, states, who, what, i, r, t, pc)
    ensures Explained(c, states, who, what, i, r + 1, t, pc)
  {
  }

  lemma ExplainedNext(
    c: Crypto, states: seq<State>, who: seq<nat>, what: seq<Action>, i: nat, r: nat, t: nat, was: Pc, pc: Pc)
    requires i < r < |what| == |who| < |states| && what[i].Begin? && what[i].login.proc < |states[i].procs|
    requires HasLogin(was) && was.login == what[i].login && Acts(who, what, r, t)
    requires Explained(c, states, who, what, i, r, t, was) && Decides(c, states[r].disk, was, what[r], pc)
    ensures Explained(c, states, who, what, i, r, t, pc)
  {
  }

  lemma LoginStepIsExplained(
    policy: Policy, states: seq<State>, who: seq<nat>, what: seq<Action>, i: nat, r: nat, t: nat)
    requires Sound(policy.crypto) && Run(policy, states, who, what) && LoginSpan(who, what, i, r, t) && i < r
    requires what[i].login.proc < |states[i].procs| && t < |states[r].pcs| && HasLogin(states[r].pcs[t])
    requires states[r].pcs[t].login == what[i].login
    requires Explained(policy.crypto, states, who, what, i, r, t, states[r].pcs[t])
    ensures t < |states[r + 1].pcs| && Explained(policy.crypto, states, who, what, i, r, t, states[r + 1].pcs[t])
  {
    assert StepAt(policy, states, who, what, r);
    if Acts(who, what, r, t) {
      RunKeepsInv(policy, states, who, what, r);
      StepDecides(policy, states[r], t, what[r]);
      ExplainedNext(policy.crypto, states, who, what, i, r, t, states[r].pcs[t], states[r + 1].pcs[t]);
    } else {
      StepWhileUndecided(policy, states[r], who[r], what[r], t, what[i].login);
    }
  }

  lemma {:induction false} LoginIsExplained(
    policy: Policy, states: seq<State>, who: seq<nat>, what: seq<Action>, i: nat, r: nat, t: nat)
    requires Sound(policy.crypto) && Run(policy, states, who, what) && LoginSpan(who, what, i, r, t)
    ensures what[i].login.proc < |states[i].procs| && t < |states[r + 1].pcs| && HasLogin(states[r + 1].pcs[t])
    ensures states[r + 1].pcs[t].login == what[i].login
    ensures Explained(policy.crypto, states, who, what, i, r, t, states[r + 1].pcs[t])
    decreases r
  {
    UndecidedIsHarmless(policy, states, who, what, i, r, t);
    if i == r {
      assert StepAt(policy, states, who, what, i);
      BeginDecides(policy, states[i], t, what[i]);
    } else {
      LoginIsExplained(policy, states, who, what, i, r - 1, t);
      ExplainedLater(policy.crypto, states, who, what, i, r - 1, t, states[r].pcs[t]);
      LoginStepIsExplained(policy, states, who, what, i, r, t);
    }
  }

  /** Why a login is refused: the account is unknown or disabled in memory or, once read, in the file; the
      password is empty or cannot be hashed; the lock, the load or the save fails; or the password does not
      verify against a hash that memory or the file showed.  There is no other reason. */
  lemma RefusalHasAReason(
    policy: Policy, states: seq<State>, who: seq<nat>, what: seq<Action>, i: nat, r: nat, t: nat)
    requires Sound(policy.crypto) && Run(policy, states, who, what) && LoginSpan(who, what, i, r, t)
    requires Refuses(states[r], states[r + 1], who[r], t)
    ensures what[i].login.proc < |states[i].procs|
    ensures var login, shown := what[i].login, ShownTo(states, what, i);
      || (r == i && NoAccount(shown, login.name))
      || (r == i && HasHash(shown, login.name, "init") && (login.password == "" || what[i].hashingFails))
      || (r > i && HasHash(shown, login.name, "init")
          && (what[r].LockFails? || what[r].LoadFails? || what[r].SaveFails?))
      || (r > i && HasHash(shown, login.name, "init") && what[r].Examine? && NoAccount(states[r].disk, login.name))
      || (r > i && what[r].RunArgon?
          && exists hash :: Saw(states, who, what, i, r, t, hash) && !policy.crypto.verify(hash, login.password))
  {
    assert StepAt(policy, states, who, what, r);
    if i == r {
      BeginDecides(policy, states[i], t, what[i]);
    } else {
      LoginIsExplained(policy, states, who, what, i, r - 1, t);
      ExplainedLater(policy.crypto, states, who, what, i, r - 1, t, states[r].pcs[t]);
      RunKeepsInv(policy, states, who, what, r);
      StepDecides(policy, states[r], t, what[r]);
    }
  }

  /** Why a login is accepted: its password verifies against a hash that memory or the file showed, or memory and
      file both showed `init`, the save succeeded and the password's own hash was adopted. */
  lemma AcceptanceHasAReason(
    policy: Policy, states: seq<State>, who: seq<nat>, what: seq<Action>, i: nat, r: nat, t: nat)
    requires Sound(policy.crypto) && Run(policy, states, who, what) && LoginSpan(who, what, i, r, t)
    requires t < |states[r + 1].pcs| && states[r + 1].pcs[t].Accepted?
    ensures what[i].login.proc < |states[i].procs|
    ensures var pc := states[r + 1].pcs[t];
      && pc.login == what[i].login && policy.crypto.verify(pc.hash, pc.login.password)
      && if pc.firstUse
         then Claims(policy.crypto, states, what, i, pc.hash) && HasClaimed(states, who, what, i, r, t)
         else Saw(states, who, what, i, r, t, pc.hash)
  {
    LoginIsExplained(policy, states, who, what, i, r, t);
    AcceptedMeansVerified(policy, states, who, what, r + 1, t);
  }

  /** What an accepted login leaves in its process.  A first use leaves the user list equal to the registry file
      and releases both locks before the cache knows of it; every acceptance through the slow path or a first use is
      cached so that the same password hits against the same hash. */
  lemma AcceptingSteps(policy: Policy, states: seq<State>, who: seq<nat>, what: seq<Action>, k: nat)
    requires Sound(policy.crypto) && Run(policy, states, who, what) && k < |who|
    ensures who[k] < |states[k].pcs| && who[k] < |states[k + 1].pcs|
    ensures var was, pc := states[k].pcs[who[k]], states[k + 1].pcs[who[k]];
      && (what[k].Commit? ==>
            && was.Stored? && was.login.proc < |states[k + 1].procs|
            && states[k + 1].procs[was.login.proc].users == states[k].disk == states[k + 1].disk == was.current
            && states[k + 1].lock.None? && states[k + 1].procs[was.login.proc].guard.None?)
      && (what[k].PublishCache? || what[k].PublishFirstUse? ==>
            && pc.Accepted? && pc.login.proc < |states[k + 1].procs|
            && CacheHit(policy.crypto, states[k + 1].procs[pc.login.proc], pc.login, pc.hash))
  {
    assert StepAt(policy, states, who, what, k);
    RunKeepsInv(policy, states, who, what, k);
    assert PcOk(policy.crypto, states[k].disk, states[k].edits, states[k].pcs[who[k]]);
  }

  /** A restarted process reads the registry, and its new cache knows nobody. */
  lemma RestartForgets(policy: Policy, states: seq<State>, who: seq<nat>, what: seq<Action>, k: nat)
    requires Run(policy, states, who, what) && k < |who| && what[k].Restart?
    ensures what[k].proc < |states[k + 1].procs|
    ensures var p := states[k + 1].procs[what[k].proc];
      p.users == states[k + 1].disk == states[k].disk && p.cache == map[] && p.secret == what[k].secret
    ensures forall pc | pc in states[k + 1].pcs :: !Of(pc, what[k].proc)
  {
    assert StepAt(policy, states, who, what, k);
  }

  /** No refused login, from its beginning on, replaces the registry file. */
  ghost predicate RefusalsAreClean(policy: Policy) {
    forall states: seq<State>, who: seq<nat>, what: seq<Action>, i: nat, r: nat, t: nat, j: nat ::
      Run(policy, states, who, what) && LoginSpan(who, what, i, r, t) && Refuses(states[r], states[r + 1], who[r], t)
      && i <= j <= r && Acts(who, what, j, t)
      ==> states[j + 1].edits == states[j].edits && states[j + 1].disk == states[j].disk
  }

  const BAD_USER := User("a", INIT, true, "")
  const BAD_LOGIN := Login(0, "a", "p")

  /** One account, one process, one login whose save replaces the file and reports an error. */
  function BadState(c: Crypto, k: nat): State {
    var h := c.compute("p", 0);
    var users := [BAD_USER];
    var proc := Proc(users, if k == 3 || k == 4 then Some(0) else None, map[], 0);
    var pc :=
      if k == 0 then Idle else if k == 1 then Hashed(BAD_LOGIN, h) else if k == 2 then Locked(BAD_LOGIN, h)
      else if k == 3 then Guarded(BAD_LOGIN, h) else if k == 4 then Loaded(BAD_LOGIN, h, users)
      else Refused(BAD_LOGIN);
    State(if k == 5 then [BAD_USER.(hash := h)] else users, if 2 <= k <= 4 then Some(0) else None,
          [proc], [pc], users, if k == 5 then [FirstUse("a", h)] else [])
  }

  function BadAction(k: nat): Action {
    if k == 0 then Begin(BAD_LOGIN, 0, false) else if k == 1 then TakeLock else if k == 2 then TakeGuard
    else if k == 3 then Load else SaveFails(true)
  }

  lemma BadStep(policy: Policy, k: nat)
    requires !policy.allOrNothing && k < 5
    ensures Enabled(policy, BadState(policy.crypto, k), 0, BadAction(k))
    ensures BadState(policy.crypto, k + 1) == Do(policy, BadState(policy.crypto, k), 0, BadAction(k))
  {
    var users := [BAD_USER];
    assert Find(users, "a") == Some(0);
    assert StandingOf(users, "a").Claimable?;
    assert SetHash(users, "a", policy.crypto.compute("p", 0)) == [BAD_USER.(hash := policy.crypto.compute("p", 0))];
  }

  lemma BadRun(policy: Policy) returns (states: seq<State>, who: seq<nat>, what: seq<Action>)
    requires !policy.allOrNothing
    ensures Run(policy, states, who, what) && |who| == 5
    ensures forall k: nat | k < 5 :: states[k] == BadState(policy.crypto, k) && who[k] == 0 && what[k] == BadAction(k)
    ensures states[5] == BadState(policy.crypto, 5)
  {
    states := seq(6, (k: nat) => BadState(policy.crypto, k));
    who := seq(5, (k: nat) => 0 as nat);
    what := seq(5, (k: nat) => BadAction(k));
    forall k: nat | k < 5
      ensures StepAt(policy, states, who, what, k)
    {
      BadStep(policy, k);
    }
  }

  lemma BadLogin(c: Crypto)
    requires Sound(c)
    ensures Refuses(BadState(c, 4), BadState(c, 5), 0, 0) && BadState(c, 4).disk != BadState(c, 5).disk
  {
    assert BadState(c, 4).disk[0].hash == INIT && BadState(c, 5).disk[0].hash != INIT;
  }

  lemma RefusalCanClaim(policy: Policy)
    requires Sound(policy.crypto) && !policy.allOrNothing
    ensures !RefusalsAreClean(policy)
  {
    var states, who, what := BadRun(policy);
    BadLogin(policy.crypto);
    assert what[0].Begin?;
    assert LoginSpan(who, what, 0, 4, 0) && Acts(who, what, 4, 0);
    assert Refuses(states[4], states[5], who[4], 0);
  }

  /** No refused login has touched the registry file, so that the account is as claimable as without it, if and
      only if a save that reports an error cannot have replaced the file. */
  lemma RefusalsAreCleanExactlyWhenSaveIsAtomic(policy: Policy)
    requires Sound(policy.crypto)
    ensures RefusalsAreClean(policy) <==> policy.allOrNothing
  {
    if policy.allOrNothing {
      forall states: seq<State>, who: seq<nat>, what: seq<Action>, i: nat, r: nat, t: nat, j: nat
        | Run(policy, states, who, what) && LoginSpan(who, what, i, r, t)
          && Refuses(states[r], states[r + 1], who[r], t) && i <= j <= r && Acts(who, what, j, t)
        ensures states[j + 1].edits == states[j].edits && states[j + 1].disk == states[j].disk
      {
        assert StepAt(policy, states, who, what, j);
        RefusedLoginStepByStep(policy, states, who, what, i, r, t, j);
      }
    } else {
      RefusalCanClaim(policy);
    }
  }
}
