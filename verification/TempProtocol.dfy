/**
 The temp-file ownership protocol of `persist-lock`, as a labelled transition system whose steps are
 single system calls.  Writers (`TempFileGuard`), reader-side cleanups (`remove_temp_if_unlocked`),
 orphan sweeps and crashes interleave freely over one directory, for one target.

 Files follow Unix rules: a name maps to an inode, unlinking a name leaves the inode and every open
 handle alone, and an advisory lock belongs to the inode that a handle opened.
 */
module TempProtocol {

  type Byte = b: int | 0 <= b < 256
  type Bytes = seq<Byte>
  type Inode = nat
  type Tid = nat

  /** The `(pid, seq)` pair that a temp name is built from. */
  datatype Key = Key(pid: nat, seqNo: nat)

  datatype Name = TargetFile | TemplockFile | Companion(key: Key) | Temp(key: Key)

  /** What the environment may do: a guard's drop may fail to take the templock and go on without it,
      and two live writers may or may not be handed the same key. */
  datatype Policy = Policy(degradedDrop: bool, uniqueKeys: bool)

  datatype Pc =
      // TempFileGuard::create
    | CreateStart | CreateOpened | CreateSection | CreateCompanion | CreateOwned
    | CreateAborting | CreateUnlinking | CreateTemp | CreateLeaving
      // the guard between create and drop
    | Holding | Closed
      // TempFileGuard::drop; `sec` says whether the section was taken
    | DropStart | DropOpened | DropTemp(sec: bool) | DropCompanion(sec: bool) | DropLeaving | DropUnlock
      // remove_temp_if_unlocked, and one round of the orphan-companion loop (which checks the temp
      // first and never removes it)
    | CleanStart | CleanOpened | CleanCheck | CleanReady | CleanCompanion | CleanLocked
    | CleanUnlinking | CleanTemp | CleanLeaving
    | Finished | Dead

  /** One participant.  The inode fields are its open handles and mean something only at the program
      points that hold them. */
  datatype Thread = Thread(
    key: Key,
    orphan: bool,      // a cleanup started by the orphan-companion loop
    pc: Pc,
    section: Inode,    // templock handle
    companion: Inode,  // companion handle
    data: Inode,       // temp inode created or truncated by this writer
    written: Bytes,    // what this writer has written so far
    renamed: bool,     // the publishing rename took effect
    done: bool)        // ... and was reported as a success

  datatype Fs = Fs(
    names: map<Name, Inode>,
    content: map<Inode, Bytes>,
    locks: map<Inode, Tid>,
    next: Inode)

  datatype Publication = Publication(inode: Inode, writer: Tid, bytes: Bytes)

  /** `published` and `log` are history: every inode that has ever been the target, with its bytes, and
      the renames in order. */
  datatype State = State(
    fs: Fs,
    threads: map<Tid, Thread>,
    published: map<Inode, Bytes>,
    log: seq<Publication>)

  datatype Action =
    | StartCreate(t: Tid, key: Key)
    | StartCleanup(t: Tid, key: Key, orphan: bool)
    | OpenTemplock(t: Tid)
    | LockTemplock(t: Tid)
    | SectionUnavailable(t: Tid)
    | OpenCompanion(t: Tid)
    | TryLock(t: Tid)
    | Refused(t: Tid)
    | CheckTemp(t: Tid, seen: bool)
    | OpenTemp(t: Tid)
    | OpenTempFails(t: Tid)
    | ReleaseCompanion(t: Tid)
    | UnlinkCompanion(t: Tid, ok: bool)
    | UnlinkTemp(t: Tid, ok: bool)
    | LeaveSection(t: Tid)
    | Write(t: Tid, chunk: Bytes)
    | CloseData(t: Tid)
    | Rename(t: Tid, reported: bool)
    | GiveUp(t: Tid)
    | CloseCompanion(t: Tid)
    | Crash(t: Tid)
    | KernelRelease(inode: Inode)

  // ---------------------------------------------------------------------------------------------
  // Program points
  // ---------------------------------------------------------------------------------------------

  /** Inside the templock critical section. */
  predicate InSection(pc: Pc) {
    match pc
    case CreateSection | CreateCompanion | CreateOwned | CreateAborting | CreateUnlinking
       | CreateTemp | CreateLeaving | DropLeaving
       | CleanCheck | CleanReady | CleanCompanion | CleanLocked | CleanUnlinking | CleanTemp
       | CleanLeaving => true
    case DropTemp(sec) => sec
    case DropCompanion(sec) => sec
    case _ => false
  }

  /** Has the templock open, waiting for the lock. */
  predicate WaitsForSection(pc: Pc) {
    pc.CreateOpened? || pc.DropOpened? || pc.CleanOpened?
  }

  /** A writer that has proved ownership of its key and still has its companion name in place. */
  predicate Owns(pc: Pc) {
    pc.CreateOwned? || pc.CreateAborting? || pc.CreateTemp? || pc.Holding? || pc.Closed?
    || pc.DropStart? || pc.DropOpened? || pc.DropTemp? || pc.DropCompanion?
  }

  /** Holds the advisory lock of the companion it opened. */
  predicate HoldsCompanionLock(pc: Pc) {
    Owns(pc) || pc.DropLeaving? || pc.DropUnlock? || pc.CleanLocked?
  }

  /** A live writer whose temp exists and has not been renamed or removed by itself. */
  predicate HasTemp(th: Thread) {
    && (th.pc.CreateTemp? || th.pc.Holding? || th.pc.Closed? || th.pc.DropStart? || th.pc.DropOpened?
        || th.pc.DropTemp?)
    && !th.renamed
  }

  predicate AfterRename(pc: Pc) {
    pc.DropStart? || pc.DropOpened? || pc.DropTemp? || pc.DropCompanion? || pc.DropLeaving?
    || pc.DropUnlock? || pc.Finished? || pc.Dead?
  }

  /** A cleanup that has opened the companion of its key and may act on what it saw. */
  predicate Inspected(pc: Pc) {
    pc.CleanCompanion?
  }

  /** Has proved, under the section, that no live writer owns its key. */
  predicate ProvedOwnerless(pc: Pc) {
    pc.CreateUnlinking? || pc.CleanLocked? || pc.CleanUnlinking? || pc.CleanTemp?
  }

  /** A writer somewhere between the start of `create` and the end of `drop`. */
  predicate ActiveWriter(pc: Pc) {
    pc.CreateStart? || pc.CreateOpened? || pc.CreateSection? || pc.CreateCompanion?
    || pc.CreateUnlinking? || pc.CreateLeaving? || pc.DropLeaving? || pc.DropUnlock? || Owns(pc)
  }

  // ---------------------------------------------------------------------------------------------
  // File-system effects
  // ---------------------------------------------------------------------------------------------

  function ContentOf(fs: Fs, i: Inode): Bytes {
    if i in fs.content then fs.content[i] else []
  }

  /** The inode that an open-or-create of `n` yields. */
  function OpenInode(fs: Fs, n: Name): Inode {
    if n in fs.names then fs.names[n] else fs.next
  }

  function WithName(fs: Fs, n: Name): Fs {
    if n in fs.names then fs
    else fs.(names := fs.names[n := fs.next], content := fs.content[fs.next := []], next := fs.next + 1)
  }

  function Truncated(fs: Fs, i: Inode): Fs {
    fs.(content := fs.content[i := []])
  }

  function Appended(fs: Fs, i: Inode, chunk: Bytes): Fs {
    fs.(content := fs.content[i := ContentOf(fs, i) + chunk])
  }

  function Unlinked(fs: Fs, n: Name): Fs {
    fs.(names := fs.names - {n})
  }

  function Locked(fs: Fs, i: Inode, t: Tid): Fs {
    fs.(locks := fs.locks[i := t])
  }

  function Unlocked(fs: Fs, i: Inode): Fs {
    fs.(locks := fs.locks - {i})
  }

  function Renamed(fs: Fs, from: Name, to: Name): Fs
    requires from in fs.names
  {
    fs.(names := (fs.names - {from})[to := fs.names[from]])
  }

  // ---------------------------------------------------------------------------------------------
  // Steps
  // ---------------------------------------------------------------------------------------------

  function Fresh(k: Key, orphan: bool, pc: Pc): Thread {
    Thread(k, orphan, pc, 0, 0, 0, [], false, false)
  }

  /** The program point after a step that can only go one way. */
  function AfterOpenTemplock(pc: Pc): Pc {
    if pc.CreateStart? then CreateOpened else if pc.DropStart? then DropOpened else CleanOpened
  }

  function AfterLockTemplock(th: Thread): Pc {
    if th.pc.CreateOpened? then CreateSection
    else if th.pc.DropOpened? then AfterDropEntry(th, true)
    else if th.orphan then CleanCheck else CleanReady
  }

  /** A guard that published successfully has no temp to remove. */
  function AfterDropEntry(th: Thread, sec: bool): Pc {
    if th.done then DropCompanion(sec) else DropTemp(sec)
  }

  function AfterRefused(pc: Pc): Pc {
    if pc.CreateSection? || pc.CreateCompanion? then CreateLeaving else CleanLeaving
  }

  function AfterTryLock(pc: Pc): Pc {
    if pc.CreateCompanion? then CreateOwned else CleanLocked
  }

  function AfterReleaseCompanion(pc: Pc): Pc {
    if pc.CreateAborting? then CreateUnlinking else CleanUnlinking
  }

  function AfterUnlinkCompanion(th: Thread): Pc {
    match th.pc
    case CreateUnlinking => CreateLeaving
    case DropCompanion(sec) => if sec then DropLeaving else DropUnlock
    case _ => if th.orphan then CleanLeaving else CleanTemp
  }

  function AfterLeaveSection(pc: Pc): Pc {
    if pc.CreateTemp? then Holding else if pc.DropLeaving? then DropUnlock else Finished
  }

  predicate OpensTemplock(pc: Pc) {
    pc.CreateStart? || pc.DropStart? || pc.CleanStart?
  }

  /** May find the section unavailable: `create` then fails, a cleanup skips, a drop degrades. */
  predicate MayMissSection(p: Policy, pc: Pc) {
    && (OpensTemplock(pc) || WaitsForSection(pc))
    && (pc.DropStart? || pc.DropOpened? ==> p.degradedDrop)
  }

  predicate OpensCompanion(pc: Pc) {
    pc.CreateSection? || pc.CleanReady?
  }

  predicate TriesLock(pc: Pc) {
    pc.CreateCompanion? || Inspected(pc)
  }

  predicate UnlinksCompanion(pc: Pc) {
    pc.CreateUnlinking? || pc.DropCompanion? || pc.CleanUnlinking?
  }

  predicate LeavesSection(pc: Pc) {
    pc.CreateLeaving? || pc.CreateTemp? || pc.DropLeaving? || pc.CleanLeaving?
  }

  /** Whether thread `th`, running as `t`, can take `a` in `fs`. */
  predicate ThreadCan(p: Policy, fs: Fs, th: Thread, a: Action) {
    match a
    case OpenTemplock(_) => OpensTemplock(th.pc)
    case LockTemplock(_) => WaitsForSection(th.pc) && th.section !in fs.locks
    case SectionUnavailable(_) => MayMissSection(p, th.pc)
    case OpenCompanion(_) => OpensCompanion(th.pc)
    case TryLock(_) => TriesLock(th.pc) && th.companion !in fs.locks
    case Refused(_) => OpensCompanion(th.pc) || TriesLock(th.pc)
    case CheckTemp(_, seen) => th.pc.CleanCheck? && (seen ==> Temp(th.key) in fs.names)
    case OpenTemp(_) => th.pc.CreateOwned?
    case OpenTempFails(_) => th.pc.CreateOwned?
    case ReleaseCompanion(_) => th.pc.CreateAborting? || th.pc.CleanLocked?
    case UnlinkCompanion(_, _) => UnlinksCompanion(th.pc)
    case UnlinkTemp(_, _) => th.pc.DropTemp? || th.pc.CleanTemp?
    case LeaveSection(_) => LeavesSection(th.pc)
    case Write(_, _) => th.pc.Holding?
    case CloseData(_) => th.pc.Holding?
    case Rename(_, _) => th.pc.Closed? && Temp(th.key) in fs.names
    case GiveUp(_) => th.pc.Closed?
    case CloseCompanion(_) => th.pc.DropUnlock?
    case Crash(_) => !th.pc.Dead? && !th.pc.Finished?
    case _ => false
  }

  /** The new file system and the new local state of the thread that takes `a`. */
  function ThreadDo(p: Policy, fs: Fs, th: Thread, a: Action): (Fs, Thread)
    requires ThreadCan(p, fs, th, a)
  {
    match a
    case OpenTemplock(_) =>
      (WithName(fs, TemplockFile),
       th.(pc := AfterOpenTemplock(th.pc), section := OpenInode(fs, TemplockFile)))
    case LockTemplock(t) => (Locked(fs, th.section, t), th.(pc := AfterLockTemplock(th)))
    case SectionUnavailable(_) =>
      (fs, th.(pc := if th.pc.DropStart? || th.pc.DropOpened? then AfterDropEntry(th, false) else Finished))
    case OpenCompanion(_) => OpenCompanionDo(fs, th)
    case TryLock(t) => (Locked(fs, th.companion, t), th.(pc := AfterTryLock(th.pc)))
    case Refused(_) => (fs, th.(pc := AfterRefused(th.pc)))
    case CheckTemp(_, seen) => (fs, th.(pc := if seen then CleanLeaving else CleanReady))
    case OpenTemp(_) =>
      var i := OpenInode(fs, Temp(th.key));
      (Truncated(WithName(fs, Temp(th.key)), i), th.(pc := CreateTemp, data := i, written := []))
    case OpenTempFails(_) => (fs, th.(pc := CreateAborting))
    case ReleaseCompanion(_) =>
      (Unlocked(fs, th.companion), th.(pc := AfterReleaseCompanion(th.pc)))
    case UnlinkCompanion(_, ok) =>
      (if ok then Unlinked(fs, Companion(th.key)) else fs, th.(pc := AfterUnlinkCompanion(th)))
    case UnlinkTemp(_, ok) =>
      (if ok then Unlinked(fs, Temp(th.key)) else fs,
       th.(pc := if th.pc.DropTemp? then DropCompanion(th.pc.sec) else CleanLeaving))
    case LeaveSection(_) => (Unlocked(fs, th.section), th.(pc := AfterLeaveSection(th.pc)))
    case Write(_, chunk) => (Appended(fs, th.data, chunk), th.(written := th.written + chunk))
    case CloseData(_) => (fs, th.(pc := Closed))
    case Rename(_, reported) =>
      (Renamed(fs, Temp(th.key), TargetFile), th.(pc := DropStart, renamed := true, done := reported))
    case GiveUp(_) => (fs, th.(pc := DropStart))
    case CloseCompanion(_) => (Unlocked(fs, th.companion), th.(pc := Finished))
    case Crash(_) => (fs, th.(pc := Dead))
  }

  /** A writer creates a missing companion; a cleanup takes its absence as an answer. */
  function OpenCompanionDo(fs: Fs, th: Thread): (Fs, Thread)
    requires OpensCompanion(th.pc)
  {
    var n := Companion(th.key);
    if th.pc.CreateSection? then
      (WithName(fs, n), th.(pc := CreateCompanion, companion := OpenInode(fs, n)))
    else if n in fs.names then
      (fs, th.(pc := CleanCompanion, companion := fs.names[n]))
    else
      (fs, th.(pc := if th.orphan then CleanLeaving else CleanTemp))
  }

  predicate CanStart(p: Policy, s: State, t: Tid, k: Key) {
    && t !in s.threads
    && (p.uniqueKeys ==>
          forall u | u in s.threads :: ActiveWriter(s.threads[u].pc) ==> s.threads[u].key != k)
  }

  predicate Enabled(p: Policy, s: State, a: Action) {
    match a
    case StartCreate(t, k) => CanStart(p, s, t, k)
    case StartCleanup(t, _, _) => t !in s.threads
    case KernelRelease(i) => i in s.fs.locks && s.fs.locks[i] in s.threads && s.threads[s.fs.locks[i]].pc.Dead?
    case _ => a.t in s.threads && ThreadCan(p, s.fs, s.threads[a.t], a)
  }

  /** The effect of one enabled step. */
  function Do(p: Policy, s: State, a: Action): State
    requires Enabled(p, s, a)
  {
    match a
    case StartCreate(t, k) => s.(threads := s.threads[t := Fresh(k, false, CreateStart)])
    case StartCleanup(t, k, o) => s.(threads := s.threads[t := Fresh(k, o, CleanStart)])
    case KernelRelease(i) => s.(fs := Unlocked(s.fs, i))
    case Rename(t, _) =>
      var th := s.threads[t];
      var r := ThreadDo(p, s.fs, th, a);
      var i := s.fs.names[Temp(th.key)];
      State(r.0, s.threads[t := r.1], s.published[i := th.written],
            s.log + [Publication(i, t, th.written)])
    case _ =>
      var r := ThreadDo(p, s.fs, s.threads[a.t], a);
      s.(fs := r.0, threads := s.threads[a.t := r.1])
  }

  /** A directory as an earlier run may have left it: any names, on distinct inodes, no one alive. */
  ghost predicate Init(s: State) {
    && s.threads == map[] && s.fs.locks == map[] && s.log == []
    && NamesOk(s.fs)
    && s.published ==
       (if TargetFile in s.fs.names
        then map[s.fs.names[TargetFile] := ContentOf(s.fs, s.fs.names[TargetFile])] else map[])
  }

  datatype Run = Run(states: seq<State>, actions: seq<Action>)

  ghost predicate IsRun(p: Policy, r: Run) {
    && |r.states| == |r.actions| + 1
    && Init(r.states[0])
    && forall i: nat | i < |r.actions| :: StepAt(p, r, i)
  }

  ghost predicate StepAt(p: Policy, r: Run, i: nat)
    requires i < |r.actions| && |r.states| == |r.actions| + 1
  {
    IsStep(p, r.states[i], r.actions[i], r.states[i + 1])
  }

  ghost predicate IsStep(p: Policy, s: State, a: Action, s': State) {
    Enabled(p, s, a) && s' == Do(p, s, a)
  }

  // ---------------------------------------------------------------------------------------------
  // The inductive invariant
  // ---------------------------------------------------------------------------------------------

  ghost predicate NamesOk(fs: Fs) {
    && (forall n | n in fs.names :: fs.names[n] < fs.next)
    && (forall m, n | m in fs.names && n in fs.names && fs.names[m] == fs.names[n] :: m == n)
  }

  ghost predicate FsOk(fs: Fs) {
    NamesOk(fs) && forall i | i in fs.locks :: i < fs.next
  }

  predicate Maps(fs: Fs, n: Name, i: Inode) {
    n in fs.names && fs.names[n] == i
  }

  predicate LockedBy(fs: Fs, i: Inode, t: Tid) {
    i in fs.locks && fs.locks[i] == t
  }

  predicate SectionOk(fs: Fs, th: Thread, t: Tid) {
    && (WaitsForSection(th.pc) || InSection(th.pc) ==> Maps(fs, TemplockFile, th.section))
    && (InSection(th.pc) ==> LockedBy(fs, th.section, t))
  }

  predicate CompanionOk(fs: Fs, th: Thread, t: Tid) {
    && (Owns(th.pc) || th.pc.CreateCompanion? ==> Maps(fs, Companion(th.key), th.companion))
    && (HoldsCompanionLock(th.pc) ==> LockedBy(fs, th.companion, t))
    // the templock is another file
    && (HoldsCompanionLock(th.pc) || Inspected(th.pc) ==>
          th.companion < fs.next && !Maps(fs, TemplockFile, th.companion))
  }

  predicate TempOk(fs: Fs, th: Thread) {
    && (HasTemp(th) ==> Maps(fs, Temp(th.key), th.data) && ContentOf(fs, th.data) == th.written)
    && (Owns(th.pc) && th.renamed ==> Temp(th.key) !in fs.names)
    && (th.renamed ==> AfterRename(th.pc))
  }

  predicate ThreadOk(p: Policy, fs: Fs, th: Thread, t: Tid) {
    && SectionOk(fs, th, t) && CompanionOk(fs, th, t) && TempOk(fs, th)
    && (th.pc.DropTemp? || th.pc.DropCompanion? ==> th.pc.sec || p.degradedDrop)
  }

  /** What a participant `c` may conclude about a writer `w`. */
  predicate PairOk(c: Thread, w: Thread) {
    c.key == w.key && Owns(w.pc) ==>
      && (Inspected(c.pc) ==> c.companion == w.companion)
      && !ProvedOwnerless(c.pc)
  }

  predicate UniqueOk(p: Policy, c: Thread, w: Thread) {
    p.uniqueKeys && ActiveWriter(c.pc) && ActiveWriter(w.pc) ==> c.key != w.key
  }

  ghost predicate ThreadsOk(p: Policy, fs: Fs, threads: map<Tid, Thread>) {
    forall t | t in threads :: ThreadOk(p, fs, threads[t], t)
  }

  ghost predicate PairsOk(p: Policy, threads: map<Tid, Thread>) {
    forall t, u | t in threads && u in threads && t != u ::
      PairOk(threads[t], threads[u]) && UniqueOk(p, threads[t], threads[u])
  }

  ghost predicate PublishedOk(s: State) {
    && (forall i | i in s.published :: i < s.fs.next && ContentOf(s.fs, i) == s.published[i])
    && (forall k | Temp(k) in s.fs.names :: s.fs.names[Temp(k)] !in s.published)
    && (TargetFile in s.fs.names ==> s.fs.names[TargetFile] in s.published)
    && (s.log != [] ==>
          var last := s.log[|s.log| - 1];
          && Maps(s.fs, TargetFile, last.inode)
          && last.inode in s.published && s.published[last.inode] == last.bytes)
  }

  ghost predicate Inv(p: Policy, s: State) {
    && FsOk(s.fs)
    && ThreadsOk(p, s.fs, s.threads)
    && PairsOk(p, s.threads)
    && PublishedOk(s)
  }

  /** The policies under which the protocol is safe. */
  predicate Sound(p: Policy) {
    !p.degradedDrop || p.uniqueKeys
  }

  // ---------------------------------------------------------------------------------------------
  // Each file-system effect leaves the other participants alone
  // ---------------------------------------------------------------------------------------------

  lemma CreateFsOk(fs: Fs, n: Name)
    requires FsOk(fs)
    ensures FsOk(WithName(fs, n)) && Maps(WithName(fs, n), n, OpenInode(fs, n))
  {
  }

  lemma CreateKeeps(p: Policy, fs: Fs, th: Thread, t: Tid, n: Name)
    requires FsOk(fs) && ThreadOk(p, fs, th, t)
    requires !(n == Temp(th.key) && Owns(th.pc) && th.renamed)
    ensures ThreadOk(p, WithName(fs, n), th, t)
  {
    var fs' := WithName(fs, n);
    assert forall m, i :: Maps(fs, m, i) ==> Maps(fs', m, i);
    assert fs'.locks == fs.locks;
    assert SectionOk(fs', th, t);
  }

  lemma LockKeeps(p: Policy, fs: Fs, th: Thread, t: Tid, i: Inode, u: Tid)
    requires ThreadOk(p, fs, th, t)
    requires i !in fs.locks
    ensures ThreadOk(p, Locked(fs, i, u), th, t)
  {
  }

  lemma UnlockKeeps(p: Policy, fs: Fs, th: Thread, t: Tid, i: Inode)
    requires ThreadOk(p, fs, th, t)
    requires !LockedBy(fs, i, t)
    ensures ThreadOk(p, Unlocked(fs, i), th, t)
  {
  }

  lemma UnlinkKeeps(p: Policy, fs: Fs, th: Thread, t: Tid, n: Name)
    requires FsOk(fs) && ThreadOk(p, fs, th, t)
    requires n != TemplockFile
    requires n == Companion(th.key) ==> !Owns(th.pc) && !th.pc.CreateCompanion?
    requires n == Temp(th.key) ==> !HasTemp(th)
    ensures FsOk(Unlinked(fs, n)) && ThreadOk(p, Unlinked(fs, n), th, t)
  {
  }

  lemma ContentKeeps(p: Policy, fs: Fs, th: Thread, t: Tid, fs': Fs, i: Inode)
    requires ThreadOk(p, fs, th, t)
    requires fs'.names == fs.names && fs'.locks == fs.locks && fs'.next == fs.next
    requires forall j | j != i :: ContentOf(fs', j) == ContentOf(fs, j)
    requires HasTemp(th) ==> th.data != i
    ensures ThreadOk(p, fs', th, t)
  {
  }

  lemma RenameKeeps(p: Policy, fs: Fs, th: Thread, t: Tid, k: Key)
    requires FsOk(fs) && ThreadOk(p, fs, th, t)
    requires Temp(k) in fs.names
    requires k == th.key ==> !HasTemp(th)
    ensures FsOk(Renamed(fs, Temp(k), TargetFile))
    ensures ThreadOk(p, Renamed(fs, Temp(k), TargetFile), th, t)
  {
  }

  // ---------------------------------------------------------------------------------------------
  // Steps keep the invariant
  // ---------------------------------------------------------------------------------------------

  lemma FsKept(p: Policy, fs: Fs, th: Thread, t: Tid, a: Action)
    requires FsOk(fs) && ThreadOk(p, fs, th, t) && ThreadCan(p, fs, th, a)
    ensures FsOk(ThreadDo(p, fs, th, a).0)
  {
    match a {
      case OpenTemplock(_) => CreateFsOk(fs, TemplockFile);
      case OpenCompanion(_) => CreateFsOk(fs, Companion(th.key));
      case OpenTemp(_) => CreateFsOk(fs, Temp(th.key));
      case _ =>
    }
  }

  lemma OwnOpenTemplock(p: Policy, fs: Fs, th: Thread, t: Tid)
    requires FsOk(fs) && ThreadOk(p, fs, th, t) && (OpensTemplock(th.pc))
    ensures ThreadOk(p, WithName(fs, TemplockFile),
      th.(pc := AfterOpenTemplock(th.pc), section := OpenInode(fs, TemplockFile)), t)
  {
  }

  lemma OwnLockTemplock(p: Policy, fs: Fs, th: Thread, t: Tid)
    requires FsOk(fs) && ThreadOk(p, fs, th, t) && (WaitsForSection(th.pc) && th.section !in fs.locks)
    ensures ThreadOk(p, Locked(fs, th.section, t), th.(pc := AfterLockTemplock(th)), t)
  {
  }

  lemma OwnSectionUnavailable(p: Policy, fs: Fs, th: Thread, t: Tid)
    requires FsOk(fs) && ThreadOk(p, fs, th, t) && (MayMissSection(p, th.pc))
    ensures ThreadOk(p, fs,
      th.(pc := if th.pc.DropStart? || th.pc.DropOpened? then AfterDropEntry(th, false) else Finished), t)
  {
  }

  lemma OwnOpenCompanion(p: Policy, fs: Fs, th: Thread, t: Tid)
    requires FsOk(fs) && ThreadOk(p, fs, th, t) && OpensCompanion(th.pc)
    ensures ThreadOk(p, OpenCompanionDo(fs, th).0, OpenCompanionDo(fs, th).1, t)
  {
    if th.pc.CreateSection? {
      CreateKeeps(p, fs, th, t, Companion(th.key));
    }
  }

  lemma OwnTryLock(p: Policy, fs: Fs, th: Thread, t: Tid)
    requires FsOk(fs) && ThreadOk(p, fs, th, t) && (TriesLock(th.pc) && th.companion !in fs.locks)
    ensures ThreadOk(p, Locked(fs, th.companion, t), th.(pc := AfterTryLock(th.pc)), t)
  {
  }

  lemma OwnRefused(p: Policy, fs: Fs, th: Thread, t: Tid)
    requires FsOk(fs) && ThreadOk(p, fs, th, t) && (OpensCompanion(th.pc) || TriesLock(th.pc))
    ensures ThreadOk(p, fs, th.(pc := AfterRefused(th.pc)), t)
  {
  }

  lemma OwnReleaseCompanion(p: Policy, fs: Fs, th: Thread, t: Tid)
    requires FsOk(fs) && ThreadOk(p, fs, th, t) && (th.pc.CreateAborting? || th.pc.CleanLocked?)
    ensures ThreadOk(p, Unlocked(fs, th.companion), th.(pc := AfterReleaseCompanion(th.pc)), t)
  {
  }

  lemma OwnUnlinkCompanion(p: Policy, fs: Fs, th: Thread, t: Tid, ok: bool)
    requires FsOk(fs) && ThreadOk(p, fs, th, t) && UnlinksCompanion(th.pc)
    ensures var fs' := if ok then Unlinked(fs, Companion(th.key)) else fs;
      ThreadOk(p, fs', th.(pc := AfterUnlinkCompanion(th)), t)
  {
  }

  lemma OwnLeaveSection(p: Policy, fs: Fs, th: Thread, t: Tid)
    requires FsOk(fs) && ThreadOk(p, fs, th, t) && (LeavesSection(th.pc))
    ensures ThreadOk(p, Unlocked(fs, th.section), th.(pc := AfterLeaveSection(th.pc)), t)
  {
  }

  lemma OwnOpenTemp(p: Policy, fs: Fs, th: Thread, t: Tid)
    requires FsOk(fs) && ThreadOk(p, fs, th, t) && th.pc.CreateOwned?
    ensures var i := OpenInode(fs, Temp(th.key));
      ThreadOk(p, Truncated(WithName(fs, Temp(th.key)), i), th.(pc := CreateTemp, data := i, written := []), t)
  {
    CreateKeeps(p, fs, th, t, Temp(th.key));
  }

  lemma OwnUnlinkTemp(p: Policy, fs: Fs, th: Thread, t: Tid, ok: bool)
    requires FsOk(fs) && ThreadOk(p, fs, th, t) && (th.pc.DropTemp? || th.pc.CleanTemp?)
    ensures var fs' := if ok then Unlinked(fs, Temp(th.key)) else fs;
      ThreadOk(p, fs', th.(pc := if th.pc.DropTemp? then DropCompanion(th.pc.sec) else CleanLeaving), t)
  {
  }

  lemma OwnWrite(p: Policy, fs: Fs, th: Thread, t: Tid, chunk: Bytes)
    requires ThreadOk(p, fs, th, t) && th.pc.Holding?
    ensures ThreadOk(p, Appended(fs, th.data, chunk), th.(written := th.written + chunk), t)
  {
  }

  lemma OwnRename(p: Policy, fs: Fs, th: Thread, t: Tid, reported: bool)
    requires FsOk(fs) && ThreadOk(p, fs, th, t) && th.pc.Closed? && Temp(th.key) in fs.names
    ensures ThreadOk(p, Renamed(fs, Temp(th.key), TargetFile),
                     th.(pc := DropStart, renamed := true, done := reported), t)
  {
  }

  lemma OwnCloseCompanion(p: Policy, fs: Fs, th: Thread, t: Tid)
    requires ThreadOk(p, fs, th, t) && th.pc.DropUnlock?
    ensures ThreadOk(p, Unlocked(fs, th.companion), th.(pc := Finished), t)
  {
  }

  lemma OwnGoto(p: Policy, fs: Fs, th: Thread, t: Tid, pc: Pc)
    requires ThreadOk(p, fs, th, t)
    requires || (th.pc.CleanCheck? && (pc.CleanLeaving? || pc.CleanReady?))
             || (th.pc.CreateOwned? && pc.CreateAborting?)
             || (th.pc.Holding? && pc.Closed?)
             || (th.pc.Closed? && pc.DropStart?)
             || pc.Dead?
    ensures ThreadOk(p, fs, th.(pc := pc), t)
  {
  }

  /** The thread that steps keeps its own obligations. */
  lemma OwnKept(p: Policy, fs: Fs, th: Thread, t: Tid, a: Action)
    requires FsOk(fs) && ThreadOk(p, fs, th, t) && ThreadCan(p, fs, th, a) && a.t == t
    ensures var r := ThreadDo(p, fs, th, a); ThreadOk(p, r.0, r.1, t)
  {
    match a {
      case OpenTemplock(_) => OwnOpenTemplock(p, fs, th, t);
      case LockTemplock(_) => OwnLockTemplock(p, fs, th, t);
      case SectionUnavailable(_) => OwnSectionUnavailable(p, fs, th, t);
      case OpenCompanion(_) => OwnOpenCompanion(p, fs, th, t);
      case TryLock(_) => OwnTryLock(p, fs, th, t);
      case Refused(_) => OwnRefused(p, fs, th, t);
      case ReleaseCompanion(_) => OwnReleaseCompanion(p, fs, th, t);
      case UnlinkCompanion(_, ok) => OwnUnlinkCompanion(p, fs, th, t, ok);
      case LeaveSection(_) => OwnLeaveSection(p, fs, th, t);
      case OpenTemp(_) => OwnOpenTemp(p, fs, th, t);
      case UnlinkTemp(_, ok) => OwnUnlinkTemp(p, fs, th, t, ok);
      case Write(_, chunk) => OwnWrite(p, fs, th, t, chunk);
      case Rename(_, reported) => OwnRename(p, fs, th, t, reported);
      case CloseCompanion(_) => OwnCloseCompanion(p, fs, th, t);
      case CheckTemp(_, seen) => OwnGoto(p, fs, th, t, if seen then CleanLeaving else CleanReady);
      case OpenTempFails(_) => OwnGoto(p, fs, th, t, CreateAborting);
      case CloseData(_) => OwnGoto(p, fs, th, t, Closed);
      case GiveUp(_) => OwnGoto(p, fs, th, t, DropStart);
      case Crash(_) => OwnGoto(p, fs, th, t, Dead);
    }
  }

  predicate ChangesNames(a: Action) {
    a.OpenTemplock? || a.OpenCompanion? || a.OpenTemp? || a.UnlinkCompanion? || a.UnlinkTemp? || a.Rename?
  }

  /** No step of `th` disturbs another participant `w`: steps that create or remove names. */
  lemma OthersKeptNames(p: Policy, fs: Fs, th: Thread, t: Tid, a: Action, w: Thread, u: Tid)
    requires Sound(p) && FsOk(fs) && t != u
    requires ThreadOk(p, fs, th, t) && ThreadOk(p, fs, w, u)
    requires PairOk(th, w) && UniqueOk(p, th, w)
    requires ChangesNames(a) && ThreadCan(p, fs, th, a) && a.t == t
    ensures ThreadOk(p, ThreadDo(p, fs, th, a).0, w, u)
  {
    match a {
      case OpenTemplock(_) => CreateKeeps(p, fs, w, u, TemplockFile);
      case OpenCompanion(_) => CreateKeeps(p, fs, w, u, Companion(th.key));
      case OpenTemp(_) =>
        CreateKeeps(p, fs, w, u, Temp(th.key));
        CreateFsOk(fs, Temp(th.key));
        ContentKeeps(p, WithName(fs, Temp(th.key)), w, u, ThreadDo(p, fs, th, a).0,
                     OpenInode(fs, Temp(th.key)));
      case UnlinkCompanion(_, ok) =>
        if ok { UnlinkKeeps(p, fs, w, u, Companion(th.key)); }
      case UnlinkTemp(_, ok) =>
        if ok { UnlinkKeeps(p, fs, w, u, Temp(th.key)); }
      case Rename(_, _) => RenameKeeps(p, fs, w, u, th.key);
    }
  }

  predicate ChangesLocks(a: Action) {
    a.LockTemplock? || a.TryLock? || a.ReleaseCompanion? || a.LeaveSection? || a.CloseCompanion?
  }

  /** ... steps that take or release locks ... */
  lemma OthersKeptLocks(p: Policy, fs: Fs, th: Thread, t: Tid, a: Action, w: Thread, u: Tid)
    requires Sound(p) && FsOk(fs) && t != u
    requires ThreadOk(p, fs, th, t) && ThreadOk(p, fs, w, u)
    requires PairOk(th, w) && UniqueOk(p, th, w)
    requires ChangesLocks(a) && ThreadCan(p, fs, th, a) && a.t == t
    ensures ThreadOk(p, ThreadDo(p, fs, th, a).0, w, u)
  {
    match a {
      case LockTemplock(_) => LockKeeps(p, fs, w, u, th.section, t);
      case TryLock(_) => LockKeeps(p, fs, w, u, th.companion, t);
      case ReleaseCompanion(_) => UnlockKeeps(p, fs, w, u, th.companion);
      case LeaveSection(_) => UnlockKeeps(p, fs, w, u, th.section);
      case CloseCompanion(_) => UnlockKeeps(p, fs, w, u, th.companion);
    }
  }

  /** ... and the remaining steps. */
  lemma OthersKept(p: Policy, fs: Fs, th: Thread, t: Tid, a: Action, w: Thread, u: Tid)
    requires Sound(p) && FsOk(fs) && t != u
    requires ThreadOk(p, fs, th, t) && ThreadOk(p, fs, w, u)
    requires PairOk(th, w) && UniqueOk(p, th, w)
    requires ThreadCan(p, fs, th, a) && a.t == t
    ensures ThreadOk(p, ThreadDo(p, fs, th, a).0, w, u)
  {
    if ChangesNames(a) {
      OthersKeptNames(p, fs, th, t, a, w, u);
    } else if ChangesLocks(a) {
      OthersKeptLocks(p, fs, th, t, a, w, u);
    } else if a.Write? {
      ContentKeeps(p, fs, w, u, ThreadDo(p, fs, th, a).0, th.data);
    } else {
      assert ThreadDo(p, fs, th, a).0 == fs;
    }
  }

  /** A local change that acquires no ownership and draws no conclusion. */
  predicate Quiet(th: Thread, th': Thread) {
    && th'.key == th.key && th'.companion == th.companion
    && (Owns(th'.pc) ==> Owns(th.pc))
    && (Inspected(th'.pc) ==> Inspected(th.pc))
    && (ProvedOwnerless(th'.pc) ==> ProvedOwnerless(th.pc))
    && (ActiveWriter(th'.pc) ==> ActiveWriter(th.pc))
  }

  lemma NamingStepsAreQuiet(p: Policy, fs: Fs, th: Thread, a: Action)
    requires ThreadCan(p, fs, th, a) && ChangesNames(a) && !a.OpenCompanion?
    ensures Quiet(th, ThreadDo(p, fs, th, a).1)
  {
  }

  lemma MostStepsAreQuiet(p: Policy, fs: Fs, th: Thread, a: Action)
    requires ThreadCan(p, fs, th, a)
    requires !a.OpenCompanion? && !a.TryLock? && !a.ReleaseCompanion?
    ensures Quiet(th, ThreadDo(p, fs, th, a).1)
  {
    if ChangesNames(a) { NamingStepsAreQuiet(p, fs, th, a); }
  }

  lemma PairOpenCompanion(p: Policy, fs: Fs, th: Thread, t: Tid, w: Thread, u: Tid)
    requires t != u && ThreadOk(p, fs, th, t) && ThreadOk(p, fs, w, u)
    requires UniqueOk(p, th, w) && OpensCompanion(th.pc)
    ensures var th' := OpenCompanionDo(fs, th).1;
      PairOk(th', w) && PairOk(w, th') && UniqueOk(p, th', w)
  {
  }

  lemma PairTryLock(p: Policy, fs: Fs, th: Thread, t: Tid, w: Thread, u: Tid)
    requires t != u && ThreadOk(p, fs, th, t) && ThreadOk(p, fs, w, u)
    requires PairOk(th, w) && UniqueOk(p, th, w) && TriesLock(th.pc) && th.companion !in fs.locks
    ensures var th' := th.(pc := AfterTryLock(th.pc));
      PairOk(th', w) && PairOk(w, th') && UniqueOk(p, th', w)
  {
  }

  lemma PairReleaseCompanion(p: Policy, fs: Fs, th: Thread, t: Tid, w: Thread, u: Tid)
    requires t != u && ThreadOk(p, fs, th, t) && ThreadOk(p, fs, w, u)
    requires PairOk(th, w) && UniqueOk(p, th, w) && (th.pc.CreateAborting? || th.pc.CleanLocked?)
    ensures var th' := th.(pc := AfterReleaseCompanion(th.pc));
      PairOk(th', w) && PairOk(w, th') && UniqueOk(p, th', w)
  {
  }

  /** Cleanups never draw a wrong conclusion about a live writer, and live writers never share a key. */
  lemma PairKept(p: Policy, fs: Fs, th: Thread, t: Tid, a: Action, w: Thread, u: Tid)
    requires t != u && ThreadOk(p, fs, th, t) && ThreadOk(p, fs, w, u)
    requires PairOk(th, w) && PairOk(w, th) && UniqueOk(p, th, w)
    requires ThreadCan(p, fs, th, a) && a.t == t
    ensures var th' := ThreadDo(p, fs, th, a).1;
      PairOk(th', w) && PairOk(w, th') && UniqueOk(p, th', w)
  {
    match a {
      case OpenCompanion(_) => PairOpenCompanion(p, fs, th, t, w, u);
      case TryLock(_) => PairTryLock(p, fs, th, t, w, u);
      case ReleaseCompanion(_) => PairReleaseCompanion(p, fs, th, t, w, u);
      case _ => MostStepsAreQuiet(p, fs, th, a);
    }
  }

  /** A step other than the rename leaves the target name alone, touches only its own temp's bytes and
      gives out temp names only on fresh inodes. */
  ghost predicate TargetFrame(fs: Fs, fs': Fs, k: Key) {
    && fs.next <= fs'.next
    && (TargetFile in fs'.names <==> TargetFile in fs.names)
    && (TargetFile in fs.names ==> fs'.names[TargetFile] == fs.names[TargetFile])
    && (forall q | Temp(q) in fs'.names ::
          Maps(fs, Temp(q), fs'.names[Temp(q)]) || fs.next <= fs'.names[Temp(q)])
    && (forall i: Inode | i < fs.next && !Maps(fs, Temp(k), i) :: ContentOf(fs', i) == ContentOf(fs, i))
  }

  lemma SameFilesFrame(fs: Fs, fs': Fs, k: Key)
    requires fs'.names == fs.names && fs'.content == fs.content && fs'.next == fs.next
    ensures TargetFrame(fs, fs', k)
  {
  }

  lemma OtherStepsKeepFiles(p: Policy, fs: Fs, th: Thread, a: Action)
    requires ThreadCan(p, fs, th, a) && !ChangesNames(a) && !a.Write?
    ensures var fs' := ThreadDo(p, fs, th, a).0;
      fs'.names == fs.names && fs'.content == fs.content && fs'.next == fs.next
  {
  }

  lemma NamingFramesTarget(p: Policy, fs: Fs, th: Thread, t: Tid, a: Action)
    requires ThreadOk(p, fs, th, t) && ThreadCan(p, fs, th, a) && ChangesNames(a) && !a.Rename?
    ensures TargetFrame(fs, ThreadDo(p, fs, th, a).0, th.key)
  {
  }

  lemma WriteFramesTarget(p: Policy, fs: Fs, th: Thread, t: Tid, a: Action)
    requires ThreadOk(p, fs, th, t) && ThreadCan(p, fs, th, a) && a.Write?
    ensures TargetFrame(fs, ThreadDo(p, fs, th, a).0, th.key)
  {
  }

  lemma StepFramesTarget(p: Policy, fs: Fs, th: Thread, t: Tid, a: Action)
    requires ThreadOk(p, fs, th, t) && ThreadCan(p, fs, th, a) && !a.Rename?
    ensures TargetFrame(fs, ThreadDo(p, fs, th, a).0, th.key)
  {
    if ChangesNames(a) {
      NamingFramesTarget(p, fs, th, t, a);
    } else if a.Write? {
      WriteFramesTarget(p, fs, th, t, a);
    } else {
      OtherStepsKeepFiles(p, fs, th, a);
      SameFilesFrame(fs, ThreadDo(p, fs, th, a).0, th.key);
    }
  }

  /** Published bytes survive every step, and the target is always the last thing published. */
  lemma PublishedKept(s: State, fs': Fs, k: Key, s': State)
    requires PublishedOk(s) && TargetFrame(s.fs, fs', k)
    requires s'.fs == fs' && s'.published == s.published && s'.log == s.log
    ensures PublishedOk(s')
  {
  }

  lemma PublishedByRename(p: Policy, s: State, a: Action)
    requires Inv(p, s) && Enabled(p, s, a) && a.Rename?
    ensures PublishedOk(Do(p, s, a))
  {
    assert ThreadOk(p, s.fs, s.threads[a.t], a.t);
  }

  /** Invariants about the whole state follow from those about the thread that moved. */
  lemma Assemble(p: Policy, s: State, s': State, t: Tid)
    requires Inv(p, s) && FsOk(s'.fs) && PublishedOk(s')
    requires t in s'.threads && s'.threads == s.threads[t := s'.threads[t]]
    requires ThreadOk(p, s'.fs, s'.threads[t], t)
    requires forall u | u in s.threads && u != t ::
      && ThreadOk(p, s'.fs, s.threads[u], u)
      && PairOk(s'.threads[t], s.threads[u]) && PairOk(s.threads[u], s'.threads[t])
      && UniqueOk(p, s'.threads[t], s.threads[u])
    ensures Inv(p, s')
  {
  }

  lemma FreshOk(p: Policy, fs: Fs, k: Key, o: bool, t: Tid, w: Thread)
    ensures ThreadOk(p, fs, Fresh(k, o, CreateStart), t) && ThreadOk(p, fs, Fresh(k, o, CleanStart), t)
    ensures PairOk(Fresh(k, o, CreateStart), w) && PairOk(w, Fresh(k, o, CreateStart))
    ensures PairOk(Fresh(k, o, CleanStart), w) && PairOk(w, Fresh(k, o, CleanStart))
  {
  }

  lemma Started(p: Policy, s: State, a: Action)
    requires Inv(p, s) && Enabled(p, s, a) && (a.StartCreate? || a.StartCleanup?)
    ensures Inv(p, Do(p, s, a))
  {
    var s' := Do(p, s, a);
    FreshOk(p, s.fs, a.key, s'.threads[a.t].orphan, a.t, s'.threads[a.t]);
    forall u | u in s.threads && u != a.t
      ensures PairOk(s'.threads[a.t], s.threads[u]) && PairOk(s.threads[u], s'.threads[a.t])
    {
      FreshOk(p, s.fs, a.key, s'.threads[a.t].orphan, a.t, s.threads[u]);
    }
    Assemble(p, s, s', a.t);
  }

  lemma Released(p: Policy, s: State, a: Action)
    requires Inv(p, s) && Enabled(p, s, a) && a.KernelRelease?
    ensures Inv(p, Do(p, s, a))
  {
    var s' := Do(p, s, a);
    var t := s.fs.locks[a.inode];
    OwnReleased(p, s.fs, s.threads[t], t, a.inode);
    forall u | u in s.threads && u != t
      ensures ThreadOk(p, s'.fs, s.threads[u], u)
    {
      UnlockKeeps(p, s.fs, s.threads[u], u, a.inode);
    }
    Assemble(p, s, s', t);
  }

  lemma OwnReleased(p: Policy, fs: Fs, th: Thread, t: Tid, i: Inode)
    requires ThreadOk(p, fs, th, t) && th.pc.Dead?
    ensures ThreadOk(p, Unlocked(fs, i), th, t)
  {
  }

  /** Every step of every participant keeps the invariant. */
  lemma StepKeepsInv(p: Policy, s: State, a: Action)
    requires Sound(p) && Inv(p, s) && Enabled(p, s, a)
    ensures Inv(p, Do(p, s, a))
  {
    if a.StartCreate? || a.StartCleanup? {
      Started(p, s, a);
    } else if a.KernelRelease? {
      Released(p, s, a);
    } else {
      ThreadStepKeepsInv(p, s, a);
    }
  }

  lemma ThreadStepKeepsInv(p: Policy, s: State, a: Action)
    requires Sound(p) && Inv(p, s) && Enabled(p, s, a)
    requires !a.StartCreate? && !a.StartCleanup? && !a.KernelRelease?
    ensures Inv(p, Do(p, s, a))
  {
    var s' := Do(p, s, a);
    var t, th := a.t, s.threads[a.t];
    var r := ThreadDo(p, s.fs, th, a);
    FsKept(p, s.fs, th, t, a);
    OwnKept(p, s.fs, th, t, a);
    forall u | u in s.threads && u != t
      ensures ThreadOk(p, r.0, s.threads[u], u)
      ensures PairOk(r.1, s.threads[u]) && PairOk(s.threads[u], r.1) && UniqueOk(p, r.1, s.threads[u])
    {
      OthersKept(p, s.fs, th, t, a, s.threads[u], u);
      PairKept(p, s.fs, th, t, a, s.threads[u], u);
    }
    if a.Rename? {
      PublishedByRename(p, s, a);
    } else {
      StepFramesTarget(p, s.fs, th, t, a);
      PublishedKept(s, r.0, th.key, s');
    }
    Assemble(p, s, s', t);
  }

  lemma InitKeepsInv(p: Policy, s: State)
    requires Init(s)
    ensures Inv(p, s)
  {
  }

  /** The invariant holds at every point of every run. */
  lemma {:induction false} RunKeepsInv(p: Policy, r: Run, i: nat)
    requires Sound(p) && IsRun(p, r) && i < |r.states|
    ensures Inv(p, r.states[i])
  {
    if i == 0 {
      InitKeepsInv(p, r.states[0]);
    } else {
      RunKeepsInv(p, r, i - 1);
      assert StepAt(p, r, i - 1);
      StepKeepsInv(p, r.states[i - 1], r.actions[i - 1]);
    }
  }

  // ---------------------------------------------------------------------------------------------
  // Main results
  // ---------------------------------------------------------------------------------------------

  /** At every point of every run a live writer's companion name is the inode it holds locked, and its
      temp name is still its own inode with exactly the bytes it wrote. */
  lemma LiveWriterKeepsItsFiles(p: Policy, r: Run, i: nat, t: Tid)
    requires Sound(p) && IsRun(p, r) && i < |r.states| && t in r.states[i].threads
    ensures var fs, th := r.states[i].fs, r.states[i].threads[t];
      && (Owns(th.pc) ==> Maps(fs, Companion(th.key), th.companion) && LockedBy(fs, th.companion, t))
      && (HasTemp(th) ==> Maps(fs, Temp(th.key), th.data) && ContentOf(fs, th.data) == th.written)
  {
    RunKeepsInv(p, r, i);
    assert ThreadOk(p, r.states[i].fs, r.states[i].threads[t], t);
  }

  predicate ActsFor(a: Action, t: Tid) {
    !a.KernelRelease? && a.t == t
  }

  /** So no step of anyone else, cleanups and crashes included, takes a live writer's temp away, puts
      another file in its place or changes its bytes. */
  lemma NobodyElseTouchesALiveTemp(p: Policy, r: Run, i: nat, t: Tid)
    requires Sound(p) && IsRun(p, r) && i < |r.actions| && t in r.states[i].threads
    requires HasTemp(r.states[i].threads[t]) && !ActsFor(r.actions[i], t)
    ensures var th := r.states[i].threads[t];
      && t in r.states[i + 1].threads && r.states[i + 1].threads[t] == th
      && Maps(r.states[i + 1].fs, Temp(th.key), th.data)
      && ContentOf(r.states[i + 1].fs, th.data) == ContentOf(r.states[i].fs, th.data)
  {
    assert StepAt(p, r, i);
    LiveWriterKeepsItsFiles(p, r, i, t);
    LiveWriterKeepsItsFiles(p, r, i + 1, t);
  }

  /** A cleanup that reaches the removal of a temp has no live owner to rob. */
  lemma CleanupRemovesOnlyOwnerlessTemps(p: Policy, r: Run, i: nat, c: Tid, w: Tid)
    requires Sound(p) && IsRun(p, r) && i < |r.states|
    requires c in r.states[i].threads && w in r.states[i].threads
    requires r.states[i].threads[c].pc.CleanTemp? && r.states[i].threads[c].key == r.states[i].threads[w].key
    ensures !Owns(r.states[i].threads[w].pc)
  {
    RunKeepsInv(p, r, i);
    if c != w {
      assert PairOk(r.states[i].threads[c], r.states[i].threads[w]);
    }
  }

  /** How one step changes the history: published bytes stay, and the log grows by renames only. */
  ghost predicate HistoryStep(s: State, a: Action, s': State) {
    && (forall i | i in s.published :: i in s'.published && s'.published[i] == s.published[i])
    && (if a.Rename?
        then a.t in s.threads && |s'.log| == |s.log| + 1 && s'.log[..|s.log|] == s.log
             && s'.log[|s.log|].writer == a.t && s'.log[|s.log|].bytes == s.threads[a.t].written
        else s'.log == s.log)
  }

  lemma HistoryGrows(p: Policy, s: State, a: Action)
    requires Inv(p, s) && Enabled(p, s, a)
    ensures HistoryStep(s, a, Do(p, s, a))
  {
  }

  lemma RunHistory(p: Policy, r: Run, i: nat)
    requires Sound(p) && IsRun(p, r) && i < |r.actions|
    ensures HistoryStep(r.states[i], r.actions[i], r.states[i + 1])
  {
    RunKeepsInv(p, r, i);
    assert StepAt(p, r, i);
    HistoryGrows(p, r.states[i], r.actions[i]);
  }

  lemma {:induction false} PublishedStays(p: Policy, r: Run, i: nat, j: nat, inode: Inode)
    requires Sound(p) && IsRun(p, r) && i <= j < |r.states|
    requires inode in r.states[i].published
    ensures inode in r.states[j].published
    ensures r.states[j].published[inode] == r.states[i].published[inode]
    decreases j
  {
    if i < j {
      PublishedStays(p, r, i, j - 1, inode);
      RunHistory(p, r, j - 1);
    }
  }

  /** No step changes the bytes of an inode that has been the target. */
  lemma PublishedBytesNeverChange(p: Policy, r: Run, i: nat, j: nat, inode: Inode)
    requires Sound(p) && IsRun(p, r) && i <= j < |r.states|
    requires Maps(r.states[i].fs, TargetFile, inode)
    ensures ContentOf(r.states[j].fs, inode) == ContentOf(r.states[i].fs, inode)
  {
    RunKeepsInv(p, r, i);
    RunKeepsInv(p, r, j);
    PublishedStays(p, r, i, j, inode);
  }

  /** The chunks that thread `t` has written by step `j` since it last opened its temp, in order. */
  function Written(r: Run, j: nat, t: Tid): Bytes
    requires j <= |r.actions|
  {
    if j == 0 then []
    else match r.actions[j - 1]
      case OpenTemp(u) => if u == t then [] else Written(r, j - 1, t)
      case Write(u, chunk) => if u == t then Written(r, j - 1, t) + chunk else Written(r, j - 1, t)
      case _ => Written(r, j - 1, t)
  }

  /** One step and what thread `t` remembers of its writing. */
  ghost predicate Remembers(s: State, t: Tid, bytes: Bytes) {
    if t in s.threads then s.threads[t].written == bytes else bytes == []
  }

  lemma StepRemembers(p: Policy, s: State, a: Action, t: Tid, bytes: Bytes)
    requires Enabled(p, s, a) && Remembers(s, t, bytes)
    ensures Remembers(Do(p, s, a), t,
      if a == OpenTemp(t) then [] else if a.Write? && a.t == t then bytes + a.chunk else bytes)
  {
    if !a.KernelRelease? && a.t == t && !a.StartCreate? && !a.StartCleanup? {
      StepWrites(p, s.fs, s.threads[t], a);
    }
  }

  lemma StepWrites(p: Policy, fs: Fs, th: Thread, a: Action)
    requires ThreadCan(p, fs, th, a)
    ensures ThreadDo(p, fs, th, a).1.written ==
      if a.OpenTemp? then [] else if a.Write? then th.written + a.chunk else th.written
  {
  }

  lemma {:induction false} RunRemembers(p: Policy, r: Run, j: nat, t: Tid)
    requires IsRun(p, r) && j < |r.states|
    ensures Remembers(r.states[j], t, Written(r, j, t))
  {
    if j > 0 {
      RunRemembers(p, r, j - 1, t);
      assert StepAt(p, r, j - 1);
      StepRemembers(p, r.states[j - 1], r.actions[j - 1], t, Written(r, j - 1, t));
    }
  }

  /** The steps before `i` that rename, in order. */
  function RenameSteps(r: Run, i: nat): (steps: seq<nat>)
    requires i <= |r.actions|
    ensures forall j: nat :: j in steps <==> j < i && r.actions[j].Rename?
    ensures forall n | 0 <= n < |steps| :: steps[n] < i && r.actions[steps[n]].Rename?
    ensures forall m, n | 0 <= m < n < |steps| :: steps[m] < steps[n]
  {
    if i == 0 then []
    else
      var before := RenameSteps(r, i - 1);
      assert forall m | 0 <= m < |before| :: before[m] in before;
      if r.actions[i - 1].Rename? then before + [i - 1] else before
  }

  /** The log is exactly the renames of the run so far, each once and in order, with the chunks the guard had
      written since it opened its temp. */
  lemma {:induction false} LogListsTheRenames(p: Policy, r: Run, i: nat)
    requires Sound(p) && IsRun(p, r) && i < |r.states|
    ensures |r.states[i].log| == |RenameSteps(r, i)|
    ensures forall n: nat | n < |r.states[i].log| :: RenameAt(r, RenameSteps(r, i)[n], r.states[i].log[n])
  {
    if i > 0 {
      LogListsTheRenames(p, r, i - 1);
      StepIsLogged(p, r, i - 1);
    }
  }

  /** A rename adds one entry to the log, with the chunks its guard wrote; no other step touches the log. */
  lemma StepIsLogged(p: Policy, r: Run, i: nat)
    requires Sound(p) && IsRun(p, r) && i < |r.actions|
    ensures var before, now := r.states[i].log, r.states[i + 1].log;
      if r.actions[i].Rename? then |now| == |before| + 1 && now[..|before|] == before && RenameAt(r, i, now[|before|])
      else now == before
  {
    RunHistory(p, r, i);
    if r.actions[i].Rename? { RunRemembers(p, r, i, r.actions[i].t); }
  }

  predicate RenameAt(r: Run, j: nat, e: Publication) {
    && j < |r.actions| && j < |r.states|
    && r.actions[j].Rename? && r.actions[j].t == e.writer && e.bytes == Written(r, j, e.writer)
  }

  /** The target, or its absence, as some state shows it. */
  function TargetView(s: State): seq<Bytes> {
    ViewOf(s.fs)
  }

  function ViewOf(fs: Fs): seq<Bytes> {
    if TargetFile in fs.names then [ContentOf(fs, fs.names[TargetFile])] else []
  }

  lemma FrameShowsTarget(s: State, fs': Fs, k: Key)
    requires PublishedOk(s) && TargetFrame(s.fs, fs', k)
    ensures ViewOf(fs') == ViewOf(s.fs)
  {
  }

  /** Steps that start a participant leave the files alone, the kernel only releases a lock, and the others
      do what the thread does. */
  lemma StepFiles(p: Policy, s: State, a: Action)
    requires Enabled(p, s, a) && !a.Rename?
    ensures a.StartCreate? || a.StartCleanup? ==> Do(p, s, a).fs == s.fs
    ensures a.KernelRelease? ==> Do(p, s, a).fs == Unlocked(s.fs, a.inode)
    ensures !a.StartCreate? && !a.StartCleanup? && !a.KernelRelease? ==>
      && a.t in s.threads && ThreadCan(p, s.fs, s.threads[a.t], a)
      && Do(p, s, a).fs == ThreadDo(p, s.fs, s.threads[a.t], a).0
  {
  }

  /** At every point of every run the target is what it was initially, or holds exactly the chunks that one
      guard wrote, one after another, between opening its temp and its rename. */
  lemma TargetHoldsOneGuardsBytes(p: Policy, r: Run, i: nat)
    requires Sound(p) && IsRun(p, r) && i < |r.states|
    ensures var steps := RenameSteps(r, i);
      if steps == [] then TargetView(r.states[i]) == TargetView(r.states[0])
      else
        var last := steps[|steps| - 1];
        TargetView(r.states[i]) == [Written(r, last, r.actions[last].t)]
  {
    RunKeepsInv(p, r, i);
    LogListsTheRenames(p, r, i);
    var log := r.states[i].log;
    if log == [] {
      UntouchedTarget(p, r, i);
    } else {
      assert RenameAt(r, RenameSteps(r, i)[|log| - 1], log[|log| - 1]);
    }
  }

  lemma {:induction false} UntouchedTarget(p: Policy, r: Run, i: nat)
    requires Sound(p) && IsRun(p, r) && i < |r.states| && r.states[i].log == []
    ensures TargetView(r.states[i]) == TargetView(r.states[0])
  {
    if i > 0 {
      var s, a := r.states[i - 1], r.actions[i - 1];
      assert StepAt(p, r, i - 1);
      RunKeepsInv(p, r, i - 1);
      RunHistory(p, r, i - 1);
      UntouchedTarget(p, r, i - 1);
      TargetUntouchedByStep(p, s, a);
    }
  }

  lemma TargetUntouchedByStep(p: Policy, s: State, a: Action)
    requires Inv(p, s) && Enabled(p, s, a) && !a.Rename?
    ensures TargetView(Do(p, s, a)) == TargetView(s)
  {
    StepFiles(p, s, a);
    if !a.StartCreate? && !a.StartCleanup? && !a.KernelRelease? {
      var th := s.threads[a.t];
      assert ThreadOk(p, s.fs, th, a.t);
      StepFramesTarget(p, s.fs, th, a.t, a);
      FrameShowsTarget(s, ThreadDo(p, s.fs, th, a).0, th.key);
    }
  }

  // ---------------------------------------------------------------------------------------------
  // The protocol is safe exactly under the sound policies
  // ---------------------------------------------------------------------------------------------

  ghost predicate TempSafe(s: State) {
    forall t | t in s.threads && HasTemp(s.threads[t]) ::
      Maps(s.fs, Temp(s.threads[t].key), s.threads[t].data)
  }

  ghost predicate AlwaysTempSafe(p: Policy) {
    forall r, i | IsRun(p, r) && 0 <= i < |r.states| :: TempSafe(r.states[i])
  }

  /** Some run ends in `s`. */
  ghost predicate Reached(p: Policy, s: State) {
    exists r :: IsRun(p, r) && r.states[|r.actions|] == s
  }

  lemma Take(p: Policy, s: State, a: Action) returns (n: State)
    requires Reached(p, s) && Enabled(p, s, a)
    ensures n == Do(p, s, a) && Reached(p, n)
  {
    n := Do(p, s, a);
    var r :| IsRun(p, r) && r.states[|r.actions|] == s;
    var longer := Run(r.states + [n], r.actions + [a]);
    forall i: nat | i < |longer.actions| ensures StepAt(p, longer, i) {
      if i < |r.actions| { assert StepAt(p, r, i); }
    }
    assert IsRun(p, longer);
  }

  /** Thread `t` is as given, and the others as before. */
  ghost predicate Becomes(s: State, n: State, t: Tid, th: Thread) {
    && n.threads.Keys == s.threads.Keys + {t} && n.threads[t] == th
    && forall u | u in s.threads && u != t :: n.threads[u] == s.threads[u]
  }

  predicate Starts(a: Action) {
    a.StartCreate? || a.StartCleanup?
  }

  lemma Start(p: Policy, s: State, a: Action) returns (n: State)
    requires Reached(p, s) && Starts(a) && Enabled(p, s, a)
    ensures Reached(p, n) && n.fs == s.fs
    ensures Becomes(s, n, a.t,
      if a.StartCreate? then Fresh(a.key, false, CreateStart) else Fresh(a.key, a.orphan, CleanStart))
  {
    n := Take(p, s, a);
  }

  lemma Act(p: Policy, s: State, a: Action, fs: Fs, th: Thread) returns (n: State)
    requires Reached(p, s) && !Starts(a) && !a.KernelRelease? && a.t in s.threads
    requires ThreadCan(p, s.fs, s.threads[a.t], a) && ThreadDo(p, s.fs, s.threads[a.t], a) == (fs, th)
    ensures Reached(p, n) && n.fs == fs && Becomes(s, n, a.t, th)
  {
    n := Take(p, s, a);
  }

  /** Open the templock and lock it. */
  lemma EntersSection(p: Policy, s: State, t: Tid) returns (n: State)
    requires Reached(p, s) && t in s.threads && OpensTemplock(s.threads[t].pc)
    requires OpenInode(s.fs, TemplockFile) !in s.fs.locks
    ensures Reached(p, n) && n.fs == Locked(WithName(s.fs, TemplockFile), OpenInode(s.fs, TemplockFile), t)
    ensures Becomes(s, n, t, Entered(s.threads[t], OpenInode(s.fs, TemplockFile)))
  {
    var th, i := s.threads[t], OpenInode(s.fs, TemplockFile);
    n := Act(p, s, OpenTemplock(t), WithName(s.fs, TemplockFile), th.(pc := AfterOpenTemplock(th.pc), section := i));
    n := Act(p, n, LockTemplock(t), Locked(n.fs, i, t), Entered(th, i));
  }

  function Entered(th: Thread, i: Inode): Thread {
    var waiting := th.(pc := AfterOpenTemplock(th.pc), section := i);
    waiting.(pc := AfterLockTemplock(waiting))
  }

  /** Lock the open companion and open the temp. */
  lemma OpensTemp(p: Policy, s: State, t: Tid) returns (n: State)
    requires Reached(p, s) && t in s.threads && s.threads[t].pc.CreateCompanion?
    requires s.threads[t].companion !in s.fs.locks
    ensures var th, i := s.threads[t], OpenInode(s.fs, Temp(s.threads[t].key));
      && Reached(p, n) && Becomes(s, n, t, th.(pc := CreateTemp, data := i, written := []))
      && n.fs == Truncated(WithName(Locked(s.fs, th.companion, t), Temp(th.key)), i)
  {
    var th, i := s.threads[t], OpenInode(s.fs, Temp(s.threads[t].key));
    n := Act(p, s, TryLock(t), Locked(s.fs, th.companion, t), th.(pc := CreateOwned));
    n := Act(p, n, OpenTemp(t), Truncated(WithName(n.fs, Temp(th.key)), i),
             th.(pc := CreateTemp, data := i, written := []));
  }

  /** ... and leave the section. */
  lemma OwnsTemp(p: Policy, s: State, t: Tid) returns (n: State)
    requires Reached(p, s) && t in s.threads && s.threads[t].pc.CreateCompanion?
    requires s.threads[t].companion !in s.fs.locks
    ensures var th, i := s.threads[t], OpenInode(s.fs, Temp(s.threads[t].key));
      && Reached(p, n) && Becomes(s, n, t, th.(pc := Holding, data := i, written := []))
      && n.fs == Unlocked(Truncated(WithName(Locked(s.fs, th.companion, t), Temp(th.key)), i), th.section)
  {
    var th, i := s.threads[t], OpenInode(s.fs, Temp(s.threads[t].key));
    n := OpensTemp(p, s, t);
    n := Act(p, n, LeaveSection(t), Unlocked(n.fs, th.section), th.(pc := Holding, data := i, written := []));
  }

  /** Start a writer and open its companion under the section. */
  lemma OpensCompanionFile(p: Policy, s: State, t: Tid, k: Key) returns (n: State)
    requires Reached(p, s) && CanStart(p, s, t, k) && OpenInode(s.fs, TemplockFile) !in s.fs.locks
    ensures var sec := OpenInode(s.fs, TemplockFile);
      var fs := Locked(WithName(s.fs, TemplockFile), sec, t);
      && Reached(p, n) && n.fs == WithName(fs, Companion(k))
      && Becomes(s, n, t, Thread(k, false, CreateCompanion, sec, OpenInode(fs, Companion(k)), 0, [], false, false))
  {
    var sec := OpenInode(s.fs, TemplockFile);
    n := Start(p, s, StartCreate(t, k));
    n := EntersSection(p, n, t);
    n := Act(p, n, OpenCompanion(t), WithName(n.fs, Companion(k)),
             Thread(k, false, CreateCompanion, sec, OpenInode(n.fs, Companion(k)), 0, [], false, false));
  }

  // ---------------------------------------------------------------------------------------------
  // A writer that meets nobody
  // ---------------------------------------------------------------------------------------------

  lemma WritesAndRenames(p: Policy, s: State, t: Tid, bytes: Bytes) returns (n: State)
    requires Reached(p, s) && t in s.threads && s.threads[t].pc.Holding? && Temp(s.threads[t].key) in s.fs.names
    ensures var th := s.threads[t];
      && Reached(p, n) && n.fs == Renamed(Appended(s.fs, th.data, bytes), Temp(th.key), TargetFile)
      && Becomes(s, n, t, th.(pc := DropStart, written := th.written + bytes, renamed := true, done := true))
  {
    var th := s.threads[t];
    var wrote := th.(written := th.written + bytes);
    n := Act(p, s, Write(t, bytes), Appended(s.fs, th.data, bytes), wrote);
    n := Act(p, n, CloseData(t), n.fs, wrote.(pc := Closed));
    n := Act(p, n, Action.Rename(t, true), Renamed(n.fs, Temp(th.key), TargetFile),
             wrote.(pc := DropStart, renamed := true, done := true));
  }

  lemma DropsGuard(p: Policy, s: State, t: Tid) returns (n: State)
    requires Reached(p, s) && t in s.threads && s.threads[t].pc == DropCompanion(true)
    ensures var th := s.threads[t];
      && Reached(p, n) && Becomes(s, n, t, th.(pc := Finished))
      && n.fs == Unlocked(Unlocked(Unlinked(s.fs, Companion(th.key)), th.section), th.companion)
  {
    var th := s.threads[t];
    n := UnlinksInSection(p, s, t);
    n := Act(p, n, CloseCompanion(t), Unlocked(n.fs, th.companion), th.(pc := Finished));
  }

  lemma UnlinksInSection(p: Policy, s: State, t: Tid) returns (n: State)
    requires Reached(p, s) && t in s.threads && s.threads[t].pc == DropCompanion(true)
    ensures Reached(p, n) && Becomes(s, n, t, s.threads[t].(pc := DropUnlock))
    ensures n.fs == Unlocked(Unlinked(s.fs, Companion(s.threads[t].key)), s.threads[t].section)
  {
    var th := s.threads[t];
    n := Act(p, s, UnlinkCompanion(t, true), Unlinked(s.fs, Companion(th.key)), th.(pc := DropLeaving));
    n := Act(p, n, LeaveSection(t), Unlocked(n.fs, th.section), th.(pc := DropUnlock));
  }

  /** Nobody holds the templock or the companion of `k`, and no inode to come is in use. */
  ghost predicate Free(fs: Fs, k: Key) {
    && FsOk(fs) && OpenInode(fs, TemplockFile) !in fs.locks
    && (Companion(k) in fs.names ==> fs.names[Companion(k)] !in fs.locks)
  }

  function WithCompanion(fs: Fs, t: Tid, k: Key): Fs {
    WithName(Locked(WithName(fs, TemplockFile), OpenInode(fs, TemplockFile), t), Companion(k))
  }

  function WithTemp(fs: Fs, t: Tid, k: Key, sec: Inode, c: Inode): Fs {
    Unlocked(Truncated(WithName(Locked(fs, c, t), Temp(k)), OpenInode(fs, Temp(k))), sec)
  }

  function WithTarget(fs: Fs, k: Key, d: Inode, bytes: Bytes): Fs
    requires Temp(k) in fs.names
  {
    Renamed(Appended(fs, d, bytes), Temp(k), TargetFile)
  }

  function WithoutGuard(fs: Fs, t: Tid, k: Key, sec: Inode, c: Inode): Fs {
    Unlocked(Unlocked(Unlinked(Locked(WithName(fs, TemplockFile), sec, t), Companion(k)), sec), c)
  }

  /** The guard's files, with nothing written yet and the section free. */
  ghost predicate IsCreated(fs: Fs, k: Key, sec: Inode, c: Inode, d: Inode) {
    && Maps(fs, TemplockFile, sec) && Maps(fs, Companion(k), c) && Maps(fs, Temp(k), d)
    && ContentOf(fs, d) == [] && sec !in fs.locks
  }

  lemma CompanionFiles(fs: Fs, t: Tid, k: Key)
    requires Free(fs, k)
    ensures var n := WithCompanion(fs, t, k);
      && FsOk(n) && Maps(n, TemplockFile, OpenInode(fs, TemplockFile)) && Companion(k) in n.names
      && n.names[Companion(k)] !in n.locks
  {
    var sec := OpenInode(fs, TemplockFile);
    SectionFiles(fs, t, k);
    OpensUnlocked(Locked(WithName(fs, TemplockFile), sec, t), k);
  }

  /** Taking the section leaves the companion's file, if there is one, unlocked. */
  lemma SectionFiles(fs: Fs, t: Tid, k: Key)
    requires Free(fs, k)
    ensures var n := Locked(WithName(fs, TemplockFile), OpenInode(fs, TemplockFile), t);
      && FsOk(n) && Maps(n, TemplockFile, OpenInode(fs, TemplockFile))
      && (Companion(k) in n.names ==> n.names[Companion(k)] !in n.locks)
  {
  }

  lemma OpensUnlocked(fs: Fs, k: Key)
    requires FsOk(fs) && (Companion(k) in fs.names ==> fs.names[Companion(k)] !in fs.locks)
    ensures var n := WithName(fs, Companion(k));
      && FsOk(n) && n.locks == fs.locks && Companion(k) in n.names
      && n.names[Companion(k)] == OpenInode(fs, Companion(k)) && n.names[Companion(k)] !in n.locks
      && (TemplockFile in fs.names ==> Maps(n, TemplockFile, fs.names[TemplockFile]))
  {
  }

  lemma TempFiles(fs: Fs, t: Tid, k: Key, sec: Inode, c: Inode)
    requires FsOk(fs) && Maps(fs, TemplockFile, sec) && Maps(fs, Companion(k), c)
    ensures IsCreated(WithTemp(fs, t, k, sec, c), k, sec, c, OpenInode(fs, Temp(k)))
  {
  }

  lemma CreatesAlone(p: Policy, s: State, t: Tid, k: Key) returns (n: State)
    requires Reached(p, s) && CanStart(p, s, t, k) && Free(s.fs, k)
    ensures Reached(p, n) && t in n.threads && n.threads[t].pc.Holding? && n.threads[t].key == k
    ensures IsCreated(n.fs, k, n.threads[t].section, n.threads[t].companion, n.threads[t].data)
  {
    CompanionFiles(s.fs, t, k);
    n := OpensCompanionFile(p, s, t, k);
    TempFiles(n.fs, t, k, n.threads[t].section, n.threads[t].companion);
    n := OwnsTemp(p, n, t);
  }

  lemma TargetFiles(fs: Fs, k: Key, sec: Inode, c: Inode, d: Inode, bytes: Bytes)
    requires IsCreated(fs, k, sec, c, d)
    ensures var n := WithTarget(fs, k, d, bytes);
      && Maps(n, TemplockFile, sec) && Temp(k) !in n.names && ViewOf(n) == [bytes] && sec !in n.locks
  {
    assert [] + bytes == bytes;
  }

  lemma GuardFiles(fs: Fs, t: Tid, k: Key, sec: Inode, c: Inode)
    requires Maps(fs, TemplockFile, sec) && Temp(k) !in fs.names
    ensures var n := WithoutGuard(fs, t, k, sec, c);
      && ViewOf(n) == ViewOf(fs) && Temp(k) !in n.names && Companion(k) !in n.names
      && OpenInode(n, TemplockFile) == sec && sec !in n.locks && c !in n.locks
  {
  }

  /** A guard that meets no obstacle publishes exactly its bytes and leaves neither temp, companion nor lock. */
  lemma SoloWriterPublishes(p: Policy, s: State, t: Tid, k: Key, bytes: Bytes) returns (n: State)
    requires Reached(p, s) && CanStart(p, s, t, k) && Free(s.fs, k)
    ensures Reached(p, n) && TargetView(n) == [bytes]
    ensures Temp(k) !in n.fs.names && Companion(k) !in n.fs.names && t in n.threads && n.threads[t].pc.Finished?
    ensures OpenInode(n.fs, TemplockFile) !in n.fs.locks && n.threads[t].companion !in n.fs.locks
  {
    n := CreatesAlone(p, s, t, k);
    var th := n.threads[t];
    TargetFiles(n.fs, k, th.section, th.companion, th.data, bytes);
    n := WritesAndRenames(p, n, t, bytes);
    GuardFiles(n.fs, t, k, th.section, th.companion);
    n := EntersSection(p, n, t);
    n := DropsGuard(p, n, t);
  }

  // ---------------------------------------------------------------------------------------------
  // A cleanup that meets nobody
  // ---------------------------------------------------------------------------------------------

  /** The companion can be locked, so nobody owns it: release it again. */
  lemma ReleasesUnowned(p: Policy, s: State, t: Tid) returns (n: State)
    requires Reached(p, s) && t in s.threads && s.threads[t].pc.CleanReady?
    requires Companion(s.threads[t].key) in s.fs.names && s.fs.names[Companion(s.threads[t].key)] !in s.fs.locks
    ensures var th, c := s.threads[t], s.fs.names[Companion(s.threads[t].key)];
      && Reached(p, n) && n.fs == Unlocked(Locked(s.fs, c, t), c)
      && Becomes(s, n, t, th.(pc := CleanUnlinking, companion := c))
  {
    var th, c := s.threads[t], s.fs.names[Companion(s.threads[t].key)];
    n := Act(p, s, OpenCompanion(t), s.fs, th.(pc := CleanCompanion, companion := c));
    n := Act(p, n, TryLock(t), Locked(n.fs, c, t), th.(pc := CleanLocked, companion := c));
    n := Act(p, n, ReleaseCompanion(t), Unlocked(n.fs, c), th.(pc := CleanUnlinking, companion := c));
  }

  lemma UnlinksBoth(p: Policy, s: State, t: Tid) returns (n: State)
    requires Reached(p, s) && t in s.threads && s.threads[t].pc.CleanUnlinking? && !s.threads[t].orphan
    ensures var th := s.threads[t];
      && Reached(p, n) && n.fs == Unlinked(Unlinked(s.fs, Companion(th.key)), Temp(th.key))
      && Becomes(s, n, t, th.(pc := CleanLeaving))
  {
    var th := s.threads[t];
    n := Act(p, s, UnlinkCompanion(t, true), Unlinked(s.fs, Companion(th.key)), th.(pc := CleanTemp));
    n := Act(p, n, UnlinkTemp(t, true), Unlinked(n.fs, Temp(th.key)), th.(pc := CleanLeaving));
  }

  lemma UnlinksTempOnly(p: Policy, s: State, t: Tid) returns (n: State)
    requires Reached(p, s) && t in s.threads && s.threads[t].pc.CleanReady? && !s.threads[t].orphan
    requires Companion(s.threads[t].key) !in s.fs.names
    ensures var th := s.threads[t];
      Reached(p, n) && n.fs == Unlinked(s.fs, Temp(th.key)) && Becomes(s, n, t, th.(pc := CleanLeaving))
  {
    var th := s.threads[t];
    n := Act(p, s, OpenCompanion(t), s.fs, th.(pc := CleanTemp));
    n := Act(p, n, UnlinkTemp(t, true), Unlinked(n.fs, Temp(th.key)), th.(pc := CleanLeaving));
  }

  /** Only the names of `k` are gone and only the templock may be new; no file changed and no lock is left. */
  ghost predicate WithoutPair(before: Fs, after: Fs, k: Key) {
    && Temp(k) !in after.names && Companion(k) !in after.names
    && (forall m | m in before.names && m != Temp(k) && m != Companion(k) ::
          Maps(after, m, before.names[m]) && ContentOf(after, before.names[m]) == ContentOf(before, before.names[m]))
    && (forall m | m in after.names :: m in before.names || m == TemplockFile)
    && OpenInode(after, TemplockFile) !in after.locks
    && forall i | i in after.locks :: i in before.locks && after.locks[i] == before.locks[i]
  }

  /** The same files with the templock, which thread `t` holds. */
  ghost predicate InSectionOf(before: Fs, fs: Fs, sec: Inode, t: Tid) {
    && sec !in before.locks && Maps(fs, TemplockFile, sec) && fs.locks == before.locks[sec := t]
    && (forall m | m in before.names ::
          Maps(fs, m, before.names[m]) && ContentOf(fs, before.names[m]) == ContentOf(before, before.names[m]))
    && forall m | m in fs.names :: m in before.names || m == TemplockFile
  }

  lemma TakesSection(fs: Fs, t: Tid, k: Key)
    requires Free(fs, k)
    ensures var sec := OpenInode(fs, TemplockFile);
      InSectionOf(fs, Locked(WithName(fs, TemplockFile), sec, t), sec, t)
  {
  }

  lemma PairGone(before: Fs, fs: Fs, sec: Inode, t: Tid, k: Key)
    requires InSectionOf(before, fs, sec, t)
    ensures WithoutPair(before, Unlocked(Unlinked(Unlinked(fs, Companion(k)), Temp(k)), sec), k)
    ensures Companion(k) !in before.names ==> WithoutPair(before, Unlocked(Unlinked(fs, Temp(k)), sec), k)
  {
  }

  lemma LockAndRelease(fs: Fs, c: Inode, t: Tid)
    requires c !in fs.locks
    ensures Unlocked(Locked(fs, c, t), c) == fs
  {
    assert fs.locks[c := t] - {c} == fs.locks;
  }

  lemma StartsCleaning(p: Policy, s: State, t: Tid, k: Key) returns (n: State)
    requires Reached(p, s) && t !in s.threads && Free(s.fs, k)
    ensures Reached(p, n) && InSectionOf(s.fs, n.fs, OpenInode(s.fs, TemplockFile), t) && t in n.threads
    ensures n.threads[t] == Fresh(k, false, CleanReady).(section := OpenInode(s.fs, TemplockFile))
    ensures Companion(k) in n.fs.names ==> n.fs.names[Companion(k)] !in n.fs.locks
  {
    TakesSection(s.fs, t, k);
    SectionFiles(s.fs, t, k);
    n := Start(p, s, StartCleanup(t, k, false));
    n := EntersSection(p, n, t);
  }

  lemma RemovesPair(p: Policy, s: State, t: Tid) returns (n: State)
    requires Reached(p, s) && t in s.threads && s.threads[t].pc.CleanReady? && !s.threads[t].orphan
    requires Companion(s.threads[t].key) in s.fs.names ==>
      s.fs.names[Companion(s.threads[t].key)] !in s.fs.locks
    ensures var th, k := s.threads[t], s.threads[t].key;
      && Reached(p, n) && t in n.threads && n.threads[t].pc.CleanLeaving? && n.threads[t].section == th.section
      && n.fs == if Companion(k) in s.fs.names then Unlinked(Unlinked(s.fs, Companion(k)), Temp(k))
                 else Unlinked(s.fs, Temp(k))
  {
    var k := s.threads[t].key;
    if Companion(k) in s.fs.names {
      LockAndRelease(s.fs, s.fs.names[Companion(k)], t);
      n := ReleasesUnowned(p, s, t);
      n := UnlinksBoth(p, n, t);
    } else {
      n := UnlinksTempOnly(p, s, t);
    }
  }

  /** A cleanup that meets nobody removes an unowned temp and its companion, whatever is left of the pair, and
      nothing else. */
  lemma SoloCleanupRemoves(p: Policy, s: State, t: Tid, k: Key) returns (n: State)
    requires Reached(p, s) && t !in s.threads && Free(s.fs, k)
    ensures Reached(p, n) && WithoutPair(s.fs, n.fs, k) && t in n.threads && n.threads[t].pc.Finished?
  {
    n := StartsCleaning(p, s, t, k);
    PairGone(s.fs, n.fs, n.threads[t].section, t, k);
    n := RemovesPair(p, n, t);
    var th := n.threads[t];
    n := Act(p, n, LeaveSection(t), Unlocked(n.fs, th.section), th.(pc := Finished));
  }

  /** A pass over orphan companions never unlinks a temp. */
  lemma OrphanPassSparesTemps(p: Policy, r: Run, i: nat)
    requires IsRun(p, r) && i < |r.actions| && r.actions[i].UnlinkTemp?
    ensures r.actions[i].t in r.states[i].threads && !r.states[i].threads[r.actions[i].t].orphan
  {
    assert StepAt(p, r, i);
    RunKeepsRoles(p, r, i);
  }

  /** Threads of the orphan pass are only at its program points. */
  predicate RoleOk(th: Thread) {
    th.orphan ==>
      || th.pc.CleanStart? || th.pc.CleanOpened? || th.pc.CleanCheck? || th.pc.CleanReady? || th.pc.CleanCompanion?
      || th.pc.CleanLocked? || th.pc.CleanUnlinking? || th.pc.CleanLeaving? || th.pc.Finished? || th.pc.Dead?
  }

  lemma StepKeepsRole(p: Policy, fs: Fs, th: Thread, a: Action)
    requires ThreadCan(p, fs, th, a) && RoleOk(th)
    ensures RoleOk(ThreadDo(p, fs, th, a).1)
  {
  }

  lemma {:induction false} RunKeepsRoles(p: Policy, r: Run, i: nat)
    requires IsRun(p, r) && i < |r.states|
    ensures forall t | t in r.states[i].threads :: RoleOk(r.states[i].threads[t])
  {
    if i > 0 {
      RunKeepsRoles(p, r, i - 1);
      assert StepAt(p, r, i - 1);
      var s, a := r.states[i - 1], r.actions[i - 1];
      if !Starts(a) && !a.KernelRelease? { StepKeepsRole(p, s.fs, s.threads[a.t], a); }
    }
  }

  // ---------------------------------------------------------------------------------------------
  // How it goes wrong otherwise
  // ---------------------------------------------------------------------------------------------

  const BAD := Policy(true, false)
  const K := Key(0, 0)

  function Writer(pc: Pc, companion: Inode, data: Inode): Thread {
    Thread(K, false, pc, 0, companion, data, [], false, false)
  }

  /** Drop the guard without the section. */
  lemma GivesUp(s: State, t: Tid, i: Inode) returns (n: State)
    requires Reached(BAD, s) && t in s.threads && s.threads[t] == Writer(Holding, 1, i)
    ensures Reached(BAD, n) && n.fs == s.fs && Becomes(s, n, t, Writer(DropTemp(false), 1, i))
  {
    n := Act(BAD, s, CloseData(t), s.fs, Writer(Closed, 1, i));
    n := Act(BAD, n, GiveUp(t), s.fs, Writer(DropStart, 1, i));
    n := Act(BAD, n, SectionUnavailable(t), s.fs, Writer(DropTemp(false), 1, i));
  }

  lemma Drops(s: State, t: Tid, i: Inode) returns (n: State)
    requires Reached(BAD, s) && t in s.threads && s.threads[t] == Writer(DropTemp(false), 1, i)
    ensures Reached(BAD, n) && Becomes(s, n, t, Writer(Finished, 1, i))
    ensures n.fs == Unlocked(Unlinked(Unlinked(s.fs, Temp(K)), Companion(K)), 1)
  {
    n := Act(BAD, s, UnlinkTemp(t, true), Unlinked(s.fs, Temp(K)), Writer(DropCompanion(false), 1, i));
    n := Act(BAD, n, UnlinkCompanion(t, true), Unlinked(n.fs, Companion(K)), Writer(DropUnlock, 1, i));
    n := Act(BAD, n, CloseCompanion(t), Unlocked(n.fs, 1), Writer(Finished, 1, i));
  }

  /** A cleanup in the section finds no companion and removes the temp. */
  lemma CleansUp(s: State, t: Tid) returns (n: State)
    requires Reached(BAD, s) && t in s.threads && s.threads[t] == Writer(CleanReady, 0, 0)
    requires Companion(K) !in s.fs.names
    ensures Reached(BAD, n) && n.fs == Unlinked(s.fs, Temp(K))
    ensures Becomes(s, n, t, Writer(CleanLeaving, 0, 0))
  {
    n := Act(BAD, s, OpenCompanion(t), s.fs, Writer(CleanTemp, 0, 0));
    n := Act(BAD, n, UnlinkTemp(t, true), Unlinked(n.fs, Temp(K)), Writer(CleanLeaving, 0, 0));
  }

  lemma LeftoverDirectory() returns (s: State)
    ensures Reached(BAD, s) && s.threads == map[] && s.fs.locks == map[] && s.fs.next == 3
    ensures Maps(s.fs, TemplockFile, 0) && Maps(s.fs, Companion(K), 1) && Maps(s.fs, Temp(K), 2)
  {
    s := State(Fs(map[TemplockFile := 0, Companion(K) := 1, Temp(K) := 2], map[], map[], 3), map[], map[], []);
    assert IsRun(BAD, Run([s], []));
  }

  /** Writer 0 holds its temp and starts to drop its guard without the section ... */
  lemma Writer0GivesUp() returns (s: State)
    ensures Reached(BAD, s) && s.threads == map[0 := Writer(DropTemp(false), 1, 2)] && s.fs.next == 3
    ensures Maps(s.fs, TemplockFile, 0) && Maps(s.fs, Companion(K), 1) && 0 !in s.fs.locks
  {
    s := LeftoverDirectory();
    s := OpensCompanionFile(BAD, s, 0, K);
    s := OwnsTemp(BAD, s, 0);
    s := GivesUp(s, 0, 2);
  }

  /** ... while writer 1, under the same key, sits between opening the companion and locking it. */
  lemma Writer1Overtaken() returns (s: State)
    ensures Reached(BAD, s) && 1 in s.threads && s.threads[1] == Writer(CreateCompanion, 1, 0) && 2 !in s.threads
    ensures Maps(s.fs, TemplockFile, 0) && Companion(K) !in s.fs.names && Temp(K) !in s.fs.names
    ensures s.fs.next == 3 && 1 !in s.fs.locks
  {
    s := Writer0GivesUp();
    s := OpensCompanionFile(BAD, s, 1, K);
    s := Drops(s, 0, 2);
  }

  /** Writer 1 ends up holding a lock on an unlinked inode ... */
  lemma Writer1Holds() returns (s: State)
    ensures Reached(BAD, s) && 1 in s.threads && s.threads[1] == Writer(Holding, 1, 3) && 2 !in s.threads
    ensures Maps(s.fs, TemplockFile, 0) && Companion(K) !in s.fs.names && 0 !in s.fs.locks
  {
    s := Writer1Overtaken();
    s := OwnsTemp(BAD, s, 1);
  }

  /** ... and cleanup 2 deletes its temp. */
  lemma BadRun() returns (r: Run)
    ensures IsRun(BAD, r) && !TempSafe(r.states[|r.actions|])
  {
    var s := Writer1Holds();
    s := Start(BAD, s, StartCleanup(2, K, false));
    s := EntersSection(BAD, s, 2);
    s := CleansUp(s, 2);
    r :| IsRun(BAD, r) && r.states[|r.actions|] == s;
    assert s.threads[1] == Writer(Holding, 1, 3) && Temp(K) !in s.fs.names;
  }

  /** Every live temp is safe in every run if and only if drops always run in the section or live writers
      never share a key. */
  lemma SafeExactlyUnderSoundPolicies(p: Policy)
    ensures AlwaysTempSafe(p) <==> Sound(p)
  {
    if Sound(p) {
      forall r, i | IsRun(p, r) && 0 <= i < |r.states|
        ensures TempSafe(r.states[i])
      {
        RunKeepsInv(p, r, i);
      }
    } else {
      assert p == BAD;
      var r := BadRun();
    }
  }
}
