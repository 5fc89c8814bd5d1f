/**
 The sweep that kills leaked pluggable-transport children by an exact ownership token.  Between any two
 system calls the operating system may start, replace, end and reap processes and hand out their pids again.
 */
module KillSweep {
  import opened Text

  type Pid = nat

  /** A process identity: unlike a pid, never used twice. */
  type Ident = nat

  /** Processes that still have a pid, each with its raw environment; a zombie keeps its pid but no longer has
      a readable environment. */
  datatype Os = Os(table: map<Pid, Ident>, environ: map<Ident, string>, next: Ident)

  datatype OsEvent =
    | Spawn(pid: Pid, environ: string)
    | Exec(pid: Pid, environ: string)
    | Exit(pid: Pid)
    | Reap(pid: Pid)

  function Apply(os: Os, e: OsEvent): Os {
    match e
    case Spawn(pid, env) =>
      if pid in os.table then os
      else Os(os.table[pid := os.next], os.environ[os.next := env], os.next + 1)
    case Exec(pid, env) =>
      if pid in os.table && os.table[pid] in os.environ
      then os.(environ := os.environ[os.table[pid] := env]) else os
    case Exit(pid) =>
      if pid in os.table then os.(environ := os.environ - {os.table[pid]}) else os
    case Reap(pid) =>
      if pid in os.table then os.(table := os.table - {pid}, environ := os.environ - {os.table[pid]}) else os
  }

  function ApplyAll(os: Os, es: seq<OsEvent>): Os {
    if es == [] then os else Apply(ApplyAll(os, es[..|es| - 1]), es[|es| - 1])
  }

  ghost predicate Valid(os: Os) {
    && (forall p | p in os.table :: os.table[p] < os.next)
    && (forall p, q | p in os.table && q in os.table && os.table[p] == os.table[q] :: p == q)
  }

  // ---------------------------------------------------------------------------------------------
  // Ownership tokens
  // ---------------------------------------------------------------------------------------------

  const STATE_LOCATION_KEY := "TOR_PT_STATE_LOCATION"

  /** The position of the first `=`, or the length when there is none. */
  function FirstEquals(entry: string): (k: nat)
    ensures k <= |entry| && '=' !in entry[..k] && (k < |entry| ==> entry[k] == '=')
  {
    if entry == "" || entry[0] == '=' then 0
    else
      var k := FirstEquals(entry[1..]);
      assert entry[..k + 1] == [entry[0]] + entry[1..][..k];
      k + 1
  }

  /** The value of an entry `KEY=VALUE` with the wanted key, split at its first `=`. */
  function EntryValue(entry: string): Option<string> {
    var k := FirstEquals(entry);
    if k < |entry| && entry[..k] == STATE_LOCATION_KEY then Some(entry[k + 1..]) else None
  }

  function FirstValue(entries: seq<string>): Option<string> {
    if entries == [] then None
    else if EntryValue(entries[0]).Some? then EntryValue(entries[0]) else FirstValue(entries[1..])
  }

  /** `environ_state_location` on a raw blob of NUL-separated entries. */
  function StateLocation(environ: string): Option<string> {
    FirstValue(Split(environ, '\0'))
  }

  lemma {:induction false} FirstEqualsAt(key: string, rest: string)
    requires '=' !in key
    ensures FirstEquals(key + "=" + rest) == |key|
  {
    if key == "" {
      assert key + "=" + rest == "=" + rest;
    } else {
      FirstEqualsAt(key[1..], rest);
      assert (key + "=" + rest)[1..] == key[1..] + "=" + rest;
    }
  }

  /** An entry carries a value exactly when it is the key, `=` and that value; the value may hold `=`. */
  lemma EntryValueIs(entry: string, v: string)
    ensures EntryValue(entry) == Some(v) <==> entry == STATE_LOCATION_KEY + "=" + v
  {
    FirstEqualsAt(STATE_LOCATION_KEY, v);
    var whole, k := STATE_LOCATION_KEY + "=" + v, FirstEquals(entry);
    assert whole[..|STATE_LOCATION_KEY|] == STATE_LOCATION_KEY && whole[|STATE_LOCATION_KEY| + 1..] == v;
    if k < |entry| { assert entry == entry[..k] + "=" + entry[k + 1..]; }
  }

  /** The token found is the value of the first entry with the key: some entry is exactly `KEY=v`, and no
      earlier entry has the key at all. */
  ghost predicate FirstWithKey(entries: seq<string>, i: nat, v: string) {
    && i < |entries| && entries[i] == STATE_LOCATION_KEY + "=" + v
    && forall j, w | 0 <= j < i :: entries[j] != STATE_LOCATION_KEY + "=" + w
  }

  lemma {:induction false} FirstValueIs(entries: seq<string>, v: string)
    ensures FirstValue(entries) == Some(v) <==> exists i: nat :: FirstWithKey(entries, i, v)
  {
    if entries != [] {
      var rest := entries[1..];
      forall w { EntryValueIs(entries[0], w); }
      FirstValueIs(rest, v);
      if EntryValue(entries[0]).Some? {
        assert entries[0] == STATE_LOCATION_KEY + "=" + EntryValue(entries[0]).value;
        if EntryValue(entries[0]) == Some(v) { assert FirstWithKey(entries, 0, v); }
      } else {
        if i: nat :| FirstWithKey(rest, i, v) { assert FirstWithKey(entries, i + 1, v); }
        if i: nat :| FirstWithKey(entries, i, v) {
          assert i > 0;
          assert forall j | 0 <= j < i - 1 :: rest[j] == entries[j + 1];
          assert FirstWithKey(rest, i - 1, v);
        }
      }
    }
  }

  ghost predicate CarriesFirst(environ: string, v: string) {
    var entries := Split(environ, '\0');
    exists i: nat :: FirstWithKey(entries, i, v)
  }

  lemma StateLocationIsTheFirstEntry(environ: string, v: string)
    ensures StateLocation(environ) == Some(v) <==> CarriesFirst(environ, v)
  {
    var entries := Split(environ, '\0');
    FirstValueIs(entries, v);
  }

  datatype Child = Child(pid: Pid, ppid: Pid, location: Option<string>)

  predicate IsOwned(c: Child, myPid: Pid, token: string) {
    c.ppid == myPid && c.pid != myPid && c.pid != 0 && c.location == Some(token)
  }

  /** Selection: own direct children carrying exactly the token, in order; nothing for an empty token. */
  function OwnedProcessTargets(children: seq<Child>, myPid: Pid, token: string): seq<Pid> {
    if token == "" || children == [] then []
    else OwnedProcessTargets(children[..|children| - 1], myPid, token)
         + (if IsOwned(children[|children| - 1], myPid, token) then [children[|children| - 1].pid] else [])
  }

  lemma {:induction false} TargetsAreTheOwned(children: seq<Child>, myPid: Pid, token: string, p: Pid)
    ensures p in OwnedProcessTargets(children, myPid, token) <==>
      && token != "" && p != 0 && p != myPid
      && exists c :: c in children && c.pid == p && c.ppid == myPid && c.location == Some(token)
  {
    if token != "" && children != [] {
      var front, last := children[..|children| - 1], children[|children| - 1];
      TargetsAreTheOwned(front, myPid, token, p);
      assert children == front + [last];
    }
  }

  /** The targets keep the order of the children. */
  lemma {:induction false} TargetsKeepOrder(a: seq<Child>, b: seq<Child>, myPid: Pid, token: string)
    ensures OwnedProcessTargets(a + b, myPid, token) ==
      OwnedProcessTargets(a, myPid, token) + OwnedProcessTargets(b, myPid, token)
  {
    if b == [] {
      assert a + b == a;
    } else if token != "" {
      TargetsKeepOrder(a, b[..|b| - 1], myPid, token);
      assert (a + b)[..|a + b| - 1] == a + b[..|b| - 1];
    }
  }

  // ---------------------------------------------------------------------------------------------
  // The sweep
  // ---------------------------------------------------------------------------------------------

  datatype OpenError = Unsupported | OtherErrno(errno: int)

  /** What happens while one target is handled: events before each system call, and calls that fail for
      reasons of their own. */
  datatype Turn = Turn(
    beforeOpen: seq<OsEvent>, openFault: Option<OpenError>,
    beforeRead: seq<OsEvent>, unreadable: bool,
    beforeKill: seq<OsEvent>, killFault: Option<int>)

  datatype SweepFailure = SignalFailed(pid: Pid, errno: int) | PidfdUnsupported

  datatype Report = Report(killed: nat, alreadyGone: nat, failures: seq<SweepFailure>)

  /** A target is visited with exactly one of these results. */
  datatype Outcome = Killed(victim: Ident) | Gone | Failed(failure: SweepFailure) | Skipped

  function AtOpen(os: Os, t: Turn): Os { ApplyAll(os, t.beforeOpen) }
  function AtRead(os: Os, t: Turn): Os { ApplyAll(AtOpen(os, t), t.beforeRead) }
  function AtKill(os: Os, t: Turn): Os { ApplyAll(AtRead(os, t), t.beforeKill) }

  /** `revalidate(pid)`: the state location of whichever process has the pid now. */
  function Revalidate(os: Os, pid: Pid): Option<string> {
    if pid in os.table && os.table[pid] in os.environ then StateLocation(os.environ[os.table[pid]]) else None
  }

  /** Open a handle, revalidate by pid, signal through the handle. */
  function OutcomeOf(os: Os, t: Turn, pid: Pid, token: string): Outcome {
    match t.openFault
    case Some(Unsupported) => Failed(PidfdUnsupported)
    case Some(OtherErrno(e)) => Failed(SignalFailed(pid, e))
    case None =>
      if pid !in AtOpen(os, t).table then Gone
      else
        var handle := AtOpen(os, t).table[pid];
        if t.unreadable || Revalidate(AtRead(os, t), pid) != Some(token) then Skipped
        else if t.killFault.Some? then Failed(SignalFailed(pid, t.killFault.value))
        else if handle in AtKill(os, t).table.Values then Killed(handle) else Gone
  }

  /** The state of the system when target `i` is reached. */
  function Before(os: Os, turns: seq<Turn>, i: nat): Os
    requires i <= |turns|
  {
    if i == 0 then os else AtKill(Before(os, turns, i - 1), turns[i - 1])
  }

  /** The outcomes of the visited ones among the first `n` targets, in order: all of them, or up to the first
      that found no pidfd support. */
  function Outcomes(os: Os, targets: seq<Pid>, turns: seq<Turn>, token: string, n: nat): seq<Outcome>
    requires n <= |targets| == |turns|
  {
    if n == 0 then []
    else
      var earlier := Outcomes(os, targets, turns, token, n - 1);
      if Stopped(earlier) then earlier
      else earlier + [OutcomeOf(Before(os, turns, n - 1), turns[n - 1], targets[n - 1], token)]
  }

  predicate Stopped(outcomes: seq<Outcome>) {
    outcomes != [] && outcomes[|outcomes| - 1] == Failed(PidfdUnsupported)
  }

  function Tally(outcomes: seq<Outcome>): Report {
    if outcomes == [] then Report(0, 0, [])
    else Count(Tally(outcomes[..|outcomes| - 1]), outcomes[|outcomes| - 1])
  }

  function Count(r: Report, o: Outcome): Report {
    match o
    case Killed(_) => r.(killed := r.killed + 1)
    case Gone => r.(alreadyGone := r.alreadyGone + 1)
    case Failed(f) => r.(failures := r.failures + [f])
    case Skipped => r
  }

  lemma TallyMore(done: seq<Outcome>, o: Outcome)
    ensures Tally(done + [o]) == Count(Tally(done), o)
  {
    assert (done + [o])[..|done|] == done;
  }

  /** One target: open, revalidate, signal, and count what happened. */
  method SweepOne(now: Os, t: Turn, pid: Pid, token: string, before: Report) returns (report: Report, stop: bool)
    ensures report == Count(before, OutcomeOf(now, t, pid, token))
    ensures stop == (OutcomeOf(now, t, pid, token) == Failed(PidfdUnsupported))
  {
    report, stop := before, false;
    match t.openFault {
      case Some(Unsupported) =>
        report, stop := report.(failures := report.failures + [PidfdUnsupported]), true;
      case Some(OtherErrno(e)) =>
        report := report.(failures := report.failures + [SignalFailed(pid, e)]);
      case None =>
        var atOpen := AtOpen(now, t);
        if pid !in atOpen.table {
          report := report.(alreadyGone := report.alreadyGone + 1);
          return;
        }
        var handle := atOpen.table[pid];
        if t.unreadable || Revalidate(AtRead(now, t), pid) != Some(token) {
          return;
        }
        if t.killFault.Some? {
          report := report.(failures := report.failures + [SignalFailed(pid, t.killFault.value)]);
        } else if handle in AtKill(now, t).table.Values {
          report := report.(killed := report.killed + 1);
        } else {
          report := report.(alreadyGone := report.alreadyGone + 1);
        }
    }
  }

  /** `sweep_owned_children`: the loop over the targets, keeping only the report.  `asked` records the pids a handle
      was asked for: the visited targets, in order. */
  method SweepOwnedChildren(os: Os, targets: seq<Pid>, turns: seq<Turn>, token: string)
    returns (report: Report, asked: seq<Pid>)
    requires |targets| == |turns|
    ensures var outcomes := Outcomes(os, targets, turns, token, |targets|);
      report == Tally(outcomes) && |outcomes| <= |targets| && asked == targets[..|outcomes|]
  {
    report, asked := Report(0, 0, []), [];
    var now := os;
    for i := 0 to |targets|
      invariant now == Before(os, turns, i) && !Stopped(Outcomes(os, targets, turns, token, i))
      invariant Sweeping(os, targets, turns, token, i, report, asked)
    {
      ghost var before := report;
      var stop;
      report, stop := SweepOne(now, turns[i], targets[i], token, report);
      SweepMore(os, targets, turns, token, i, before, asked, OutcomeOf(now, turns[i], targets[i], token));
      asked := asked + [targets[i]];
      if stop {
        StaysStopped(os, targets, turns, token, i + 1, |targets|);
        return;
      }
      now := AtKill(now, turns[i]);
    }
  }

  ghost predicate Sweeping(
    os: Os, targets: seq<Pid>, turns: seq<Turn>, token: string, i: nat, report: Report, asked: seq<Pid>)
    requires i <= |targets| == |turns|
  {
    var outcomes := Outcomes(os, targets, turns, token, i);
    report == Tally(outcomes) && |outcomes| == i && asked == targets[..i]
  }

  lemma SweepMore(
    os: Os, targets: seq<Pid>, turns: seq<Turn>, token: string, i: nat, report: Report, asked: seq<Pid>, o: Outcome)
    requires i < |targets| == |turns| && Sweeping(os, targets, turns, token, i, report, asked)
    requires !Stopped(Outcomes(os, targets, turns, token, i))
    requires o == OutcomeOf(Before(os, turns, i), turns[i], targets[i], token)
    ensures Sweeping(os, targets, turns, token, i + 1, Count(report, o), asked + [targets[i]])
    ensures Stopped(Outcomes(os, targets, turns, token, i + 1)) <==> o == Failed(PidfdUnsupported)
  {
    TallyMore(Outcomes(os, targets, turns, token, i), o);
  }

  lemma {:induction false} StaysStopped(os: Os, targets: seq<Pid>, turns: seq<Turn>, token: string, m: nat, n: nat)
    requires m <= n <= |targets| == |turns|
    requires Stopped(Outcomes(os, targets, turns, token, m))
    ensures Outcomes(os, targets, turns, token, n) == Outcomes(os, targets, turns, token, m)
    decreases n
  {
    if m < n { StaysStopped(os, targets, turns, token, m, n - 1); }
  }

  /** Without pidfd support no handle is asked for, nobody is counted as killed, and the report says why. */
  method SweepWithPidfdGate(os: Os, targets: seq<Pid>, turns: seq<Turn>, token: string, supported: bool)
    returns (report: Report, asked: seq<Pid>)
    requires |targets| == |turns|
    ensures asked <= targets && report.killed + report.alreadyGone <= |asked|
    ensures !supported ==> asked == [] && report.failures == [PidfdUnsupported]
    ensures supported ==>
      report == Tally(Outcomes(os, targets, turns, token, |targets|))
      && |asked| == |Outcomes(os, targets, turns, token, |targets|)|
  {
    if !supported {
      return Report(0, 0, [PidfdUnsupported]), [];
    }
    report, asked := SweepOwnedChildren(os, targets, turns, token);
    EachVisitCountedOnce(Outcomes(os, targets, turns, token, |targets|));
  }

  // ---------------------------------------------------------------------------------------------
  // Identities and pids over time
  // ---------------------------------------------------------------------------------------------

  lemma EventKeepsValid(os: Os, e: OsEvent)
    requires Valid(os)
    ensures Valid(Apply(os, e)) && os.next <= Apply(os, e).next
    ensures forall p | p in Apply(os, e).table && Apply(os, e).table[p] < os.next ::
      p in os.table && os.table[p] == Apply(os, e).table[p]
  {
  }

  /** A process that still has a pid has had that same pid all along. */
  lemma {:induction false} PidIsStable(os: Os, es: seq<OsEvent>)
    requires Valid(os)
    ensures Valid(ApplyAll(os, es)) && os.next <= ApplyAll(os, es).next
    ensures forall p | p in ApplyAll(os, es).table && ApplyAll(os, es).table[p] < os.next ::
      p in os.table && os.table[p] == ApplyAll(os, es).table[p]
  {
    if es != [] {
      PidIsStable(os, es[..|es| - 1]);
      EventKeepsValid(ApplyAll(os, es[..|es| - 1]), es[|es| - 1]);
    }
  }

  ghost predicate Names(os: Os, pid: Pid, who: Ident) {
    pid in os.table && os.table[pid] == who
  }

  /** The process has the pid and its environment carries exactly the token. */
  ghost predicate Owns(os: Os, pid: Pid, who: Ident, token: string) {
    Names(os, pid, who) && who in os.environ && StateLocation(os.environ[who]) == Some(token)
  }

  lemma StillNamed(os: Os, first: seq<OsEvent>, second: seq<OsEvent>, pid: Pid, who: Ident)
    requires Valid(os) && Names(os, pid, who)
    ensures var mid := ApplyAll(os, first);
      var end := ApplyAll(mid, second);
      && (who in end.table.Values <==> Names(end, pid, who))
      && (Names(end, pid, who) ==> Names(mid, pid, who))
  {
    var mid := ApplyAll(os, first);
    var end := ApplyAll(mid, second);
    PidIsStable(os, first);
    PidIsStable(mid, second);
    if who in end.table.Values {
      var p :| p in end.table && end.table[p] == who;
      assert mid.table[p] == who;
      assert os.table[p] == who;
    }
  }

  /** A process is killed exactly when no call failed and it had the pid when the handle was opened, still had
      it together with the token at revalidation, and had not been reaped when the signal was sent. */
  lemma KilledExactlyWhenOwned(os: Os, t: Turn, pid: Pid, token: string, victim: Ident)
    requires Valid(os)
    ensures OutcomeOf(os, t, pid, token) == Killed(victim) <==>
      && t.openFault.None? && !t.unreadable && t.killFault.None?
      && Names(AtOpen(os, t), pid, victim)
      && Owns(AtRead(os, t), pid, victim, token)
      && Names(AtKill(os, t), pid, victim)
  {
    PidIsStable(os, t.beforeOpen);
    if Names(AtOpen(os, t), pid, victim) {
      StillNamed(AtOpen(os, t), t.beforeRead, t.beforeKill, pid, victim);
    }
  }

  /** The other outcomes.  A target is gone if no process had its pid, or if the process that had it was reaped
      before the signal; it is skipped if the environment cannot be read or whoever has the pid by then does not
      carry the token; and a failure is that of the call that failed. */
  lemma OtherwiseExactly(os: Os, t: Turn, pid: Pid, token: string)
    requires Valid(os)
    ensures var o, named := OutcomeOf(os, t, pid, token), pid in AtOpen(os, t).table;
      var owned := !t.unreadable && exists w :: Owns(AtRead(os, t), pid, w, token);
      && (o.Gone? <==>
            && t.openFault.None?
            && (!named || (owned && t.killFault.None? && !Names(AtKill(os, t), pid, AtOpen(os, t).table[pid]))))
      && (o.Skipped? <==> t.openFault.None? && named && !owned)
      && (forall f :: o == Failed(f) <==>
            || (t.openFault == Some(Unsupported) && f == PidfdUnsupported)
            || (t.openFault.Some? && t.openFault.value.OtherErrno? && f == SignalFailed(pid, t.openFault.value.errno))
            || (t.openFault.None? && named && owned && t.killFault.Some? && f == SignalFailed(pid, t.killFault.value)))
  {
    PidIsStable(os, t.beforeOpen);
    var read := AtRead(os, t);
    if pid in AtOpen(os, t).table {
      StillNamed(AtOpen(os, t), t.beforeRead, t.beforeKill, pid, AtOpen(os, t).table[pid]);
    }
    assert (exists w :: Owns(read, pid, w, token)) <==> Revalidate(read, pid) == Some(token) by {
      if Revalidate(read, pid) == Some(token) { assert Owns(read, pid, read.table[pid], token); }
    }
  }

  lemma {:induction false} BeforeIsValid(os: Os, turns: seq<Turn>, i: nat)
    requires Valid(os) && i <= |turns|
    ensures Valid(Before(os, turns, i))
  {
    if i > 0 {
      BeforeIsValid(os, turns, i - 1);
      var b, t := Before(os, turns, i - 1), turns[i - 1];
      PidIsStable(b, t.beforeOpen);
      PidIsStable(AtOpen(b, t), t.beforeRead);
      PidIsStable(AtRead(b, t), t.beforeKill);
    }
  }

  /** The visited targets are a prefix of all targets; it ends early only after a target that found no pidfd
      support. */
  lemma {:induction false} AllVisitedUnlessUnsupported(
    os: Os, targets: seq<Pid>, turns: seq<Turn>, token: string, n: nat)
    requires n <= |targets| == |turns|
    ensures var o := Outcomes(os, targets, turns, token, n);
      |o| <= n && (|o| < n ==> Stopped(o))
  {
    if n > 0 { AllVisitedUnlessUnsupported(os, targets, turns, token, n - 1); }
  }

  /** Each visited target has the outcome of its own turn. */
  lemma OutcomeAt(os: Os, targets: seq<Pid>, turns: seq<Turn>, token: string, n: nat, i: nat, o: Outcome)
    requires i < n <= |targets| == |turns|
    requires i < |Outcomes(os, targets, turns, token, n)|
    requires o == OutcomeOf(Before(os, turns, i), turns[i], targets[i], token)
    ensures Outcomes(os, targets, turns, token, n)[i] == o
  {
    GotThatFar(os, targets, turns, token, n, i);
    NextOutcome(os, targets, turns, token, i, o);
    OutcomesOnlyGrow(os, targets, turns, token, i + 1, n);
    LastOfPrefix(Outcomes(os, targets, turns, token, i), o, Outcomes(os, targets, turns, token, n));
  }

  lemma LastOfPrefix(a: seq<Outcome>, o: Outcome, b: seq<Outcome>)
    requires a + [o] <= b
    ensures |a| < |b| && b[|a|] == o
  {
    assert (a + [o])[|a|] == o;
  }

  lemma GotThatFar(os: Os, targets: seq<Pid>, turns: seq<Turn>, token: string, n: nat, i: nat)
    requires n <= |targets| == |turns|
    requires i < |Outcomes(os, targets, turns, token, n)|
    ensures i < n && |Outcomes(os, targets, turns, token, i)| == i && !Stopped(Outcomes(os, targets, turns, token, i))
  {
    AllVisitedUnlessUnsupported(os, targets, turns, token, n);
    AllVisitedUnlessUnsupported(os, targets, turns, token, i);
    if Stopped(Outcomes(os, targets, turns, token, i)) { StaysStopped(os, targets, turns, token, i, n); }
  }

  lemma NextOutcome(os: Os, targets: seq<Pid>, turns: seq<Turn>, token: string, i: nat, o: Outcome)
    requires i < |targets| == |turns| && !Stopped(Outcomes(os, targets, turns, token, i))
    requires o == OutcomeOf(Before(os, turns, i), turns[i], targets[i], token)
    ensures Outcomes(os, targets, turns, token, i + 1) == Outcomes(os, targets, turns, token, i) + [o]
  {
  }

  lemma {:induction false} OutcomesOnlyGrow(os: Os, targets: seq<Pid>, turns: seq<Turn>, token: string, m: nat, n: nat)
    requires m <= n <= |targets| == |turns|
    ensures Outcomes(os, targets, turns, token, m) <= Outcomes(os, targets, turns, token, n)
    decreases n
  {
    if m < n { OutcomesOnlyGrow(os, targets, turns, token, m, n - 1); }
  }

  /** Over a whole sweep, any events in between: a kill was delivered for target `i` to `victim` exactly when
      the sweep got that far and `victim` was the verified owner throughout that turn. */
  lemma SweepKillsExactlyTheOwned(os: Os, targets: seq<Pid>, turns: seq<Turn>, token: string, i: nat, victim: Ident)
    requires Valid(os) && i < |targets| == |turns|
    ensures var o, b, t := Outcomes(os, targets, turns, token, |targets|), Before(os, turns, i), turns[i];
      (i < |o| && o[i] == Killed(victim)) <==>
        && i < |o|
        && t.openFault.None? && !t.unreadable && t.killFault.None?
        && Names(AtOpen(b, t), targets[i], victim)
        && Owns(AtRead(b, t), targets[i], victim, token)
        && Names(AtKill(b, t), targets[i], victim)
  {
    if i < |Outcomes(os, targets, turns, token, |targets|)| {
      OutcomeAt(os, targets, turns, token, |targets|, i, OutcomeOf(Before(os, turns, i), turns[i], targets[i], token));
      BeforeIsValid(os, turns, i);
      KilledExactlyWhenOwned(Before(os, turns, i), turns[i], targets[i], token, victim);
    }
  }

  /** Each visited target is counted once; only targets after a missing pidfd are not visited. */
  lemma {:induction false} EachVisitCountedOnce(outcomes: seq<Outcome>)
    ensures var r := Tally(outcomes);
      r.killed + r.alreadyGone + |r.failures| + Skips(outcomes) == |outcomes|
  {
    if outcomes != [] { EachVisitCountedOnce(outcomes[..|outcomes| - 1]); }
  }

  /** The report's numbers are those of the outcomes: as many killed, gone and failed, and the failures are
      those of the failed ones. */
  lemma TallyCounts(outcomes: seq<Outcome>)
    ensures var r := Tally(outcomes);
      && r.killed == |set i | 0 <= i < |outcomes| && outcomes[i].Killed?|
      && r.alreadyGone == |set i | 0 <= i < |outcomes| && outcomes[i].Gone?|
      && |r.failures| == |set i | 0 <= i < |outcomes| && outcomes[i].Failed?|
      && forall f :: f in r.failures <==> Failed(f) in outcomes
  {
    KilledCount(outcomes);
    GoneCount(outcomes);
    FailedCount(outcomes);
    FailuresAre(outcomes);
  }

  lemma {:induction false} KilledCount(outcomes: seq<Outcome>)
    ensures Tally(outcomes).killed == |set i | 0 <= i < |outcomes| && outcomes[i].Killed?|
  {
    if outcomes != [] {
      var n := |outcomes| - 1;
      KilledCount(outcomes[..n]);
      assert (set i | 0 <= i < |outcomes| && outcomes[i].Killed?)
          == (set i | 0 <= i < n && outcomes[..n][i].Killed?) + if outcomes[n].Killed? then {n} else {};
    }
  }

  lemma {:induction false} GoneCount(outcomes: seq<Outcome>)
    ensures Tally(outcomes).alreadyGone == |set i | 0 <= i < |outcomes| && outcomes[i].Gone?|
  {
    if outcomes != [] {
      var n := |outcomes| - 1;
      GoneCount(outcomes[..n]);
      assert (set i | 0 <= i < |outcomes| && outcomes[i].Gone?)
          == (set i | 0 <= i < n && outcomes[..n][i].Gone?) + if outcomes[n].Gone? then {n} else {};
    }
  }

  lemma {:induction false} FailedCount(outcomes: seq<Outcome>)
    ensures |Tally(outcomes).failures| == |set i | 0 <= i < |outcomes| && outcomes[i].Failed?|
  {
    if outcomes != [] {
      var n := |outcomes| - 1;
      FailedCount(outcomes[..n]);
      assert (set i | 0 <= i < |outcomes| && outcomes[i].Failed?)
          == (set i | 0 <= i < n && outcomes[..n][i].Failed?) + if outcomes[n].Failed? then {n} else {};
    }
  }

  lemma {:induction false} FailuresAre(outcomes: seq<Outcome>)
    ensures forall f :: f in Tally(outcomes).failures <==> Failed(f) in outcomes
  {
    if outcomes != [] {
      var n := |outcomes| - 1;
      FailuresAre(outcomes[..n]);
      assert outcomes == outcomes[..n] + [outcomes[n]];
    }
  }

  function Skips(outcomes: seq<Outcome>): nat {
    if outcomes == [] then 0
    else Skips(outcomes[..|outcomes| - 1]) + (if outcomes[|outcomes| - 1].Skipped? then 1 else 0)
  }
}
