/**
 The reader-side cleanup pass, run while no other participant is active: what
 `cleanup_temp_files_with` leaves in a directory, file by file.
 */
module TempCleanup {
  import opened Text
  import opened TempNames

  function Companion(temp: string): string {
    temp + ".lock"
  }

  function Templock(target: string): string {
    target + ".templock"
  }

  /** The temp that a companion name speaks for. */
  function Base(n: string): string {
    if EndsWith(n, ".lock") then n[..|n| - 5] else ""
  }

  /** What a pass starts from: the file names, the companions that live writers hold locked, the target and
      the caller's predicate for names of older formats. */
  datatype Pass = Pass(names: set<string>, locked: set<string>, target: string, legacy: string -> bool) {

    /** A listing entry that the pass offers to the lock-disciplined delete. */
    predicate Candidate(n: string) {
      && !EndsWith(n, ".lock") && !EndsWith(n, ".templock")
      && (ParseTempName(n, target).Some? || legacy(n))
    }

    /** The companion of a canonical temp of the target, whether or not that temp exists. */
    predicate CanonicalCompanion(n: string) {
      EndsWith(n, ".lock") && ParseTempName(Base(n), target).Some?
    }

    predicate Owned(temp: string) {
      Companion(temp) in names && Companion(temp) in locked
    }

    /** What a quiet pass must remove: ownerless candidates, their companions, and ownerless companions of
        canonical temps. */
    predicate Doomed(n: string) {
      || (Candidate(n) && !Owned(n))
      || (EndsWith(n, ".lock") && n !in locked
          && (CanonicalCompanion(n) || (Base(n) in names && Candidate(Base(n)))))
    }

    /** The templock file appears as soon as the pass enters its first critical section. */
    ghost predicate EntersSection() {
      exists n :: n in names && (Candidate(n) || CanonicalCompanion(n))
    }

    /** Removed by the candidates in `done`. */
    predicate RemovedBy(done: set<string>, n: string) {
      || (n in done && Candidate(n) && !Owned(n))
      || (EndsWith(n, ".lock") && Base(n) in done && Candidate(Base(n)) && !Owned(Base(n)))
    }

    ghost predicate Entered(done: set<string>) {
      exists m :: m in done && Candidate(m)
    }

    /** `left` is what remains once the candidates in `done` have been dealt with. */
    ghost predicate Leaves(done: set<string>, left: set<string>) {
      forall n :: n in left <==> (n in names && !RemovedBy(done, n))
                                 || (n == Templock(target) && Entered(done))
    }
  }

  lemma CompanionShape(temp: string)
    ensures EndsWith(Companion(temp), ".lock") && Base(Companion(temp)) == temp
    ensures forall t :: Companion(temp) != Templock(t)
  {
    forall t
      ensures Companion(temp) != Templock(t)
    {
      var a, b := Companion(temp), Templock(t);
      assert a[|a| - 5] == '.' && b[|b| - 5] == 'p';
    }
  }

  lemma CompanionOf(n: string)
    requires EndsWith(n, ".lock")
    ensures Companion(Base(n)) == n
  {
  }

  lemma TemplockShape(target: string)
    ensures EndsWith(Templock(target), ".templock") && !EndsWith(Templock(target), ".lock")
  {
    var n := Templock(target);
    assert n[|n| - 5] == 'p' && n[|n| - 5..][0] == 'p';
  }

  lemma CanonicalTempIsCandidate(c: Pass, n: string)
    requires ParseTempName(n, c.target).Some?
    ensures c.Candidate(n)
  {
    var p, q := SpellingOf(n, c.target);
    assert n[|n| - 1] == 'p';
    LastChar(n, ".lock");
    LastChar(n, ".templock");
  }

  lemma LastChar(n: string, suffix: string)
    ensures EndsWith(n, suffix) && suffix != "" ==> n[|n| - 1] == suffix[|suffix| - 1]
  {
  }

  class Directory {
    var names: set<string>
    var locked: set<string>  // companions that a live writer holds locked

    /** Removes `temp` and its companion unless a live writer owns them. */
    method RemoveTempIfUnlocked(target: string, temp: string) returns (gone: bool)
      modifies this`names
      ensures gone <==> !(Companion(temp) in old(names) && Companion(temp) in locked)
      ensures names == old(names) + {Templock(target)} -
                       (if gone then {temp, Companion(temp)} else {})
    {
      CompanionShape(temp);
      names := names + {Templock(target)};
      if Companion(temp) in names {
        if Companion(temp) in locked {
          return false;
        }
        names := names - {Companion(temp)};
      }
      names := names - {temp};
      return true;
    }

    /** First loop: every candidate through the delete; companions of canonical temps are kept for later. */
    method SweepCandidates(target: string, legacy: string -> bool, listing: seq<string>)
      returns (orphans: seq<string>)
      requires forall n :: n in listing <==> n in names
      modifies this`names
      ensures var c := Pass(old(names), locked, target, legacy);
        && c.Leaves(c.names, names)
        && (forall n :: n in orphans <==> n in c.names && c.CanonicalCompanion(n))
    {
      ghost var c := Pass(names, locked, target, legacy);
      ghost var done: set<string> := {};
      orphans := [];
      for i := 0 to |listing|
        invariant forall n :: n in done <==> n in listing[..i]
        invariant c.Leaves(done, names)
        invariant forall n :: n in orphans <==> n in done && c.CanonicalCompanion(n)
      {
        label loop:
        var name := listing[i];
        assert listing[..i + 1] == listing[..i] + [name];
        if EndsWith(name, ".lock") {
          if ParseTempName(Base(name), target).Some? {
            orphans := orphans + [name];
          }
        } else if !EndsWith(name, ".templock") && (ParseTempName(name, target).Some? || legacy(name)) {
          OwnershipIsStable(c, done, names, name);
          var gone := RemoveTempIfUnlocked(target, name);
        }
        OneMore(c, done, old@loop(names), name, names);
        done := done + {name};
      }
      assert listing[..|listing|] == listing;
      assert done == c.names;
    }

    /** Second loop: companions whose temp is gone, re-checked one by one. */
    method SweepOrphans(target: string, orphans: seq<string>)
      requires forall n | n in orphans :: EndsWith(n, ".lock")
      requires forall n | n in orphans :: Base(n) != Templock(target) && !EndsWith(Base(n), ".lock")
      modifies this`names
      ensures forall n :: n in names <==>
        || (n in old(names) && !(n in orphans && n !in locked && Base(n) !in old(names)))
        || (n == Templock(target) && |orphans| > 0)
    {
      ghost var all := names;
      TemplockShape(target);
      for k := 0 to |orphans|
        invariant forall n :: n in names <==>
          || (n in all && !(n in orphans[..k] && n !in locked && Base(n) !in all))
          || (n == Templock(target) && k > 0)
      {
        var lock := orphans[k];
        assert orphans[..k + 1] == orphans[..k] + [lock];
        names := names + {Templock(target)};
        if Base(lock) !in names && lock in names && lock !in locked {
          names := names - {lock};
        }
      }
      assert orphans[..|orphans|] == orphans;
    }

    /** The whole pass over a listing of the directory: every recognised temp and companion without a live
        owner goes, nothing else does, and the templock stays. */
    method CleanupTempFilesWith(target: string, legacy: string -> bool, listing: seq<string>)
      requires forall n :: n in listing <==> n in names
      modifies this`names
      ensures var c := Pass(old(names), locked, target, legacy);
        forall n :: n in names <==> (n in c.names && !c.Doomed(n))
                                    || (n == Templock(target) && c.EntersSection())
    {
      ghost var c := Pass(names, locked, target, legacy);
      var orphans := SweepCandidates(target, legacy, listing);
      ghost var swept := names;
      forall n | n in orphans
        ensures Base(n) != Templock(target) && !EndsWith(Base(n), ".lock")
      {
        TemplockShape(target);
        CanonicalTempIsCandidate(c, Base(n));
      }
      SweepOrphans(target, orphans);
      assert c.EntersSection() <==> c.Entered(c.names) || |orphans| > 0 by {
        if |orphans| > 0 { assert orphans[0] in orphans; }
        if c.EntersSection() && !c.Entered(c.names) {
          var m :| m in c.names && (c.Candidate(m) || c.CanonicalCompanion(m));
          assert m in orphans;
        }
      }
      forall n
        ensures n in names <==> (n in c.names && !c.Doomed(n))
                                || (n == Templock(target) && c.EntersSection())
      {
        PassLeaves(c, swept, orphans, n);
      }
    }
  }

  lemma OwnershipIsStable(c: Pass, done: set<string>, left: set<string>, temp: string)
    requires c.Leaves(done, left)
    ensures Companion(temp) in left && Companion(temp) in c.locked <==> c.Owned(temp)
  {
    CompanionShape(temp);
  }

  lemma OneMore(c: Pass, done: set<string>, left: set<string>, name: string, left': set<string>)
    requires c.Leaves(done, left)
    requires left' == if !c.Candidate(name) then left
                      else left + {Templock(c.target)} - (if c.Owned(name) then {} else {name, Companion(name)})
    ensures c.Leaves(done + {name}, left')
  {
    CompanionShape(name);
    TemplockShape(c.target);
    assert c.Entered(done + {name}) <==> c.Entered(done) || c.Candidate(name);
    forall n
      ensures n in left' <==> (n in c.names && !c.RemovedBy(done + {name}, n))
                              || (n == Templock(c.target) && c.Entered(done + {name}))
    {
      if EndsWith(n, ".lock") { CompanionOf(n); }
    }
  }

  /** Both loops together remove exactly the doomed names. */
  lemma PassLeaves(c: Pass, swept: set<string>, orphans: seq<string>, n: string)
    requires c.Leaves(c.names, swept)
    requires forall m :: m in orphans <==> m in c.names && c.CanonicalCompanion(m)
    ensures n != Templock(c.target) ==>
      ((n in swept && !(n in orphans && n !in c.locked && Base(n) !in swept)) <==> n in c.names && !c.Doomed(n))
    ensures n == Templock(c.target) ==> !c.Doomed(n)
  {
    TemplockShape(c.target);
    if EndsWith(n, ".lock") {
      CompanionOf(n);
      if c.CanonicalCompanion(n) {
        CanonicalTempIsCandidate(c, Base(n));
      }
    }
  }
}
