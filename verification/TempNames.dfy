/**
 Temp-file names: the builder `temp_file_name` and the recogniser `parse_temp_name`.
 */
module TempNames {
  import opened Text

  const PID_BOUND := 0x1_0000_0000
  const SEQ_BOUND := 0x1_0000_0000_0000_0000

  function TempFileName(target: string, pid: nat, seqNo: nat): string {
    "." + target + "." + Print(pid) + "." + Print(seqNo) + ".tmp"
  }

  function ParseTempName(entry: string, target: string): Option<(nat, nat)> {
    if !StartsWith(entry, "." + target + ".") then None
    else
      var parts := Split(entry[|target| + 2..], '.');
      if |parts| != 3 || parts[2] != "tmp" then None
      else
        var pid := ParseUnsigned(parts[0], PID_BOUND);
        var seqNo := ParseUnsigned(parts[1], SEQ_BOUND);
        if pid.Some? && seqNo.Some? then Some((pid.value, seqNo.value)) else None
  }

  function Tail(p: string, q: string): string {
    p + "." + (q + "." + "tmp")
  }

  /** A temp name with the pid and sequence spelled as `p` and `q`. */
  function Spelled(target: string, p: string, q: string): string {
    "." + target + "." + Tail(p, q)
  }

  lemma SpelledName(target: string, pid: nat, seqNo: nat)
    ensures Spelled(target, Print(pid), Print(seqNo)) == TempFileName(target, pid, seqNo)
  {
    var p, q := Print(pid), Print(seqNo);
    assert p + "." + (q + "." + "tmp") == p + "." + q + ".tmp";
    var front := "." + target + ".";
    assert front + (p + "." + q + ".tmp") == front + p + "." + q + ".tmp";
  }

  lemma SplitTail(p: string, q: string)
    requires '.' !in p && '.' !in q
    ensures Split(Tail(p, q), '.') == [p, q, "tmp"]
  {
    SplitStep(p, q + "." + "tmp", '.');
    SplitStep(q, "tmp", '.');
    SplitWhole("tmp", '.');
  }

  lemma JoinTail(p: string, q: string)
    ensures Join([p, q, "tmp"], '.') == Tail(p, q)
  {
    assert [p, q, "tmp"][1..] == [q, "tmp"] && [q, "tmp"][1..] == ["tmp"];
    assert Join([q, "tmp"], '.') == q + "." + "tmp";
  }

  lemma NumberHasNoDot(s: string, bound: nat)
    requires ParseUnsigned(s, bound).Some?
    ensures '.' !in s
  {
    var body := if StartsWith(s, "+") then s[1..] else s;
    assert AllDigits(body);
    if StartsWith(s, "+") { assert s == "+" + body; }
  }

  lemma ParseSpelled(target: string, p: string, q: string)
    requires '.' !in p && '.' !in q
    ensures var pid, seqNo := ParseUnsigned(p, PID_BOUND), ParseUnsigned(q, SEQ_BOUND);
      ParseTempName(Spelled(target, p, q), target) ==
      if pid.Some? && seqNo.Some? then Some((pid.value, seqNo.value)) else None
  {
    var e := Spelled(target, p, q);
    assert e[..|target| + 2] == "." + target + ".";
    assert e[|target| + 2..] == Tail(p, q);
    SplitTail(p, q);
  }

  /** The spelling behind a recognised name. */
  lemma SpellingOf(entry: string, target: string) returns (p: string, q: string)
    requires ParseTempName(entry, target).Some?
    ensures entry == Spelled(target, p, q) && '.' !in p && '.' !in q
    ensures ParseUnsigned(p, PID_BOUND) == Some(ParseTempName(entry, target).value.0)
    ensures ParseUnsigned(q, SEQ_BOUND) == Some(ParseTempName(entry, target).value.1)
  {
    var rest := entry[|target| + 2..];
    var parts := Split(rest, '.');
    JoinSplit(rest, '.');
    p, q := parts[0], parts[1];
    assert parts == [p, q, "tmp"];
    JoinTail(p, q);
    assert entry == entry[..|target| + 2] + rest;
  }

  /** What the recogniser accepts, exactly: the target's name followed by two numbers in any spelling the
      integer parser takes, and `.tmp`. */
  lemma RecognisesExactlySpelledNames(entry: string, target: string, pid: nat, seqNo: nat)
    ensures ParseTempName(entry, target) == Some((pid, seqNo)) <==>
      exists p, q :: entry == Spelled(target, p, q)
        && ParseUnsigned(p, PID_BOUND) == Some(pid) && ParseUnsigned(q, SEQ_BOUND) == Some(seqNo)
  {
    if ParseTempName(entry, target) == Some((pid, seqNo)) {
      var p, q := SpellingOf(entry, target);
    }
    forall p, q | entry == Spelled(target, p, q)
      && ParseUnsigned(p, PID_BOUND) == Some(pid) && ParseUnsigned(q, SEQ_BOUND) == Some(seqNo)
      ensures ParseTempName(entry, target) == Some((pid, seqNo))
    {
      NumberHasNoDot(p, PID_BOUND);
      NumberHasNoDot(q, SEQ_BOUND);
      ParseSpelled(target, p, q);
    }
  }

  /** A built name parses back to its own pid and sequence number. */
  lemma BuiltNameParses(target: string, pid: nat, seqNo: nat)
    requires pid < PID_BOUND && seqNo < SEQ_BOUND
    ensures ParseTempName(TempFileName(target, pid, seqNo), target) == Some((pid, seqNo))
  {
    SpelledName(target, pid, seqNo);
    ParsePrint(pid, PID_BOUND);
    ParsePrint(seqNo, SEQ_BOUND);
    RecognisesExactlySpelledNames(TempFileName(target, pid, seqNo), target, pid, seqNo);
  }

  // -- a name belongs to one target only: the target is what precedes the last three dots --

  function Dots(s: string): nat {
    if s == "" then 0 else (if s[0] == '.' then 1 else 0) + Dots(s[1..])
  }

  lemma {:induction false} DotsConcat(a: string, b: string)
    ensures Dots(a + b) == Dots(a) + Dots(b)
  {
    if a == "" {
      assert a + b == b;
    } else {
      DotsConcat(a[1..], b);
      assert (a + b)[1..] == a[1..] + b;
    }
  }

  lemma {:induction false} NoDots(s: string)
    requires '.' !in s
    ensures Dots(s) == 0
  {
    if s != "" { NoDots(s[1..]); }
  }

  lemma SpelledDots(p: string, q: string)
    requires '.' !in p && '.' !in q
    ensures Dots(Tail(p, q)) == 2
  {
    NoDots(p);
    NoDots(q);
    NoDots("tmp");
    assert "."[1..] == "";
    DotsConcat(p + ".", q + "." + "tmp");
    DotsConcat(p, ".");
    DotsConcat(q + ".", "tmp");
    DotsConcat(q, ".");
  }

  lemma NoShorterTarget(t: string, u: string, x: string, y: string)
    requires t + "." + x == u + "." + y && Dots(x) == Dots(y)
    ensures |t| >= |u|
  {
    if |t| < |u| {
      // then `y` is what is left of `x` after a dot
      var w := t + "." + x;
      assert w[|t|] == '.' && w[|u|] == '.';
      var d := |u| - |t| - 1;
      assert x == w[|t| + 1..];
      assert y == w[|u| + 1..];
      assert x == x[..d] + ("." + y) && "."[1..] == "";
      DotsConcat(".", y);
      DotsConcat(x[..d], "." + y);
      assert false;
    }
  }

  /** A recognised name is recognised for one target only. */
  lemma RecognisedForOneTarget(entry: string, t: string, u: string)
    requires ParseTempName(entry, t).Some? && ParseTempName(entry, u).Some?
    ensures t == u
  {
    var p, q := SpellingOf(entry, t);
    var p', q' := SpellingOf(entry, u);
    SpelledDots(p, q);
    SpelledDots(p', q');
    AfterFirstDot(t, p, q);
    AfterFirstDot(u, p', q');
    NoShorterTarget(t, u, Tail(p, q), Tail(p', q'));
    NoShorterTarget(u, t, Tail(p', q'), Tail(p, q));
  }

  lemma AfterFirstDot(target: string, p: string, q: string)
    ensures Spelled(target, p, q)[1..] == target + "." + Tail(p, q)
    ensures Spelled(target, p, q)[1..][..|target|] == target
  {
  }

  /** Hence a built name is a temp of its own target and of no other. */
  lemma BuiltNameBelongsToOneTarget(target: string, other: string, pid: nat, seqNo: nat)
    requires pid < PID_BOUND && seqNo < SEQ_BOUND
    ensures ParseTempName(TempFileName(target, pid, seqNo), other).Some? <==> other == target
  {
    BuiltNameParses(target, pid, seqNo);
    if ParseTempName(TempFileName(target, pid, seqNo), other).Some? {
      RecognisedForOneTarget(TempFileName(target, pid, seqNo), target, other);
    }
  }

  /** The recogniser is documented to accept only canonical names, and does not: every name has a twin
      with a plus sign, parsed to the same pid and sequence number. */
  lemma PlusSignIsAccepted(target: string, pid: nat, seqNo: nat)
    requires pid < PID_BOUND && seqNo < SEQ_BOUND
    ensures var twin := Spelled(target, "+" + Print(pid), Print(seqNo));
      ParseTempName(twin, target) == Some((pid, seqNo)) && twin != TempFileName(target, pid, seqNo)
  {
    var p := "+" + Print(pid);
    assert p[1..] == Print(pid) && p[..1] == "+";
    PrintIsCanonical(pid);
    ParsePrint(pid, PID_BOUND);
    ParsePrint(seqNo, SEQ_BOUND);
    assert ParseUnsigned(p, PID_BOUND) == ParseUnsigned(Print(pid), PID_BOUND);
    RecognisesExactlySpelledNames(Spelled(target, p, Print(seqNo)), target, pid, seqNo);
    CanonicalExactlyWhenBuilt(target, p, Print(seqNo));
  }

  /** A recognised name is the built one exactly when both numbers are spelled canonically. */
  lemma CanonicalExactlyWhenBuilt(target: string, p: string, q: string)
    requires ParseUnsigned(p, PID_BOUND).Some? && ParseUnsigned(q, SEQ_BOUND).Some?
    ensures ParseTempName(Spelled(target, p, q), target).Some?
    ensures var (pid, seqNo) := ParseTempName(Spelled(target, p, q), target).value;
      Spelled(target, p, q) == TempFileName(target, pid, seqNo) <==> Canonical(p) && Canonical(q)
  {
    NumberHasNoDot(p, PID_BOUND);
    NumberHasNoDot(q, SEQ_BOUND);
    ParseSpelled(target, p, q);
    var pid, seqNo := ParseUnsigned(p, PID_BOUND).value, ParseUnsigned(q, SEQ_BOUND).value;
    SpelledName(target, pid, seqNo);
    if Canonical(p) && Canonical(q) {
      CanonicalIsPrinted(p);
      CanonicalIsPrinted(q);
    }
    if Spelled(target, p, q) == TempFileName(target, pid, seqNo) {
      SameSpelling(target, p, q, Print(pid), Print(seqNo));
      PrintIsCanonical(pid);
      PrintIsCanonical(seqNo);
    }
  }

  lemma SameSpelling(target: string, p: string, q: string, p': string, q': string)
    requires Spelled(target, p, q) == Spelled(target, p', q')
    requires '.' !in p && '.' !in q && '.' !in p' && '.' !in q'
    ensures p == p' && q == q'
  {
    var e := Spelled(target, p, q);
    assert e[|target| + 2..] == Tail(p, q);
    assert e[|target| + 2..] == Tail(p', q');
    SplitTail(p, q);
    SplitTail(p', q');
    assert p == [p, q, "tmp"][0] && p' == [p', q', "tmp"][0];
    assert q == [p, q, "tmp"][1] && q' == [p', q', "tmp"][1];
  }
}
