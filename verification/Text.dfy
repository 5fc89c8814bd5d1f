/** Options, and the string operations of the source's standard library that the text formats rely on. */
module Text {

  datatype Option<+T> = None | Some(value: T)

  predicate StartsWith(s: string, p: string) {
    |p| <= |s| && s[..|p|] == p
  }

  predicate EndsWith(s: string, p: string) {
    |p| <= |s| && s[|s| - |p|..] == p
  }

  /** `str::split(c)`: always at least one part. */
  function Split(s: string, c: char): (parts: seq<string>)
    ensures |parts| >= 1
  {
    if s == "" then [""]
    else
      var rest := Split(s[1..], c);
      if s[0] == c then [""] + rest else [[s[0]] + rest[0]] + rest[1..]
  }

  function Join(parts: seq<string>, c: char): string {
    if |parts| == 0 then "" else if |parts| == 1 then parts[0] else parts[0] + [c] + Join(parts[1..], c)
  }

  lemma {:induction false} SplitStep(a: string, s: string, c: char)
    requires c !in a
    ensures Split(a + [c] + s, c) == [a] + Split(s, c)
  {
    if a == "" {
      assert ("" + [c] + s)[1..] == s;
    } else {
      SplitStep(a[1..], s, c);
      assert (a + [c] + s)[1..] == a[1..] + [c] + s;
      assert [a[0]] + a[1..] == a;
    }
  }

  lemma {:induction false} SplitWhole(a: string, c: char)
    requires c !in a
    ensures Split(a, c) == [a]
  {
    if a != "" {
      SplitWhole(a[1..], c);
      assert [a[0]] + a[1..] == a;
    }
  }

  /** Splitting undoes joining of parts that do not contain the separator. */
  lemma {:induction false} SplitJoin(parts: seq<string>, c: char)
    requires |parts| >= 1 && forall i | 0 <= i < |parts| :: c !in parts[i]
    ensures Split(Join(parts, c), c) == parts
  {
    if |parts| == 1 {
      SplitWhole(parts[0], c);
    } else {
      SplitJoin(parts[1..], c);
      SplitStep(parts[0], Join(parts[1..], c), c);
      assert [parts[0]] + parts[1..] == parts;
    }
  }

  /** Joining undoes splitting, and no part contains the separator. */
  lemma {:induction false} JoinSplit(s: string, c: char)
    ensures Join(Split(s, c), c) == s
    ensures forall i | 0 <= i < |Split(s, c)| :: c !in Split(s, c)[i]
  {
    if s != "" {
      JoinSplit(s[1..], c);
      var rest := Split(s[1..], c);
      assert s == [s[0]] + s[1..];
      if s[0] == c {
        assert ([""] + rest)[1..] == rest;
      } else {
        var parts := [[s[0]] + rest[0]] + rest[1..];
        assert parts[1..] == rest[1..];
        if |rest| > 1 {
          assert Join(parts, c) == [s[0]] + (rest[0] + [c] + Join(rest[1..], c));
        }
      }
    }
  }

  // ---------------------------------------------------------------------------------------------
  // Decimal numbers
  // ---------------------------------------------------------------------------------------------

  predicate IsDigit(c: char) {
    '0' <= c <= '9'
  }

  ghost predicate AllDigits(s: string) {
    forall i | 0 <= i < |s| :: IsDigit(s[i])
  }

  function DigitChar(d: nat): char
    requires d < 10
  {
    ('0' as int + d) as char
  }

  function DigitValue(c: char): int {
    c as int - '0' as int
  }

  /** `to_string` of an unsigned integer. */
  function Print(n: nat): (s: string)
    ensures s != "" && AllDigits(s)
  {
    if n < 10 then [DigitChar(n)] else Print(n / 10) + [DigitChar(n % 10)]
  }

  /** The value of a digit string. */
  function Value(s: string): (n: nat)
    requires AllDigits(s)
  {
    if s == "" then 0 else 10 * Value(s[..|s| - 1]) + DigitValue(s[|s| - 1])
  }

  predicate Digits(s: string)
    ensures Digits(s) == AllDigits(s)
  {
    s == "" || (IsDigit(s[0]) && (assert s == [s[0]] + s[1..]; Digits(s[1..])))
  }

  /** `str::parse` into an unsigned type with values below `bound`: an optional plus sign, at least one
      digit, any leading zeros, no overflow. */
  function ParseUnsigned(s: string, bound: nat): Option<nat> {
    var body := if StartsWith(s, "+") then s[1..] else s;
    if body == "" || !Digits(body) then None
    else if Value(body) < bound then Some(Value(body)) else None
  }

  /** Without a sign or a superfluous zero. */
  predicate Canonical(s: string) {
    !StartsWith(s, "+") && (|s| > 1 ==> s[0] != '0')
  }

  lemma {:induction false} ValuePrint(n: nat)
    ensures Value(Print(n)) == n
  {
    if n >= 10 {
      ValuePrint(n / 10);
      var s := Print(n);
      assert s[..|s| - 1] == Print(n / 10);
    }
  }

  lemma {:induction false} PrintIsCanonical(n: nat)
    ensures Canonical(Print(n)) && (n > 0 ==> Print(n)[0] != '0')
  {
    assert IsDigit(Print(n)[0]) && Print(n)[..1][0] == Print(n)[0];
    if n >= 10 {
      PrintIsCanonical(n / 10);
      assert Print(n)[0] == Print(n / 10)[0];
    }
  }

  /** Printing and parsing are inverse below the bound; above it parsing fails. */
  lemma ParsePrint(n: nat, bound: nat)
    ensures ParseUnsigned(Print(n), bound) == if n < bound then Some(n) else None
  {
    ValuePrint(n);
    PrintIsCanonical(n);
  }

  /** A canonical spelling is the printed one. */
  lemma {:induction false} CanonicalIsPrinted(s: string)
    requires s != "" && AllDigits(s) && Canonical(s)
    ensures Print(Value(s)) == s
    decreases |s|
  {
    if |s| > 1 {
      var front := s[..|s| - 1];
      CanonicalIsPrinted(front);
      PositiveValue(front);
      assert front + [s[|s| - 1]] == s;
    } else {
      assert s[..|s| - 1] == "";
    }
  }

  lemma {:induction false} PositiveValue(s: string)
    requires s != "" && AllDigits(s) && s[0] != '0'
    ensures Value(s) > 0
    decreases |s|
  {
    if |s| > 1 { PositiveValue(s[..|s| - 1]); }
  }
}
