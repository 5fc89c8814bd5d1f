/** A codec that meets every law the health file relies on, so that its theorems are not about nothing. */
module HealthCodec {
  import opened Text
  import opened Health
  import opened SourceLabels
  import opened HealthComment

  function Iso(t: Time): string {
    if t < 0 then "m" + Print(-t) else "p" + Print(t)
  }

  function ParseIso(s: string): Option<Time> {
    if |s| < 2 || !Digits(s[1..]) then None
    else if s[0] == 'm' then Some(-(Value(s[1..]) as int))
    else if s[0] == 'p' then Some(Value(s[1..]))
    else None
  }

  function Show(b: Bridge): string {
    "b" + Print(b.identity) + "," + Encode(b.line)
  }

  function NoLossy(bs: seq<Byte>): string { "" }

  function ParseBridge(s: string): Option<Bridge> {
    var parts := Split(s, ',');
    if |parts| != 2 || |parts[0]| < 2 || !Digits(parts[0][1..]) then None
    else Some(Bridge(Value(parts[0][1..]), Decode(parts[1], NoLossy)))
  }

  ghost function Listed(s: set<string>): seq<string> {
    if s == {} then [] else var x :| x in s; [x] + Listed(s - {x})
  }

  lemma {:induction false} ListedHas(s: set<string>, x: string)
    ensures x in Listed(s) <==> x in s
  {
    if s != {} {
      var y :| y in s && Listed(s) == [y] + Listed(s - {y});
      ListedHas(s - {y}, x);
    }
  }

  lemma IsoInverts(t: Time)
    ensures ParseIso(Iso(t)) == Some(t) && IsWord(Iso(t))
  {
    var n: nat := if t < 0 then -t else t;
    ValuePrint(n);
    PrintHasNoSpace(n);
    assert Iso(t)[1..] == Print(n);
  }

  lemma HeadIsClean(n: nat)
    ensures Clean("b" + Print(n))
  {
    var head := "b" + Print(n);
    PrintHasNoSpace(n);
    forall i | 0 < i < |head| ensures head[i] != ',' && !IsWhitespace(head[i]) {
      assert head[i] == Print(n)[i - 1] && IsDigit(head[i]);
    }
  }

  lemma CleanParts(head: string, tail: string)
    requires head != "" && Clean(head) && Clean(tail)
    ensures IsTrimmed(head + "," + tail) && '\n' !in head + "," + tail
    ensures Split(head + "," + tail, ',') == [head, tail]
  {
    SplitStep(head, tail, ',');
    SplitWhole(tail, ',');
    assert head + "," + tail == head + [','] + tail;
  }

  lemma ShowInverts(b: Bridge)
    ensures ParseBridge(Show(b)) == Some(b)
    ensures IsTrimmed(Show(b)) && '\n' !in Show(b) && Show(b)[0] == 'b'
  {
    var head := "b" + Print(b.identity);
    ValuePrint(b.identity);
    HeadIsClean(b.identity);
    EncodedIsClean(b.line);
    SourceRoundTrip(b.line, NoLossy);
    CleanParts(head, Encode(b.line));
    assert head[1..] == Print(b.identity);
  }

  lemma HeaderWordsAreNoTimes()
    ensures ParseIso("-").None? && ParseIso("Auto-generated").None? && ParseIso("Last").None?
  {
    assert "Auto-generated"[0] == 'A' && "Last"[0] == 'L';
  }

  lemma InvertibleCodecExists()
    ensures exists c: Codec :: Invertible(c)
  {
    var c := Codec(Iso, ParseIso, Show, ParseBridge, _ => true, Listed, NoLossy);
    forall t ensures c.parseIso(c.iso(t)) == Some(t) && IsWord(c.iso(t)) { IsoInverts(t); }
    forall b ensures c.parseBridge(c.show(b)) == Some(b) && IsTrimmed(c.show(b)) && '\n' !in c.show(b)
    {
      ShowInverts(b);
    }
    forall b ensures c.show(b)[0] != '#' { ShowInverts(b); }
    forall s, x ensures x in c.listed(s) <==> x in s { ListedHas(s, x); }
    HeaderWordsAreNoTimes();
    assert Invertible(c);
  }
}
