/**
 The metadata comment that precedes each bridge line in the file of the health store.  Printing and parsing of
 bridge lines and timestamps are parameters that are only required to undo each other.
 */
module HealthComment {
  import opened Text
  import opened Health
  import opened SourceLabels

  datatype Codec = Codec(
    iso: Time -> string,
    parseIso: string -> Option<Time>,
    show: Bridge -> string,
    parseBridge: string -> Option<Bridge>,
    usable: Bridge -> bool,
    listed: set<string> -> seq<string>,  // a sorted set, in iteration order
    lossy: seq<Byte> -> string)

  ghost predicate IsWord(s: string) {
    s != "" && forall i | 0 <= i < |s| :: !IsWhitespace(s[i])
  }

  predicate IsTrimmed(s: string) {
    s != "" && !IsWhitespace(s[0]) && !IsWhitespace(s[|s| - 1])
  }

  ghost predicate Invertible(c: Codec) {
    && (forall t :: c.parseIso(c.iso(t)) == Some(t) && IsWord(c.iso(t)))
    && (forall b :: c.parseBridge(c.show(b)) == Some(b) && IsTrimmed(c.show(b)) && '\n' !in c.show(b))
    && (forall b :: c.show(b)[0] != '#')
    && (forall s, x :: x in c.listed(s) <==> x in s)
    && c.parseIso("-").None? && c.parseIso("Auto-generated").None? && c.parseIso("Last").None?
  }

  /** The fields of an entry that the comment carries. */
  datatype Meta = Meta(
    lastOk: Option<Time>,
    lastAttempt: Time,
    latencyMs: nat,
    fails: nat,
    okCount: nat,
    channelOkCount: nat,
    lastChannelOk: Option<Time>,
    verifiedCount: nat,
    lastVerified: Option<Time>,
    lastVerificationAttempt: Option<Time>,
    circuitFails: nat,
    lastCircuitObservation: Time,
    sources: set<string>)

  const EPOCH: Time := 0
  const DEFAULT_META := Meta(None, EPOCH, 0, 0, 0, 0, None, 0, None, None, 0, EPOCH, {})
  const U32_BOUND := 0x1_0000_0000
  const U64_BOUND := 0x1_0000_0000_0000_0000
  const NANOS_PER_MS := 1_000_000

  // ---------------------------------------------------------------------------------------------
  // Words and lines
  // ---------------------------------------------------------------------------------------------

  /** `split_whitespace`. */
  function Words(s: string): (ws: seq<string>)
    ensures s != "" && !IsWhitespace(s[0]) ==> ws != []
  {
    if s == "" then []
    else if IsWhitespace(s[0]) then Words(s[1..])
    else if |s| == 1 || IsWhitespace(s[1]) then [[s[0]]] + Words(s[1..])
    else
      var rest := Words(s[1..]);
      [[s[0]] + rest[0]] + rest[1..]
  }

  function Trim(s: string): string {
    if s == "" then ""
    else if IsWhitespace(s[0]) then Trim(s[1..])
    else if IsWhitespace(s[|s| - 1]) then Trim(s[..|s| - 1])
    else s
  }

  ghost predicate IsBlank(s: string) {
    forall i | 0 <= i < |s| :: IsWhitespace(s[i])
  }

  lemma {:induction false} TrimFront(a: string, s: string)
    requires IsBlank(a)
    ensures Trim(a + s) == Trim(s)
  {
    if a == "" {
      assert a + s == s;
    } else {
      TrimFront(a[1..], s);
      assert (a + s)[0] == a[0] && (a + s)[1..] == a[1..] + s;
    }
  }

  lemma {:induction false} TrimBack(s: string, b: string)
    requires IsTrimmed(s) && IsBlank(b)
    ensures Trim(s + b) == s
  {
    if b == "" {
      assert s + b == s;
    } else {
      TrimBack(s, b[..|b| - 1]);
      assert (s + b)[0] == s[0] && (s + b)[|s + b| - 1] == b[|b| - 1];
      assert (s + b)[..|s + b| - 1] == s + b[..|b| - 1];
    }
  }

  /** Trimming takes all white space from both ends. */
  lemma TrimTakesTheEnds(a: string, s: string, b: string)
    requires IsBlank(a) && IsTrimmed(s) && IsBlank(b)
    ensures Trim(a + (s + b)) == s && Trim(a) == ""
  {
    TrimFront(a, s + b);
    TrimBack(s, b);
    TrimFront(a, "");
    assert a + "" == a;
  }

  lemma {:induction false} WordThen(w: string, s: string)
    requires IsWord(w)
    ensures Words(w + [' '] + s) == [w] + Words(s)
  {
    var all := w + [' '] + s;
    assert all[1..] == w[1..] + [' '] + s;
    if |w| == 1 {
      assert all[1..][1..] == s;
      assert w == [w[0]];
    } else {
      WordThen(w[1..], s);
      assert w == [w[0]] + w[1..];
    }
  }

  lemma {:induction false} WordAlone(w: string)
    requires IsWord(w)
    ensures Words(w) == [w]
  {
    if |w| == 1 {
      assert w == [w[0]] && Words(w[1..]) == [];
    } else {
      WordAlone(w[1..]);
      assert w == [w[0]] + w[1..];
    }
  }

  lemma {:induction false} WordsOfJoin(ws: seq<string>)
    requires ws != [] && forall i | 0 <= i < |ws| :: IsWord(ws[i])
    ensures Words(Join(ws, ' ')) == ws
  {
    if |ws| == 1 {
      WordAlone(ws[0]);
    } else {
      WordsOfJoin(ws[1..]);
      WordThen(ws[0], Join(ws[1..], ' '));
      assert ws == [ws[0]] + ws[1..];
    }
  }

  lemma {:induction false} JoinOfWords(ws: seq<string>)
    requires ws != [] && forall i | 0 <= i < |ws| :: IsWord(ws[i])
    ensures IsTrimmed(Join(ws, ' ')) && '\n' !in Join(ws, ' ')
  {
    assert '\n' !in ws[0];
    if |ws| > 1 { JoinOfWords(ws[1..]); }
  }

  // ---------------------------------------------------------------------------------------------
  // The metadata comment
  // ---------------------------------------------------------------------------------------------

  const KEYS := ["fails", "seen", "attempt", "ok", "latency", "chseen", "chok", "evseen", "evok", "evtry",
                 "cfails", "cobs", "srcenc", "src"]

  /** The first of the known keys that the token carries, in the order they are tried, and its value. */
  function FieldOf(token: string, keys: seq<string>): Option<(string, string)> {
    if keys == [] then None
    else if StartsWith(token, keys[0] + "=") then Some((keys[0], token[|keys[0]| + 1..]))
    else FieldOf(token, keys[1..])
  }

  function ParseCount(v: string): Option<nat> {
    ParseUnsigned(v, U32_BOUND)
  }

  /** `-` stands for never; `None` means malformed. */
  function ParseMoment(c: Codec, v: string): Option<Option<Time>> {
    if v == "-" then Some(None)
    else match c.parseIso(v)
      case None => None
      case Some(t) => Some(Some(t))
  }

  function ParseMillis(v: string): Option<nat> {
    if EndsWith(v, "ms") then ParseUnsigned(v[..|v| - 2], U64_BOUND) else None
  }

  function NonEmpty(parts: seq<string>): seq<string> {
    if parts == [] then []
    else (if parts[0] == "" then [] else [parts[0]]) + NonEmpty(parts[1..])
  }

  function ParseSources(c: Codec, v: string): set<string> {
    set x | x in NonEmpty(Split(v, ',')) :: Decode(x, c.lossy)
  }

  function PlainSources(v: string): set<string> {
    set x | x in NonEmpty(Split(v, ','))
  }

  /** Stores one field; unknown keys are ignored, a malformed value spoils the whole comment. */
  function SetField(c: Codec, m: Meta, key: string, v: string): Option<Meta> {
    if key == "fails" then (match ParseCount(v) case None => None case Some(n) => Some(m.(fails := n)))
    else if key == "seen" then (match ParseCount(v) case None => None case Some(n) => Some(m.(okCount := n)))
    else if key == "attempt" then (match c.parseIso(v) case None => None case Some(t) => Some(m.(lastAttempt := t)))
    else if key == "ok" then (match ParseMoment(c, v) case None => None case Some(t) => Some(m.(lastOk := t)))
    else if key == "latency" then (match ParseMillis(v) case None => None case Some(n) => Some(m.(latencyMs := n)))
    else if key == "chseen" then (match ParseCount(v) case None => None case Some(n) => Some(m.(channelOkCount := n)))
    else if key == "chok" then (match ParseMoment(c, v) case None => None case Some(t) => Some(m.(lastChannelOk := t)))
    else if key == "evseen" then (match ParseCount(v) case None => None case Some(n) => Some(m.(verifiedCount := n)))
    else if key == "evok" then (match ParseMoment(c, v) case None => None case Some(t) => Some(m.(lastVerified := t)))
    else if key == "evtry" then
      (match c.parseIso(v) case None => None case Some(t) => Some(m.(lastVerificationAttempt := Some(t))))
    else if key == "cfails" then (match ParseCount(v) case None => None case Some(n) => Some(m.(circuitFails := n)))
    else if key == "cobs" then
      (match c.parseIso(v) case None => None case Some(t) => Some(m.(lastCircuitObservation := t)))
    else if key == "srcenc" then Some(m.(sources := ParseSources(c, v)))
    else if key == "src" then Some(m.(sources := PlainSources(v)))
    else Some(m)
  }

  function ParseToken(c: Codec, m: Meta, token: string): Option<Meta> {
    match FieldOf(token, KEYS)
    case None => Some(m)
    case Some(f) => SetField(c, m, f.0, f.1)
  }

  function ParseTokens(c: Codec, m: Meta, tokens: seq<string>): Option<Meta>
    decreases |tokens|
  {
    if tokens == [] then Some(m)
    else match ParseToken(c, m, tokens[0])
      case None => None
      case Some(n) => ParseTokens(c, n, tokens[1..])
  }

  /** The older format: a timestamp, a space and a latency. */
  function ParseLegacy(c: Codec, s: string): Option<Meta> {
    var parts := Split(s, ' ');
    if |parts| < 2 then None
    else match c.parseIso(parts[0])
      case None => None
      case Some(t) =>
        assert |parts[0]| < |s| by { SplitFirst(s, ' '); }
        var rest := Trim(s[|parts[0]| + 1..]);
        if !StartsWith(rest, "latency=") then None
        else match ParseMillis(rest[8..])
          case None => None
          case Some(ms) => Some(DEFAULT_META.(lastOk := Some(t), lastAttempt := t, latencyMs := ms, okCount := 1,
                                              lastCircuitObservation := t))
  }

  lemma SplitFirst(s: string, c: char)
    ensures |Split(s, c)| >= 2 ==> |Split(s, c)[0]| < |s|
  {
    JoinSplit(s, c);
  }

  /** `parse_meta_comment`: the loop over the tokens. */
  method ParseMetaComment(c: Codec, s: string) returns (meta: Option<Meta>)
    ensures meta == ParseMeta(c, s)
  {
    if !StartsWith(s, "fails=") {
      return ParseLegacy(c, s);
    }
    var m := DEFAULT_META;
    var tokens := Words(s);
    for i := 0 to |tokens|
      invariant ParseTokens(c, DEFAULT_META, tokens) == ParseTokens(c, m, tokens[i..])
    {
      assert tokens[i..][0] == tokens[i] && tokens[i..][1..] == tokens[i + 1..];
      var next := ParseToken(c, m, tokens[i]);
      if next.None? {
        return None;
      }
      m := next.value;
    }
    meta := Some(m);
  }

  function ParseMeta(c: Codec, s: string): Option<Meta> {
    if StartsWith(s, "fails=") then ParseTokens(c, DEFAULT_META, Words(s)) else ParseLegacy(c, s)
  }

  // -- writing it

  function ShowMoment(c: Codec, t: Option<Time>): string {
    match t case None => "-" case Some(x) => c.iso(x)
  }

  function Encodes(labels: seq<string>): seq<string> {
    if labels == [] then [] else [Encode(labels[0])] + Encodes(labels[1..])
  }

  function Field(key: string, v: string): string {
    key + "=" + v
  }

  type Fields = seq<(string, string)>

  function And(key: string, v: string, rest: Fields): Fields {
    [(key, v)] + rest
  }

  /** The fields of the comment of an entry, in the order they are written. */
  function MetaFields(c: Codec, m: Meta): Fields {
    And("fails", Print(m.fails),
    And("seen", Print(m.okCount),
    And("attempt", c.iso(m.lastAttempt),
    And("ok", ShowMoment(c, m.lastOk),
    And("latency", Print(m.latencyMs) + "ms", ChannelFields(c, m))))))
  }

  function ChannelFields(c: Codec, m: Meta): Fields {
    And("chseen", Print(m.channelOkCount),
    And("chok", ShowMoment(c, m.lastChannelOk), VerifiedFields(c, m)))
  }

  function VerifiedFields(c: Codec, m: Meta): Fields {
    And("evseen", Print(m.verifiedCount),
    And("evok", ShowMoment(c, m.lastVerified), AttemptFields(c, m)))
  }

  function AttemptFields(c: Codec, m: Meta): Fields {
    match m.lastVerificationAttempt
    case None => CircuitFields(c, m)
    case Some(t) => And("evtry", c.iso(t), CircuitFields(c, m))
  }

  function CircuitFields(c: Codec, m: Meta): Fields {
    And("cfails", Print(m.circuitFails),
    And("cobs", c.iso(m.lastCircuitObservation), SourceFields(c, m)))
  }

  function SourceFields(c: Codec, m: Meta): Fields {
    if m.sources == {} then [] else And("srcenc", Join(Encodes(c.listed(m.sources)), ','), [])
  }

  function Tokens(fields: Fields): seq<string> {
    if fields == [] then [] else [Field(fields[0].0, fields[0].1)] + Tokens(fields[1..])
  }

  function MetaOf(e: Entry): Meta {
    Meta(e.lastOk, e.lastAttempt, e.lastLatency / NANOS_PER_MS, e.fails, e.okCount, e.channelOkCount,
         e.lastChannelOk, e.verifiedCount, e.lastVerified, e.lastVerificationAttempt, e.circuitFails,
         e.lastCircuitObservation, e.sources)
  }

  function EntryOf(b: Bridge, m: Meta): Entry {
    Entry(b, m.lastOk, m.lastAttempt, m.latencyMs * NANOS_PER_MS, m.fails, m.okCount, m.channelOkCount,
          m.lastChannelOk, m.verifiedCount, m.lastVerified, m.lastVerificationAttempt, m.circuitFails,
          m.lastCircuitObservation, m.sources)
  }

  /** The counters are 32-bit. */
  predicate CountersFit(m: Meta) {
    && m.fails < U32_BOUND && m.okCount < U32_BOUND && m.channelOkCount < U32_BOUND
    && m.verifiedCount < U32_BOUND && m.circuitFails < U32_BOUND
  }

  /** Parsing fields in order, without going through the text. */
  function SetFields(c: Codec, m: Meta, fields: Fields): Option<Meta>
    decreases |fields|
  {
    if fields == [] then Some(m)
    else match SetField(c, m, fields[0].0, fields[0].1)
      case None => None
      case Some(n) => SetFields(c, n, fields[1..])
  }

  ghost predicate FieldsFit(fields: Fields) {
    forall i | 0 <= i < |fields| :: fields[i].0 in KEYS && IsWord(Field(fields[i].0, fields[i].1))
  }

  lemma KeysHaveNoEquals()
    ensures forall i | 0 <= i < |KEYS| :: '=' !in KEYS[i]
  {
  }

  lemma StartsWithCons(s: string, p: string)
    requires s != "" && p != ""
    ensures StartsWith(s, p) <==> s[0] == p[0] && StartsWith(s[1..], p[1..])
  {
    if |p| <= |s| {
      assert s[..|p|] == [s[0]] + s[1..][..|p| - 1] && p == [p[0]] + p[1..];
    }
  }

  lemma {:induction false} StartsWithKey(key: string, v: string, k: string)
    requires '=' !in key && '=' !in k
    ensures StartsWith(Field(key, v), k + "=") <==> k == key
    decreases |k|
  {
    var token, prefix := Field(key, v), k + "=";
    StartsWithCons(token, prefix);
    if k == "" {
      assert prefix[1..] == "";
      if key == "" { assert token[0] == '='; } else { assert token[0] == key[0]; }
    } else if key == "" {
      assert token[0] == '=' && prefix[0] == k[0];
    } else {
      StartsWithKey(key[1..], v, k[1..]);
      assert token[1..] == Field(key[1..], v) && prefix[1..] == k[1..] + "=";
      assert key == [key[0]] + key[1..] && k == [k[0]] + k[1..];
    }
  }

  lemma {:induction false} FieldIsFound(key: string, v: string, keys: seq<string>)
    requires key in keys && '=' !in key && forall i | 0 <= i < |keys| :: '=' !in keys[i]
    ensures FieldOf(Field(key, v), keys) == Some((key, v))
  {
    StartsWithKey(key, v, keys[0]);
    if keys[0] != key {
      FieldIsFound(key, v, keys[1..]);
    } else {
      assert Field(key, v)[|key| + 1..] == v;
    }
  }

  lemma TokenSetsField(c: Codec, m: Meta, key: string, v: string)
    requires key in KEYS
    ensures ParseToken(c, m, Field(key, v)) == SetField(c, m, key, v)
  {
    KeysHaveNoEquals();
    FieldIsFound(key, v, KEYS);
  }

  lemma {:induction false} TokensSetFields(c: Codec, m: Meta, fields: Fields)
    requires FieldsFit(fields)
    ensures ParseTokens(c, m, Tokens(fields)) == SetFields(c, m, fields)
    decreases |fields|
  {
    if fields != [] {
      var key, v, rest := fields[0].0, fields[0].1, fields[1..];
      TokenSetsField(c, m, key, v);
      assert Tokens(fields)[1..] == Tokens(rest);
      var next := SetField(c, m, key, v);
      if next.Some? { TokensSetFields(c, next.value, rest); }
    }
  }

  lemma {:induction false} TokensAreWords(fields: Fields)
    requires FieldsFit(fields)
    ensures |Tokens(fields)| == |fields| && forall i | 0 <= i < |fields| :: IsWord(Tokens(fields)[i])
  {
    if fields != [] { TokensAreWords(fields[1..]); }
  }

  // ---------------------------------------------------------------------------------------------
  // The comment round trip
  // ---------------------------------------------------------------------------------------------

  lemma SetAnd(c: Codec, m: Meta, key: string, v: string, rest: Fields)
    ensures SetFields(c, m, And(key, v, rest)) ==
      match SetField(c, m, key, v) { case None => None case Some(n) => SetFields(c, n, rest) }
  {
    assert And(key, v, rest)[1..] == rest;
  }

  lemma MomentRoundTrip(c: Codec, t: Option<Time>)
    requires Invertible(c)
    ensures ParseMoment(c, ShowMoment(c, t)) == Some(t)
  {
  }

  lemma MillisRoundTrip(n: nat)
    ensures ParseMillis(Print(n) + "ms") == if n < U64_BOUND then Some(n) else None
  {
    var v := Print(n) + "ms";
    assert v[|v| - 2..] == "ms" && v[..|v| - 2] == Print(n);
    ParsePrint(n, U64_BOUND);
  }

  lemma {:induction false} EncodesAre(labels: seq<string>)
    ensures |Encodes(labels)| == |labels|
    ensures forall i | 0 <= i < |labels| :: Encodes(labels)[i] == Encode(labels[i])
  {
    if labels != [] { EncodesAre(labels[1..]); }
  }

  lemma {:induction false} NonEmptyKeeps(parts: seq<string>, x: string)
    ensures x in NonEmpty(parts) <==> x in parts && x != ""
  {
    if parts != [] {
      NonEmptyKeeps(parts[1..], x);
      assert parts == [parts[0]] + parts[1..];
    }
  }

  /** Splitting the joined labels and decoding each gives back every label but the empty one. */
  lemma SourcesRoundTrip(c: Codec, labels: seq<string>)
    requires labels != []
    ensures ParseSources(c, Join(Encodes(labels), ',')) == (set x | x in labels && x != "")
  {
    var parts := Encodes(labels);
    EncodesAre(labels);
    forall i | 0 <= i < |labels| ensures ',' !in parts[i] && (parts[i] == "" <==> labels[i] == "") {
      EncodedIsClean(labels[i]);
    }
    SplitJoin(parts, ',');
    var out := ParseSources(c, Join(parts, ','));
    forall x | x in labels && x != "" ensures x in out {
      var i :| 0 <= i < |labels| && labels[i] == x;
      NonEmptyKeeps(parts, parts[i]);
      SourceRoundTrip(x, c.lossy);
      assert parts[i] in NonEmpty(parts);
    }
    forall x | x in out ensures x in labels && x != "" {
      var p :| p in NonEmpty(parts) && Decode(p, c.lossy) == x;
      NonEmptyKeeps(parts, p);
      var i :| 0 <= i < |parts| && parts[i] == p;
      SourceRoundTrip(labels[i], c.lossy);
    }
  }

  lemma ListedSources(c: Codec, sources: set<string>)
    requires Invertible(c) && sources != {}
    ensures c.listed(sources) != []
    ensures (set x | x in c.listed(sources) && x != "") == sources - {""}
  {
    var x :| x in sources;
    assert x in c.listed(sources);
  }

  lemma SourceFieldsSet(c: Codec, m: Meta, n: Meta)
    requires Invertible(c) && n.sources == {}
    ensures SetFields(c, n, SourceFields(c, m)) == Some(n.(sources := m.sources - {""}))
  {
    if m.sources == {} {
      assert m.sources - {""} == {};
    } else {
      var v := Join(Encodes(c.listed(m.sources)), ',');
      ListedSources(c, m.sources);
      SourcesRoundTrip(c, c.listed(m.sources));
      SetAnd(c, n, "srcenc", v, []);
      assert SetField(c, n, "srcenc", v) == Some(n.(sources := ParseSources(c, v)));
    }
  }

  lemma CircuitFieldsSet(c: Codec, m: Meta, n: Meta)
    requires Invertible(c) && CountersFit(m) && n.sources == {}
    ensures SetFields(c, n, CircuitFields(c, m)) ==
      Some(n.(circuitFails := m.circuitFails, lastCircuitObservation := m.lastCircuitObservation,
              sources := m.sources - {""}))
  {
    ParsePrint(m.circuitFails, U32_BOUND);
    var n1 := n.(circuitFails := m.circuitFails);
    var n2 := n1.(lastCircuitObservation := m.lastCircuitObservation);
    var rest := SourceFields(c, m);
    SetAnd(c, n1, "cobs", c.iso(m.lastCircuitObservation), rest);
    SetAnd(c, n, "cfails", Print(m.circuitFails), And("cobs", c.iso(m.lastCircuitObservation), rest));
    SourceFieldsSet(c, m, n2);
  }

  lemma AttemptFieldsSet(c: Codec, m: Meta, n: Meta)
    requires Invertible(c) && CountersFit(m) && n.sources == {} && n.lastVerificationAttempt == None
    ensures SetFields(c, n, AttemptFields(c, m)) ==
      Some(n.(lastVerificationAttempt := m.lastVerificationAttempt, circuitFails := m.circuitFails,
              lastCircuitObservation := m.lastCircuitObservation, sources := m.sources - {""}))
  {
    match m.lastVerificationAttempt {
      case None => CircuitFieldsSet(c, m, n);
      case Some(t) =>
        SetAnd(c, n, "evtry", c.iso(t), CircuitFields(c, m));
        CircuitFieldsSet(c, m, n.(lastVerificationAttempt := Some(t)));
    }
  }

  lemma VerifiedFieldsSet(c: Codec, m: Meta, n: Meta)
    requires Invertible(c) && CountersFit(m) && n.sources == {} && n.lastVerificationAttempt == None
    ensures SetFields(c, n, VerifiedFields(c, m)) ==
      Some(n.(verifiedCount := m.verifiedCount, lastVerified := m.lastVerified,
              lastVerificationAttempt := m.lastVerificationAttempt, circuitFails := m.circuitFails,
              lastCircuitObservation := m.lastCircuitObservation, sources := m.sources - {""}))
  {
    ParsePrint(m.verifiedCount, U32_BOUND);
    MomentRoundTrip(c, m.lastVerified);
    var n1 := n.(verifiedCount := m.verifiedCount);
    var n2 := n1.(lastVerified := m.lastVerified);
    var rest := AttemptFields(c, m);
    SetAnd(c, n, "evseen", Print(m.verifiedCount), And("evok", ShowMoment(c, m.lastVerified), rest));
    SetAnd(c, n1, "evok", ShowMoment(c, m.lastVerified), rest);
    AttemptFieldsSet(c, m, n2);
  }

  lemma ChannelFieldsSet(c: Codec, m: Meta, n: Meta)
    requires Invertible(c) && CountersFit(m) && n.sources == {} && n.lastVerificationAttempt == None
    ensures SetFields(c, n, ChannelFields(c, m)) ==
      Some(m.(lastOk := n.lastOk, lastAttempt := n.lastAttempt, latencyMs := n.latencyMs, fails := n.fails,
              okCount := n.okCount, sources := m.sources - {""}))
  {
    ParsePrint(m.channelOkCount, U32_BOUND);
    MomentRoundTrip(c, m.lastChannelOk);
    var n1 := n.(channelOkCount := m.channelOkCount);
    var n2 := n1.(lastChannelOk := m.lastChannelOk);
    var rest := VerifiedFields(c, m);
    SetAnd(c, n, "chseen", Print(m.channelOkCount), And("chok", ShowMoment(c, m.lastChannelOk), rest));
    SetAnd(c, n1, "chok", ShowMoment(c, m.lastChannelOk), rest);
    VerifiedFieldsSet(c, m, n2);
  }

  /** What loading the comment gives: everything but an empty source label; nothing at all if the latency does
      not fit 64 bits of milliseconds. */
  function Reread(m: Meta): Option<Meta> {
    if m.latencyMs < U64_BOUND then Some(m.(sources := m.sources - {""})) else None
  }

  lemma MetaFieldsSet(c: Codec, m: Meta)
    requires Invertible(c) && CountersFit(m)
    ensures SetFields(c, DEFAULT_META, MetaFields(c, m)) == Reread(m)
  {
    ParsePrint(m.fails, U32_BOUND);
    ParsePrint(m.okCount, U32_BOUND);
    MomentRoundTrip(c, m.lastOk);
    MillisRoundTrip(m.latencyMs);
    var n1 := DEFAULT_META.(fails := m.fails);
    var n2 := n1.(okCount := m.okCount);
    var n3 := n2.(lastAttempt := m.lastAttempt);
    var n4 := n3.(lastOk := m.lastOk);
    var r5 := ChannelFields(c, m);
    var r4 := And("latency", Print(m.latencyMs) + "ms", r5);
    var r3 := And("ok", ShowMoment(c, m.lastOk), r4);
    var r2 := And("attempt", c.iso(m.lastAttempt), r3);
    var r1 := And("seen", Print(m.okCount), r2);
    SetAnd(c, DEFAULT_META, "fails", Print(m.fails), r1);
    SetAnd(c, n1, "seen", Print(m.okCount), r2);
    SetAnd(c, n2, "attempt", c.iso(m.lastAttempt), r3);
    SetAnd(c, n3, "ok", ShowMoment(c, m.lastOk), r4);
    SetAnd(c, n4, "latency", Print(m.latencyMs) + "ms", r5);
    if m.latencyMs < U64_BOUND {
      ChannelFieldsSet(c, m, n4.(latencyMs := m.latencyMs));
    }
  }

  // ---------------------------------------------------------------------------------------------
  // Older comments
  // ---------------------------------------------------------------------------------------------

  /** The oldest comment, a timestamp and a latency, means one success at that time and no failures. */
  lemma LegacyCommentLoads(c: Codec, t: Time, n: nat)
    requires Invertible(c) && c.iso(t)[0] != 'f'
    ensures ParseMeta(c, c.iso(t) + " " + ("latency=" + Print(n) + "ms")) ==
      if n < 0x1_0000_0000_0000_0000
      then Some(Meta(Some(t), t, n, 0, 1, 0, None, 0, None, None, 0, t, {})) else None
  {
    var when, tail := c.iso(t), "latency=" + Print(n) + "ms";
    var s := when + " " + tail;
    StartsWithCons(s, "fails=");
    assert s[0] == when[0];
    assert ' ' !in when;
    LatencyWord(n);
    LegacyParts(c, when, tail);
    MillisRoundTrip(n);
  }

  lemma LatencyWord(n: nat)
    ensures var tail := "latency=" + Print(n) + "ms";
      IsTrimmed(tail) && StartsWith(tail, "latency=") && tail[8..] == Print(n) + "ms"
  {
    var tail := "latency=" + Print(n) + "ms";
    assert tail[0] == 'l' && tail[|tail| - 1] == 's';
    assert tail[..8] == "latency=";
  }

  lemma LegacyParts(c: Codec, when: string, tail: string)
    requires ' ' !in when && IsTrimmed(tail) && StartsWith(tail, "latency=")
    ensures ParseLegacy(c, when + " " + tail) ==
      var t, ms := c.parseIso(when), ParseMillis(tail[8..]);
      if t.None? || ms.None? then None
      else Some(Meta(t, t.value, ms.value, 0, 1, 0, None, 0, None, None, 0, t.value, {}))
  {
    LegacySplit(when, tail);
    assert Trim(tail) == tail;
  }

  lemma LegacySplit(when: string, tail: string)
    requires ' ' !in when
    ensures var s := when + " " + tail;
      |Split(s, ' ')| >= 2 && Split(s, ' ')[0] == when && s[|when| + 1..] == tail
  {
    assert when + " " + tail == when + [' '] + tail;
    SplitStep(when, tail, ' ');
  }

  /** The labels of the older `src` field are taken as they stand, percent signs and all. */
  lemma OldSourcesLoad(c: Codec, m: Meta, labels: seq<string>, token: string, sources: set<string>)
    requires labels != [] && forall i | 0 <= i < |labels| :: ',' !in labels[i]
    requires token == "src=" + Join(labels, ',')
    requires forall x :: x in sources <==> x in labels && x != ""
    ensures ParseToken(c, m, token) == Some(m.(sources := sources))
  {
    JoinedLabels(labels, sources);
    SourceToken(c, m, token, Join(labels, ','), sources);
  }

  lemma JoinedLabels(labels: seq<string>, sources: set<string>)
    requires labels != [] && forall i | 0 <= i < |labels| :: ',' !in labels[i]
    requires forall x :: x in sources <==> x in labels && x != ""
    ensures PlainSources(Join(labels, ',')) == sources
  {
    SplitJoin(labels, ',');
    forall x ensures x in NonEmpty(labels) <==> x in labels && x != "" { NonEmptyKeeps(labels, x); }
  }

  lemma SourceToken(c: Codec, m: Meta, token: string, v: string, sources: set<string>)
    requires token == "src=" + v && sources == PlainSources(v)
    ensures ParseToken(c, m, token) == Some(m.(sources := sources))
  {
    assert "src" + "=" == "src=";
    assert KEYS[|KEYS| - 1] == "src";
    TokenSetsField(c, m, "src", v);
    SourceFieldSets(c, m, v);
  }

  lemma SourceFieldSets(c: Codec, m: Meta, v: string)
    ensures SetField(c, m, "src", v) == Some(m.(sources := PlainSources(v)))
  {
  }

  /** A token with none of the known keys changes nothing. */
  lemma UnknownTokenIsIgnored(c: Codec, m: Meta, token: string)
    requires forall i | 0 <= i < |KEYS| :: !StartsWith(token, KEYS[i] + "=")
    ensures ParseToken(c, m, token) == Some(m)
  {
    NoFieldOf(token, KEYS);
  }

  lemma {:induction false} NoFieldOf(token: string, keys: seq<string>)
    requires forall i | 0 <= i < |keys| :: !StartsWith(token, keys[i] + "=")
    ensures FieldOf(token, keys) == None
  {
    if keys != [] { NoFieldOf(token, keys[1..]); }
  }

  /** A comment that stops after the latency, as written before channels and circuits were observed, leaves those
      without any observation. */
  lemma ShortCommentLoads(c: Codec, m: Meta)
    requires Invertible(c) && CountersFit(m)
    ensures SetFields(c, DEFAULT_META, ShortFields(c, m)) ==
      if m.latencyMs < 0x1_0000_0000_0000_0000
      then Some(Meta(m.lastOk, m.lastAttempt, m.latencyMs, m.fails, m.okCount, 0, None, 0, None, None, 0, 0, {}))
      else None
  {
    ParsePrint(m.fails, U32_BOUND);
    ParsePrint(m.okCount, U32_BOUND);
    MomentRoundTrip(c, m.lastOk);
    MillisRoundTrip(m.latencyMs);
    var n1 := DEFAULT_META.(fails := m.fails);
    var n2 := n1.(okCount := m.okCount);
    var n3 := n2.(lastAttempt := m.lastAttempt);
    var n4 := n3.(lastOk := m.lastOk);
    var r4 := And("latency", Print(m.latencyMs) + "ms", []);
    var r3 := And("ok", ShowMoment(c, m.lastOk), r4);
    var r2 := And("attempt", c.iso(m.lastAttempt), r3);
    var r1 := And("seen", Print(m.okCount), r2);
    SetAnd(c, DEFAULT_META, "fails", Print(m.fails), r1);
    SetAnd(c, n1, "seen", Print(m.okCount), r2);
    SetAnd(c, n2, "attempt", c.iso(m.lastAttempt), r3);
    SetAnd(c, n3, "ok", ShowMoment(c, m.lastOk), r4);
    SetAnd(c, n4, "latency", Print(m.latencyMs) + "ms", []);
  }

  function ShortFields(c: Codec, m: Meta): Fields {
    And("fails", Print(m.fails),
    And("seen", Print(m.okCount),
    And("attempt", c.iso(m.lastAttempt),
    And("ok", ShowMoment(c, m.lastOk),
    And("latency", Print(m.latencyMs) + "ms", [])))))
  }

  // -- every field is a word of the comment

  ghost predicate HasNoSpace(s: string) {
    forall i | 0 <= i < |s| :: !IsWhitespace(s[i])
  }

  lemma KeysHaveNoSpace()
    ensures forall i | 0 <= i < |KEYS| :: HasNoSpace(KEYS[i])
  {
  }

  lemma PrintHasNoSpace(n: nat)
    ensures HasNoSpace(Print(n)) && HasNoSpace(Print(n) + "ms")
  {
    var s := Print(n);
    forall i | 0 <= i < |s| ensures !IsWhitespace(s[i]) { assert IsDigit(s[i]); }
  }

  lemma MomentHasNoSpace(c: Codec, t: Option<Time>)
    requires Invertible(c)
    ensures HasNoSpace(ShowMoment(c, t))
  {
  }

  lemma AndFits(key: string, v: string, rest: Fields)
    requires key in KEYS && HasNoSpace(v) && FieldsFit(rest)
    ensures FieldsFit(And(key, v, rest))
  {
    KeysHaveNoSpace();
    assert HasNoSpace(key);
    assert IsWord(Field(key, v));
    var fields := And(key, v, rest);
    forall i | 0 <= i < |fields| ensures fields[i].0 in KEYS && IsWord(Field(fields[i].0, fields[i].1)) {
      if i > 0 { assert fields[i] == rest[i - 1]; }
    }
  }

  lemma {:induction false} CleanJoin(parts: seq<string>)
    requires forall i | 0 <= i < |parts| :: HasNoSpace(parts[i])
    ensures HasNoSpace(Join(parts, ','))
  {
    if |parts| > 1 { CleanJoin(parts[1..]); }
  }

  lemma SourceFieldsFit(c: Codec, m: Meta)
    ensures FieldsFit(SourceFields(c, m))
  {
    if m.sources != {} {
      var labels := c.listed(m.sources);
      EncodesAre(labels);
      forall i | 0 <= i < |labels| ensures HasNoSpace(Encodes(labels)[i]) { EncodedIsClean(labels[i]); }
      CleanJoin(Encodes(labels));
      AndFits("srcenc", Join(Encodes(labels), ','), []);
    }
  }

  lemma TailFieldsFit(c: Codec, m: Meta)
    requires Invertible(c)
    ensures FieldsFit(AttemptFields(c, m))
  {
    SourceFieldsFit(c, m);
    PrintHasNoSpace(m.circuitFails);
    AndFits("cobs", c.iso(m.lastCircuitObservation), SourceFields(c, m));
    AndFits("cfails", Print(m.circuitFails), And("cobs", c.iso(m.lastCircuitObservation), SourceFields(c, m)));
    if m.lastVerificationAttempt.Some? {
      MomentHasNoSpace(c, m.lastVerificationAttempt);
      AndFits("evtry", c.iso(m.lastVerificationAttempt.value), CircuitFields(c, m));
    }
  }

  lemma ChannelFieldsFit(c: Codec, m: Meta)
    requires Invertible(c)
    ensures FieldsFit(ChannelFields(c, m))
  {
    TailFieldsFit(c, m);
    PrintHasNoSpace(m.verifiedCount);
    PrintHasNoSpace(m.channelOkCount);
    MomentHasNoSpace(c, m.lastVerified);
    MomentHasNoSpace(c, m.lastChannelOk);
    AndFits("evok", ShowMoment(c, m.lastVerified), AttemptFields(c, m));
    AndFits("evseen", Print(m.verifiedCount), And("evok", ShowMoment(c, m.lastVerified), AttemptFields(c, m)));
    AndFits("chok", ShowMoment(c, m.lastChannelOk), VerifiedFields(c, m));
    AndFits("chseen", Print(m.channelOkCount), And("chok", ShowMoment(c, m.lastChannelOk), VerifiedFields(c, m)));
  }

  lemma MetaFieldsFit(c: Codec, m: Meta)
    requires Invertible(c)
    ensures FieldsFit(MetaFields(c, m))
  {
    var r5 := ChannelFields(c, m);
    ChannelFieldsFit(c, m);
    PrintHasNoSpace(m.fails);
    PrintHasNoSpace(m.okCount);
    PrintHasNoSpace(m.latencyMs);
    MomentHasNoSpace(c, m.lastOk);
    var r4 := And("latency", Print(m.latencyMs) + "ms", r5);
    AndFits("latency", Print(m.latencyMs) + "ms", r5);
    var r3 := And("ok", ShowMoment(c, m.lastOk), r4);
    AndFits("ok", ShowMoment(c, m.lastOk), r4);
    var r2 := And("attempt", c.iso(m.lastAttempt), r3);
    AndFits("attempt", c.iso(m.lastAttempt), r3);
    AndFits("seen", Print(m.okCount), r2);
    AndFits("fails", Print(m.fails), And("seen", Print(m.okCount), r2));
  }

  function MetaText(c: Codec, m: Meta): string {
    Join(Tokens(MetaFields(c, m)), ' ')
  }

  /** The words of the comment of an entry, letter by letter. */
  lemma CommentWords(c: Codec, e: Entry)
    ensures MetaText(c, MetaOf(e)) == Join(Tokens(MetaFields(c, MetaOf(e))), ' ')
    ensures Tokens(MetaFields(c, MetaOf(e))) ==
      ["fails=" + Print(e.fails), "seen=" + Print(e.okCount), "attempt=" + c.iso(e.lastAttempt),
       "ok=" + (if e.lastOk.Some? then c.iso(e.lastOk.value) else "-"),
       "latency=" + (Print(e.lastLatency / 1_000_000) + "ms")]
      + ["chseen=" + Print(e.channelOkCount),
         "chok=" + (if e.lastChannelOk.Some? then c.iso(e.lastChannelOk.value) else "-"),
         "evseen=" + Print(e.verifiedCount),
         "evok=" + (if e.lastVerified.Some? then c.iso(e.lastVerified.value) else "-")]
      + (if e.lastVerificationAttempt.Some? then ["evtry=" + c.iso(e.lastVerificationAttempt.value)] else [])
      + ["cfails=" + Print(e.circuitFails), "cobs=" + c.iso(e.lastCircuitObservation)]
      + (if e.sources == {} then [] else ["srcenc=" + Join(Encodes(c.listed(e.sources)), ',')])
  {
    var m := MetaOf(e);
    FirstTokens(c, m);
    ChannelTokens(c, m);
    TailTokens(c, m);
    Flatten(["fails=" + Print(m.fails), "seen=" + Print(m.okCount), "attempt=" + c.iso(m.lastAttempt),
             "ok=" + ShowMoment(c, m.lastOk), "latency=" + (Print(m.latencyMs) + "ms")],
            ["chseen=" + Print(m.channelOkCount), "chok=" + ShowMoment(c, m.lastChannelOk),
             "evseen=" + Print(m.verifiedCount), "evok=" + ShowMoment(c, m.lastVerified)],
            if m.lastVerificationAttempt.Some? then ["evtry=" + c.iso(m.lastVerificationAttempt.value)] else [],
            ["cfails=" + Print(m.circuitFails), "cobs=" + c.iso(m.lastCircuitObservation)],
            if m.sources == {} then [] else ["srcenc=" + Join(Encodes(c.listed(m.sources)), ',')]);
  }

  lemma Flatten<T>(a: seq<T>, b: seq<T>, c: seq<T>, d: seq<T>, e: seq<T>)
    ensures a + (b + (c + d + e)) == a + b + c + d + e
  {
  }

  lemma TokensAnd(key: string, v: string, rest: Fields)
    ensures Tokens(And(key, v, rest)) == [key + "=" + v] + Tokens(rest)
  {
    assert And(key, v, rest)[1..] == rest;
  }

  lemma TailTokens(c: Codec, m: Meta)
    ensures Tokens(AttemptFields(c, m)) ==
      (if m.lastVerificationAttempt.Some? then ["evtry=" + c.iso(m.lastVerificationAttempt.value)] else [])
      + ["cfails=" + Print(m.circuitFails), "cobs=" + c.iso(m.lastCircuitObservation)]
      + (if m.sources == {} then [] else ["srcenc=" + Join(Encodes(c.listed(m.sources)), ',')])
  {
    var sources := SourceFields(c, m);
    assert "evtry" + "=" == "evtry=" && "cfails" + "=" == "cfails=" && "cobs" + "=" == "cobs=";
    assert "srcenc" + "=" == "srcenc=";
    if m.sources != {} { TokensAnd("srcenc", Join(Encodes(c.listed(m.sources)), ','), []); }
    TokensAnd("cobs", c.iso(m.lastCircuitObservation), sources);
    TokensAnd("cfails", Print(m.circuitFails), And("cobs", c.iso(m.lastCircuitObservation), sources));
    if m.lastVerificationAttempt.Some? {
      TokensAnd("evtry", c.iso(m.lastVerificationAttempt.value), CircuitFields(c, m));
    }
  }

  lemma ChannelTokens(c: Codec, m: Meta)
    ensures Tokens(ChannelFields(c, m)) ==
      ["chseen=" + Print(m.channelOkCount), "chok=" + ShowMoment(c, m.lastChannelOk),
       "evseen=" + Print(m.verifiedCount), "evok=" + ShowMoment(c, m.lastVerified)]
      + Tokens(AttemptFields(c, m))
  {
    assert "chseen" + "=" == "chseen=" && "chok" + "=" == "chok=" && "evseen" + "=" == "evseen=";
    assert "evok" + "=" == "evok=";
    var r8 := AttemptFields(c, m);
    var r7 := And("evok", ShowMoment(c, m.lastVerified), r8);
    var r6 := And("evseen", Print(m.verifiedCount), r7);
    TokensAnd("evok", ShowMoment(c, m.lastVerified), r8);
    TokensAnd("evseen", Print(m.verifiedCount), r7);
    TokensAnd("chok", ShowMoment(c, m.lastChannelOk), r6);
    TokensAnd("chseen", Print(m.channelOkCount), And("chok", ShowMoment(c, m.lastChannelOk), r6));
    FourAndRest("chseen=" + Print(m.channelOkCount), "chok=" + ShowMoment(c, m.lastChannelOk),
                "evseen=" + Print(m.verifiedCount), "evok=" + ShowMoment(c, m.lastVerified), Tokens(r8));
  }

  lemma FourAndRest(a: string, b: string, c: string, d: string, rest: seq<string>)
    ensures [a] + ([b] + ([c] + ([d] + rest))) == [a, b, c, d] + rest
  {
  }

  lemma FirstTokens(c: Codec, m: Meta)
    ensures Tokens(MetaFields(c, m)) ==
      ["fails=" + Print(m.fails), "seen=" + Print(m.okCount), "attempt=" + c.iso(m.lastAttempt),
       "ok=" + ShowMoment(c, m.lastOk), "latency=" + (Print(m.latencyMs) + "ms")]
      + Tokens(ChannelFields(c, m))
  {
    assert "fails" + "=" == "fails=" && "seen" + "=" == "seen=" && "attempt" + "=" == "attempt=";
    assert "ok" + "=" == "ok=" && "latency" + "=" == "latency=";
    var r4 := ChannelFields(c, m);
    var r3 := And("latency", Print(m.latencyMs) + "ms", r4);
    var r2 := And("ok", ShowMoment(c, m.lastOk), r3);
    var r1 := And("attempt", c.iso(m.lastAttempt), r2);
    TokensAnd("latency", Print(m.latencyMs) + "ms", r4);
    TokensAnd("ok", ShowMoment(c, m.lastOk), r3);
    TokensAnd("attempt", c.iso(m.lastAttempt), r2);
    TokensAnd("seen", Print(m.okCount), r1);
    TokensAnd("fails", Print(m.fails), And("seen", Print(m.okCount), r1));
  }

  /** Parsing undoes writing of a metadata comment. */
  lemma MetaRoundTrip(c: Codec, m: Meta)
    requires Invertible(c) && CountersFit(m)
    ensures ParseMeta(c, MetaText(c, m)) == Reread(m)
    ensures IsTrimmed(MetaText(c, m)) && '\n' !in MetaText(c, m)
  {
    var fields := MetaFields(c, m);
    MetaFieldsFit(c, m);
    TokensAreWords(fields);
    WordsOfJoin(Tokens(fields));
    JoinOfWords(Tokens(fields));
    TokensSetFields(c, DEFAULT_META, fields);
    MetaFieldsSet(c, m);
    StartsWithFirst("fails", Print(m.fails), fields[1..]);
    assert fields == And("fails", Print(m.fails), fields[1..]);
  }

  lemma StartsWithFirst(key: string, v: string, rest: Fields)
    requires rest != []
    ensures StartsWith(Join(Tokens(And(key, v, rest)), ' '), key + "=")
  {
    var tokens := Tokens(And(key, v, rest));
    assert And(key, v, rest)[1..] == rest;
    assert tokens == [Field(key, v)] + Tokens(rest) && |Tokens(rest)| > 0;
    var text := Join(tokens, ' ');
    assert text == Field(key, v) + [' '] + Join(tokens[1..], ' ');
    assert text[..|key| + 1] == key + "=";
  }
}
