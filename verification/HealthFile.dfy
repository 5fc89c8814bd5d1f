/**
 The text file of the bridge health store: a header, then a metadata comment and a bridge line per entry.
 */
module HealthFile {
  import opened Text
  import opened Health
  import opened HealthComment
  import TopK

  type Entries = map<nat, Entry>

  // ---------------------------------------------------------------------------------------------
  // Reading
  // ---------------------------------------------------------------------------------------------

  datatype Reading = Reading(pending: Option<Meta>, entries: Entries)

  function Pick(pending: Option<Meta>): Meta {
    if pending.Some? then pending.value else DEFAULT_META
  }

  /** What one line of the file does. */
  function ReadLine(c: Codec, r: Reading, raw: string): Reading {
    var line := Trim(raw);
    if line == "" then r
    else if StartsWith(line, "# ") then
      (match ParseMeta(c, line[2..])
       case None => r
       case Some(m) => r.(pending := Some(m)))
    else if line[0] == '#' then r
    else match c.parseBridge(line)
      case None => r.(pending := None)
      case Some(b) =>
        if !c.usable(b) then r.(pending := None)
        else Reading(None, r.entries[b.identity := EntryOf(b, Pick(r.pending))])
  }

  function Fold(step: (Reading, string) -> Reading, r: Reading, lines: seq<string>): Reading
    decreases |lines|
  {
    if lines == [] then r else Fold(step, step(r, lines[0]), lines[1..])
  }

  function Reader(c: Codec): (Reading, string) -> Reading {
    (r, line) => ReadLine(c, r, line)
  }

  function ReadLines(c: Codec, r: Reading, lines: seq<string>): Reading {
    Fold(Reader(c), r, lines)
  }

  function Load(c: Codec, text: string): Entries {
    ReadLines(c, Reading(None, map[]), Split(text, '\n')).entries
  }

  /** `load` of a file that exists; the line ends it also strips are white space and go with the trim. */
  method LoadText(c: Codec, text: string) returns (entries: Entries)
    ensures entries == Load(c, text)
  {
    var lines := Split(text, '\n');
    entries := map[];
    var pending: Option<Meta> := None;
    for i := 0 to |lines|
      invariant ReadLines(c, Reading(None, map[]), lines) == ReadLines(c, Reading(pending, entries), lines[i..])
    {
      assert lines[i..][0] == lines[i] && lines[i..][1..] == lines[i + 1..];
      var line := Trim(lines[i]);
      if line == "" {
        continue;
      }
      if StartsWith(line, "# ") {
        var meta := ParseMetaComment(c, line[2..]);
        if meta.Some? {
          pending := meta;
        }
        continue;
      }
      if line[0] == '#' {
        continue;
      }
      var bridge := c.parseBridge(line);
      if bridge.Some? && c.usable(bridge.value) {
        entries := entries[bridge.value.identity := EntryOf(bridge.value, Pick(pending))];
      }
      pending := None;
    }
  }

  // ---------------------------------------------------------------------------------------------
  // Writing
  // ---------------------------------------------------------------------------------------------

  const HEADER_WORD := "Auto-generated"
  const HEADER_REST := "by tor-socks5. Bridge reachability health."

  function Comment(s: string): string {
    "# " + s
  }

  function HeaderLine(): string {
    Comment(HEADER_WORD + [' '] + HEADER_REST)
  }

  function UpdatedLine(c: Codec, now: Time): string {
    Comment("Last" + [' '] + ("updated at " + c.iso(now) + "."))
  }

  function EntryLines(c: Codec, e: Entry): seq<string> {
    [Comment(MetaText(c, MetaOf(e))), c.show(e.bridge), ""]
  }

  function BodyLines(c: Codec, es: seq<Entry>): seq<string> {
    if es == [] then [] else EntryLines(c, es[0]) + BodyLines(c, es[1..])
  }

  function FileLines(c: Codec, now: Time, es: seq<Entry>): seq<string> {
    [HeaderLine(), UpdatedLine(c, now), ""] + BodyLines(c, es)
  }

  /** Lines, each ended by a newline. */
  function Ended(lines: seq<string>): string {
    if lines == [] then "" else lines[0] + ['\n'] + Ended(lines[1..])
  }

  lemma {:induction false} EndedConcat(a: seq<string>, b: seq<string>)
    ensures Ended(a + b) == Ended(a) + Ended(b)
  {
    if a == [] {
      assert a + b == b;
    } else {
      EndedConcat(a[1..], b);
      assert (a + b)[0] == a[0] && (a + b)[1..] == a[1..] + b;
      assert a[0] + ['\n'] + (Ended(a[1..]) + Ended(b)) == (a[0] + ['\n'] + Ended(a[1..])) + Ended(b);
    }
  }

  lemma EndedThree(a: string, b: string)
    ensures Ended([a, b, ""]) == a + ['\n'] + b + ['\n'] + ['\n']
  {
    assert [a, b, ""][1..] == [b, ""] && [b, ""][1..] == [""] && [""][1..] == [];
    assert Ended([""]) == ['\n'];
    assert Ended([b, ""]) == b + ['\n'] + ['\n'];
    assert a + ['\n'] + (b + ['\n'] + ['\n']) == a + ['\n'] + b + ['\n'] + ['\n'];
  }

  lemma {:induction false} SplitEnded(lines: seq<string>)
    requires OneLiners(lines)
    ensures Split(Ended(lines), '\n') == lines + [""]
  {
    if lines != [] {
      SplitEnded(lines[1..]);
      SplitStep(lines[0], Ended(lines[1..]), '\n');
      assert lines == [lines[0]] + lines[1..];
    }
  }

  /** Healthy and most recently successful first. */
  predicate SaveOrder(a: Entry, b: Entry) {
    a.fails < b.fails || (a.fails == b.fails && NotLater(b.lastOk, a.lastOk))
  }

  predicate NotLater(a: Option<Time>, b: Option<Time>) {
    a.None? || (b.Some? && a.value <= b.value)
  }

  /** Entries are filed under their own identity, and their counters are 32-bit. */
  ghost predicate StoreOk(entries: Entries) {
    forall id | id in entries :: entries[id].bridge.identity == id && CountersFit(MetaOf(entries[id]))
  }

  ghost predicate Filed(entries: Entries, e: Entry) {
    e.bridge.identity in entries && entries[e.bridge.identity] == e
  }

  /** `es` holds every entry of the store exactly once. */
  ghost predicate ListsEntries(es: seq<Entry>, entries: Entries) {
    TopK.Distinct(es) && (forall e :: e in es <==> Filed(entries, e))
  }

  lemma SortMembers<T>(s: seq<T>, le: (T, T) -> bool, x: T)
    ensures x in TopK.Sort(s, le) <==> x in s
  {
    TopK.SortElements(s, le);
    assert x in multiset(TopK.Sort(s, le)) <==> x in multiset(s);
  }

  lemma SortLists(es: seq<Entry>, entries: Entries)
    requires ListsEntries(es, entries)
    ensures ListsEntries(TopK.Sort(es, SaveOrder), entries)
    ensures TopK.SortedBy(TopK.Sort(es, SaveOrder), SaveOrder)
  {
    TopK.SortSorts(es, SaveOrder);
    TopK.SortDistinct(es, SaveOrder);
    forall e ensures e in TopK.Sort(es, SaveOrder) <==> e in es { SortMembers(es, SaveOrder, e); }
  }

  lemma ListsOneMore(es: seq<Entry>, entries: Entries, e: Entry)
    requires ListsEntries(es, entries) && e.bridge.identity !in entries
    ensures ListsEntries(es + [e], entries[e.bridge.identity := e])
  {
    assert e !in es by { assert !Filed(entries, e); }
    forall x ensures x in es + [e] <==> Filed(entries[e.bridge.identity := e], x) {
      assert x in es <==> Filed(entries, x);
    }
  }

  /** The entries of a store, in the order they are written. */
  method Sorted(entries: Entries) returns (es: seq<Entry>)
    requires StoreOk(entries)
    ensures ListsEntries(es, entries) && TopK.SortedBy(es, SaveOrder)
  {
    es := [];
    var todo, done := entries.Keys, map[];
    while todo != {}
      invariant todo <= entries.Keys && done.Keys == entries.Keys - todo
      invariant forall id | id in done :: done[id] == entries[id]
      invariant ListsEntries(es, done)
      decreases |todo|
    {
      var id :| id in todo;
      ListsOneMore(es, done, entries[id]);
      es, done, todo := es + [entries[id]], done[id := entries[id]], todo - {id};
    }
    assert done == entries;
    SortLists(es, entries);
    es := TopK.Sort(es, SaveOrder);
  }

  /** The text is the header and every entry of the store once, healthiest first. */
  ghost predicate Saves(c: Codec, now: Time, entries: Entries, es: seq<Entry>, text: string) {
    ListsEntries(es, entries) && TopK.SortedBy(es, SaveOrder) && text == Ended(FileLines(c, now, es))
  }

  /** Fewer failures first, and among equals the more recent success first; never comes last. */
  ghost predicate HealthiestFirst(es: seq<Entry>) {
    forall i, j | 0 <= i < j < |es| ::
      || es[i].fails < es[j].fails
      || (es[i].fails == es[j].fails
          && (es[j].lastOk.None? || (es[i].lastOk.Some? && es[i].lastOk.value >= es[j].lastOk.value)))
  }

  /** `save`, up to handing the text to the temp-file writer. */
  method SaveText(c: Codec, now: Time, entries: Entries) returns (text: string)
    requires StoreOk(entries)
    ensures exists es :: Saves(c, now, entries, es, text) && HealthiestFirst(es)
  {
    var sorted := Sorted(entries);
    text := HeaderLine() + ['\n'] + UpdatedLine(c, now) + ['\n'] + ['\n'];
    EndedThree(HeaderLine(), UpdatedLine(c, now));
    ghost var written := [HeaderLine(), UpdatedLine(c, now), ""];
    for i := 0 to |sorted|
      invariant text == Ended(written)
      invariant written + BodyLines(c, sorted[i..]) == FileLines(c, now, sorted)
    {
      var e := sorted[i];
      NextEntry(c, sorted, i, written);
      ThreeMore(written, Comment(MetaText(c, MetaOf(e))), c.show(e.bridge));
      text := text + (Comment(MetaText(c, MetaOf(e))) + ['\n'] + c.show(e.bridge) + ['\n'] + ['\n']);
      written := written + EntryLines(c, e);
    }
    assert sorted[|sorted|..] == [];
    assert written + [] == written;
    assert Saves(c, now, entries, sorted, text);
  }

  lemma NextEntry(c: Codec, es: seq<Entry>, i: nat, written: seq<string>)
    requires i < |es|
    ensures written + BodyLines(c, es[i..]) == (written + EntryLines(c, es[i])) + BodyLines(c, es[i + 1..])
  {
    assert es[i..][0] == es[i] && es[i..][1..] == es[i + 1..];
    Regroup(written, EntryLines(c, es[i]), BodyLines(c, es[i + 1..]));
  }

  lemma Regroup<T>(a: seq<T>, b: seq<T>, c: seq<T>)
    ensures a + (b + c) == (a + b) + c
  {
  }

  lemma ThreeMore(written: seq<string>, a: string, b: string)
    ensures Ended(written + [a, b, ""]) == Ended(written) + (a + ['\n'] + b + ['\n'] + ['\n'])
  {
    EndedConcat(written, [a, b, ""]);
    EndedThree(a, b);
  }

  // ---------------------------------------------------------------------------------------------
  // Loading what was saved
  // ---------------------------------------------------------------------------------------------

  /** What an entry becomes: latency cut to whole milliseconds and no empty label; with a latency past 64 bits
      of milliseconds, a record without history. */
  function Reloaded(e: Entry): Entry {
    EntryOf(e.bridge, Pick(Reread(MetaOf(e))))
  }

  function WithEntry(c: Codec, entries: Entries, e: Entry): Entries {
    if c.usable(e.bridge) then entries[e.bridge.identity := Reloaded(e)] else entries
  }

  function ReloadAll(c: Codec, entries: Entries, es: seq<Entry>): Entries
    decreases |es|
  {
    if es == [] then entries else ReloadAll(c, WithEntry(c, entries, es[0]), es[1..])
  }

  lemma {:induction false} FoldConcat(
    step: (Reading, string) -> Reading, r: Reading, a: seq<string>, b: seq<string>)
    ensures Fold(step, r, a + b) == Fold(step, Fold(step, r, a), b)
    decreases |a|
  {
    if a == [] {
      assert a + b == b;
    } else {
      FoldConcat(step, step(r, a[0]), a[1..], b);
      assert (a + b)[0] == a[0] && (a + b)[1..] == a[1..] + b;
    }
  }

  lemma ReadConcat(c: Codec, r: Reading, a: seq<string>, b: seq<string>)
    ensures ReadLines(c, r, a + b) == ReadLines(c, ReadLines(c, r, a), b)
  {
    FoldConcat(Reader(c), r, a, b);
  }

  lemma ReadThree(c: Codec, r: Reading, a: string, b: string)
    ensures ReadLines(c, r, [a, b, ""]) == ReadLine(c, ReadLine(c, r, a), b)
  {
    assert [a, b, ""][1..] == [b, ""] && [b, ""][1..] == [""] && [""][1..] == [];
    var r2 := ReadLine(c, ReadLine(c, r, a), b);
    assert ReadLines(c, r2, [""]) == ReadLines(c, r2, []);
    assert ReadLines(c, ReadLine(c, r, a), [b, ""]) == ReadLines(c, r2, [""]);
  }

  lemma CommentReads(c: Codec, r: Reading, s: string)
    requires IsTrimmed(s)
    ensures ReadLine(c, r, Comment(s)) ==
      if ParseMeta(c, s).Some? then r.(pending := ParseMeta(c, s)) else r
  {
    var line := Comment(s);
    assert line[|line| - 1] == s[|s| - 1];
    assert line[..2] == "# " && line[2..] == s;
  }

  lemma BridgeLineReads(c: Codec, r: Reading, b: Bridge)
    requires Invertible(c)
    ensures ReadLine(c, r, c.show(b)) ==
      Reading(None, if c.usable(b) then r.entries[b.identity := EntryOf(b, Pick(r.pending))] else r.entries)
  {
    var line := c.show(b);
    assert IsTrimmed(line) && Trim(line) == line && line[0] != '#';
    assert !StartsWith(line, "# ") by { assert |line| >= 2 ==> line[..2][0] == line[0]; }
  }

  /** A bridge line uses up the pending metadata whether or not it can be used, so a comment speaks of the next
      bridge line only; blank lines and comments that are no metadata change nothing, and no comment touches an
      entry. */
  lemma LineEffects(c: Codec, r: Reading, raw: string)
    ensures var line, after := Trim(raw), ReadLine(c, r, raw);
      && (line != "" && line[0] != '#' ==> after.pending.None?)
      && (line == "" || line[0] == '#' ==> after.entries == r.entries)
      && (line == "" || (line[0] == '#' && (!StartsWith(line, "# ") || ParseMeta(c, line[2..]).None?)) ==> after == r)
      && (forall id | id in r.entries :: id in after.entries)
      && (forall id | id in after.entries && (id !in r.entries || after.entries[id] != r.entries[id]) ::
            c.parseBridge(line).Some? && c.parseBridge(line).value.identity == id
            && c.usable(c.parseBridge(line).value))
  {
    var line := Trim(raw);
    assert StartsWith(line, "# ") ==> line[..2][0] == line[0];
  }

  /** An older file: the oldest comment and a bridge line load as a bridge that was reached once, at that time. */
  lemma OlderEntryLoads(c: Codec, entries: Entries, b: Bridge, t: Time, n: nat)
    requires Invertible(c) && c.iso(t)[0] != 'f'
    ensures var comment := Comment(c.iso(t) + " " + ("latency=" + Print(n) + "ms"));
      ReadLines(c, Reading(None, entries), [comment, c.show(b), ""]) ==
        Reading(None,
          if !c.usable(b) then entries
          else entries[b.identity :=
            if n < 0x1_0000_0000_0000_0000
            then Entry(b, Some(t), t, n * 1_000_000, 0, 1, 0, None, 0, None, None, 0, t, {})
            else Entry(b, None, 0, 0, 0, 0, 0, None, 0, None, None, 0, 0, {})])
  {
    var tail := "latency=" + Print(n) + "ms";
    var text := c.iso(t) + " " + tail;
    LegacyCommentLoads(c, t, n);
    assert text[0] == c.iso(t)[0] && text[|text| - 1] == tail[|tail| - 1] == 's';
    CommentReads(c, Reading(None, entries), text);
    BridgeLineReads(c, ReadLine(c, Reading(None, entries), Comment(text)), b);
    ReadThree(c, Reading(None, entries), Comment(text), c.show(b));
  }

  /** A bridge line without a comment loads without any history. */
  lemma BareLineLoads(c: Codec, entries: Entries, b: Bridge)
    requires Invertible(c)
    ensures ReadLine(c, Reading(None, entries), c.show(b)) ==
      Reading(None,
        if c.usable(b) then entries[b.identity := Entry(b, None, 0, 0, 0, 0, 0, None, 0, None, None, 0, 0, {})]
        else entries)
  {
    BridgeLineReads(c, Reading(None, entries), b);
  }

  lemma EntryReads(c: Codec, entries: Entries, e: Entry)
    requires Invertible(c) && CountersFit(MetaOf(e))
    ensures ReadLines(c, Reading(None, entries), EntryLines(c, e)) == Reading(None, WithEntry(c, entries, e))
  {
    var m := MetaOf(e);
    var text := MetaText(c, m);
    MetaRoundTrip(c, m);
    CommentReads(c, Reading(None, entries), text);
    BridgeLineReads(c, Reading(Reread(m), entries), e.bridge);
    ReadThree(c, Reading(None, entries), Comment(text), c.show(e.bridge));
  }

  lemma {:induction false} BodyReads(c: Codec, entries: Entries, es: seq<Entry>)
    requires Invertible(c) && forall i | 0 <= i < |es| :: CountersFit(MetaOf(es[i]))
    ensures ReadLines(c, Reading(None, entries), BodyLines(c, es)) == Reading(None, ReloadAll(c, entries, es))
    decreases |es|
  {
    if es != [] {
      EntryReads(c, entries, es[0]);
      ReadConcat(c, Reading(None, entries), EntryLines(c, es[0]), BodyLines(c, es[1..]));
      BodyReads(c, WithEntry(c, entries, es[0]), es[1..]);
    }
  }

  lemma NotMeta(c: Codec, word: string, tail: string)
    requires ' ' !in word && |word| > 0 && word[0] != 'f' && c.parseIso(word).None?
    ensures ParseMeta(c, word + [' '] + tail).None?
  {
    var s := word + [' '] + tail;
    StartsWithCons(s, "fails=");
    assert s[0] == word[0];
    SplitStep(word, tail, ' ');
  }

  /** The words of the header are no timestamps, so it leaves no metadata behind. */
  lemma HeaderReads(c: Codec, now: Time, r: Reading)
    requires Invertible(c)
    ensures ReadLines(c, r, [HeaderLine(), UpdatedLine(c, now), ""]) == r
  {
    NotMeta(c, HEADER_WORD, HEADER_REST);
    CommentReads(c, r, HEADER_WORD + [' '] + HEADER_REST);
    var rest := "updated at " + c.iso(now) + ".";
    NotMeta(c, "Last", rest);
    CommentReads(c, r, "Last" + [' '] + rest);
    ReadThree(c, r, HeaderLine(), UpdatedLine(c, now));
  }

  ghost predicate OneLiners(lines: seq<string>) {
    forall i | 0 <= i < |lines| :: '\n' !in lines[i]
  }

  lemma OneLinersConcat(a: seq<string>, b: seq<string>)
    requires OneLiners(a) && OneLiners(b)
    ensures OneLiners(a + b)
  {
  }

  lemma EntryIsOneLiners(c: Codec, e: Entry)
    requires Invertible(c) && CountersFit(MetaOf(e))
    ensures OneLiners(EntryLines(c, e))
  {
    var text := MetaText(c, MetaOf(e));
    MetaRoundTrip(c, MetaOf(e));
    CommentIsOneLine(text);
    ThreeOneLiners(Comment(text), c.show(e.bridge));
  }

  lemma ThreeOneLiners(a: string, b: string)
    requires '\n' !in a && '\n' !in b
    ensures OneLiners([a, b, ""])
  {
  }

  lemma {:induction false} BodyIsOneLiners(c: Codec, es: seq<Entry>)
    requires Invertible(c) && forall i | 0 <= i < |es| :: CountersFit(MetaOf(es[i]))
    ensures OneLiners(BodyLines(c, es))
    decreases |es|
  {
    if es != [] {
      BodyIsOneLiners(c, es[1..]);
      EntryIsOneLiners(c, es[0]);
      OneLinersConcat(EntryLines(c, es[0]), BodyLines(c, es[1..]));
    }
  }

  lemma HeaderIsOneLiners(c: Codec, now: Time)
    requires Invertible(c)
    ensures OneLiners([HeaderLine(), UpdatedLine(c, now), ""])
  {
    var rest := "updated at " + c.iso(now) + ".";
    assert '\n' !in c.iso(now);
    assert '\n' !in "updated at " && '\n' !in rest;
    assert '\n' !in "Last" + [' '] + rest;
    CommentIsOneLine("Last" + [' '] + rest);
    assert '\n' !in HEADER_WORD && '\n' !in HEADER_REST;
    CommentIsOneLine(HEADER_WORD + [' '] + HEADER_REST);
    ThreeOneLiners(HeaderLine(), UpdatedLine(c, now));
  }

  lemma CommentIsOneLine(s: string)
    requires '\n' !in s
    ensures '\n' !in Comment(s)
  {
  }

  lemma FileReads(c: Codec, now: Time, es: seq<Entry>)
    requires Invertible(c) && forall i | 0 <= i < |es| :: CountersFit(MetaOf(es[i]))
    ensures Load(c, Ended(FileLines(c, now, es))) == ReloadAll(c, map[], es)
  {
    var r, header, body := Reading(None, map[]), [HeaderLine(), UpdatedLine(c, now), ""], BodyLines(c, es);
    var lines := FileLines(c, now, es);
    HeaderIsOneLiners(c, now);
    BodyIsOneLiners(c, es);
    OneLinersConcat(header, body);
    SplitEnded(lines);
    ReadConcat(c, r, lines, [""]);
    ReadConcat(c, r, header, body);
    HeaderReads(c, now, r);
    BodyReads(c, map[], es);
    var all := ReadLines(c, r, lines);
    assert [""][1..] == [] && ReadLines(c, all, [""]) == all;
  }

  /** The last entry listed for an identity decides what is loaded for it. */
  lemma {:induction false} ReloadOthers(c: Codec, entries: Entries, es: seq<Entry>, id: nat)
    requires forall i | 0 <= i < |es| :: es[i].bridge.identity != id
    ensures var out := ReloadAll(c, entries, es);
      (id in out <==> id in entries) && (id in entries ==> out[id] == entries[id])
    decreases |es|
  {
    if es != [] { ReloadOthers(c, WithEntry(c, entries, es[0]), es[1..], id); }
  }

  lemma {:induction false} ReloadOne(c: Codec, entries: Entries, es: seq<Entry>, k: nat)
    requires k < |es| && es[k].bridge.identity !in entries
    requires forall i, j | 0 <= i < j < |es| :: es[i].bridge.identity != es[j].bridge.identity
    ensures var out, id := ReloadAll(c, entries, es), es[k].bridge.identity;
      (id in out <==> c.usable(es[k].bridge)) && (id in out ==> out[id] == Reloaded(es[k]))
    decreases |es|
  {
    if k == 0 {
      ReloadOthers(c, WithEntry(c, entries, es[0]), es[1..], es[0].bridge.identity);
    } else {
      ReloadOne(c, WithEntry(c, entries, es[0]), es[1..], k - 1);
    }
  }

  lemma ListedOnce(es: seq<Entry>, entries: Entries, i: nat, j: nat)
    requires ListsEntries(es, entries) && i < j < |es|
    ensures es[i].bridge.identity != es[j].bridge.identity
  {
    assert es[i] in es && es[j] in es;
    assert Filed(entries, es[i]) && Filed(entries, es[j]);
  }

  lemma StoredLoads(c: Codec, entries: Entries, es: seq<Entry>, id: nat)
    requires StoreOk(entries) && ListsEntries(es, entries)
    ensures var loaded := ReloadAll(c, map[], es);
      && (id in loaded <==> id in entries && c.usable(entries[id].bridge))
      && (id in loaded ==> loaded[id] == Reloaded(entries[id]))
  {
    if id in entries {
      assert Filed(entries, entries[id]);
      var k :| 0 <= k < |es| && es[k] == entries[id];
      forall i, j | 0 <= i < j < |es| ensures es[i].bridge.identity != es[j].bridge.identity {
        ListedOnce(es, entries, i, j);
      }
      ReloadOne(c, map[], es, k);
    } else {
      forall i | 0 <= i < |es| ensures es[i].bridge.identity != id { assert Filed(entries, es[i]); }
      ReloadOthers(c, map[], es, id);
    }
  }

  /** Loading a saved store gives back exactly the usable entries, each with all its counters, timestamps and
      non-empty labels, whatever order they were written in. */
  lemma SavedStoreLoads(c: Codec, now: Time, entries: Entries, es: seq<Entry>, id: nat)
    requires Invertible(c) && StoreOk(entries) && ListsEntries(es, entries)
    ensures var loaded := Load(c, Ended(FileLines(c, now, es)));
      && (id in loaded <==> id in entries && c.usable(entries[id].bridge))
      && (id in loaded ==> loaded[id] == Reloaded(entries[id]))
  {
    forall i | 0 <= i < |es| ensures CountersFit(MetaOf(es[i])) { assert Filed(entries, es[i]); }
    FileReads(c, now, es);
    StoredLoads(c, entries, es, id);
  }

  /** Saving and loading, as the two methods do it. */
  method Reload(c: Codec, now: Time, entries: Entries) returns (loaded: Entries)
    requires Invertible(c) && StoreOk(entries)
    ensures forall id :: id in loaded <==> id in entries && c.usable(entries[id].bridge)
    ensures forall id | id in loaded :: loaded[id] == Reloaded(entries[id])
  {
    var text := SaveText(c, now, entries);
    loaded := LoadText(c, text);
    ghost var es :| Saves(c, now, entries, es, text);
    forall id
      ensures id in loaded <==> id in entries && c.usable(entries[id].bridge)
      ensures id in loaded ==> loaded[id] == Reloaded(entries[id])
    {
      SavedStoreLoads(c, now, entries, es, id);
    }
  }

  /** An entry survives with everything but sub-millisecond latency and an empty label exactly when its latency
      fits 64 bits of milliseconds. */
  lemma HistorySurvivesExactly(e: Entry)
    ensures Reloaded(e) == e.(lastLatency := e.lastLatency / 1_000_000 * 1_000_000, sources := e.sources - {""})
      <==> e.lastLatency / 1_000_000 < 0x1_0000_0000_0000_0000
  {
  }

  lemma LongLatencyLosesHistory()
    ensures exists e: Entry :: e.fails > 0 && CountersFit(MetaOf(e)) && Reloaded(e).fails == 0
  {
    var e := EntryOf(Bridge(0, ""), DEFAULT_META.(fails := 1, latencyMs := U64_BOUND));
    assert e.lastLatency / NANOS_PER_MS == U64_BOUND;
    assert e.fails > 0 && CountersFit(MetaOf(e)) && Reloaded(e).fails == 0;
  }
}
