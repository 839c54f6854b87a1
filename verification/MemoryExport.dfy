/** The parser of an assistant's memory export: lines in, facts for the memory out. */
module MemoryExport {
  import opened Text
  import opened MemoryDoc
  import opened MemoryImport
  import opened Wrappers

  datatype Item = Item(date: string, tags: string, content: string)

  /** The patterns of the parser, as what they capture from a trimmed line. */
  datatype Patterns = Patterns(
    header: string -> Option<string>,
    item: string -> Option<Item>,
    categories: seq<(string -> bool, string)>)

  /** Captures are parts of the line, and the target sections are fixed one-line names. */
  ghost predicate SoundPatterns(p: Patterns) {
    && (forall line :: '\n' !in line && p.item(line).Some? ==>
          '\n' !in p.item(line).value.date && '\n' !in p.item(line).value.content)
    && (forall i | 0 <= i < |p.categories| ::
          '\n' !in p.categories[i].1 && '\U{0001}' !in p.categories[i].1)
  }

  /** `mapCategory`: the first category whose pattern matches wins. */
  function MapCategory(name: string, categories: seq<(string -> bool, string)>): (r: Option<string>)
    ensures match r
            case None => forall i | 0 <= i < |categories| :: !categories[i].0(Trim(name))
            case Some(section) =>
              exists i | 0 <= i < |categories| ::
                && categories[i].0(Trim(name)) && categories[i].1 == section
                && forall j | 0 <= j < i :: !categories[j].0(Trim(name))
  {
    if categories == [] then None
    else if categories[0].0(Trim(name)) then Some(categories[0].1)
    else
      var r := MapCategory(name, categories[1..]);
      assert r.Some? ==> exists i | 1 <= i < |categories| ::
        && categories[i].0(Trim(name)) && categories[i].1 == r.value
        && forall j | 0 <= j < i :: !categories[j].0(Trim(name))
      by {
        if r.Some? {
          var i :| 0 <= i < |categories[1..]| && categories[1..][i].0(Trim(name)) && categories[1..][i].1 == r.value
                   && forall j | 0 <= j < i :: !categories[1..][j].0(Trim(name));
          assert categories[i + 1].0(Trim(name));
          assert forall j | 0 < j < i + 1 :: categories[j] == categories[1..][j - 1];
        }
      }
      r
  }

  /** Date of a structured line; a placeholder such as "2026-01-01 | unknown" keeps its left half. */
  function ParseDate(raw: string, c: Casing): (d: Option<string>)
    ensures d.Some? ==> d.value != "" && forall x :: x in d.value ==> x in raw
  {
    var first := Trim(SplitOn(raw, '|')[0]);
    TrimFacts(SplitOn(raw, '|')[0]);
    SplitStart(raw, '|');
    if first == "" || FoldEqual(first, "unknown", c) then None else Some(first)
  }

  function NotEmpty(parts: seq<string>): seq<string> {
    if parts == [] then [] else (if parts[0] == "" then [] else [parts[0]]) + NotEmpty(parts[1..])
  }

  function Trims(parts: seq<string>): seq<string> {
    if parts == [] then [] else [Trim(parts[0])] + Trims(parts[1..])
  }

  function ParseTags(raw: string): seq<string> {
    if raw == "" then [] else NotEmpty(Trims(SplitOn(raw, ',')))
  }

  const MAX_CONTENT := 2000

  /** What a content line turns into, before it is filed under a section. */
  datatype Draft = Draft(content: string, lowered: string, date: Option<string>, tags: seq<string>)

  /** One line as the patterns see it. */
  datatype Row = Empty | Heading(name: string, section: Option<string>) | Content(draft: Option<Draft>)

  /** Date, tags and text of a content line. */
  function Captured(t: string, p: Patterns, c: Casing): (Option<string>, seq<string>, string) {
    match p.item(t)
    case Some(item) => (ParseDate(Trim(item.date), c), ParseTags(Trim(item.tags)), Trim(item.content))
    case None =>
      var bare := if t != "" && t[0] in {'-', '*', '\U{2022}'} then TrimStart(t[1..]) else t;
      (None, [], Trim(bare))
  }

  /** The line to append: the date first, if there is one, and cut to length. */
  function Dated(date: Option<string>, scrubbed: string): string {
    var text := if date.Some? then "[" + date.value + "] " + scrubbed else scrubbed;
    if |text| > MAX_CONTENT then text[..MAX_CONTENT] else text
  }

  function DraftOf(t: string, p: Patterns, c: Casing): Option<Draft> {
    var (date, tags, content) := Captured(t, p, c);
    var scrubbed := Sanitize(content);
    if scrubbed == "" then None
    else
      var bounded := Dated(date, scrubbed);
      Some(Draft(bounded, c.lower(bounded), date, tags))
  }

  function RowOf(raw: string, p: Patterns, c: Casing): Row {
    var t := Trim(TrimEnd(raw));
    if t == "" then Empty
    else match p.header(t)
      case Some(name) => Heading(Trim(name), MapCategory(Trim(name), p.categories))
      case None => Content(DraftOf(t, p, c))
  }

  function Rows(lines: seq<string>, p: Patterns, c: Casing): (rows: seq<Row>)
    ensures |rows| == |lines|
    ensures forall i | 0 <= i < |lines| :: rows[i] == RowOf(lines[i], p, c)
  {
    if lines == [] then [] else Rows(lines[..|lines| - 1], p, c) + [RowOf(lines[|lines| - 1], p, c)]
  }

  // ----- What the parser is for -----

  /** The nearest heading above line `i`. */
  function HeadingAbove(rows: seq<Row>, i: nat): (h: Option<Row>)
    requires i <= |rows|
    ensures h.Some? ==> h.value.Heading?
  {
    if i == 0 then None
    else if rows[i - 1].Heading? then Some(rows[i - 1])
    else HeadingAbove(rows, i - 1)
  }

  datatype Entry = Entry(section: string, category: string, draft: Draft)

  /** The entry that line `i` stands for, duplicates not yet considered: a content line with
      something on it, filed under the section of the nearest heading above. */
  function Candidate(rows: seq<Row>, i: nat): Option<Entry>
    requires i < |rows|
  {
    var above := HeadingAbove(rows, i);
    if above.None? || above.value.section.None? then None
    else if !rows[i].Content? || rows[i].draft.None? then None
    else Some(Entry(above.value.section.value, above.value.name, rows[i].draft.value))
  }

  predicate SameFact(d: Entry, e: Entry) {
    d.section == e.section && d.draft.lowered == e.draft.lowered
  }

  /** One of the first `n` lines already gives the entry, letter case aside. */
  predicate Given(rows: seq<Row>, n: nat, e: Entry)
    requires n <= |rows|
  {
    exists j | 0 <= j < n :: Candidate(rows, j).Some? && SameFact(Candidate(rows, j).value, e)
  }

  /** The entries of the first `n` lines, in input order, later duplicates dropped. */
  function Entries(rows: seq<Row>, n: nat): seq<Entry>
    requires n <= |rows|
  {
    if n == 0 then []
    else
      var e := Candidate(rows, n - 1);
      if e.None? || Given(rows, n - 1, e.value) then Entries(rows, n - 1)
      else Entries(rows, n - 1) + [e.value]
  }

  /** Names of the headings without a section, each once, in the order they first appear. */
  function Unmapped(rows: seq<Row>, n: nat): seq<string>
    requires n <= |rows|
  {
    if n == 0 then []
    else
      var before, row := Unmapped(rows, n - 1), rows[n - 1];
      before + (if row.Heading? && row.section.None? && row.name !in before then [row.name] else [])
  }

  // ----- The same, line by line -----

  /** Line `i` gives the entry: it is a content line with that draft, and the nearest heading above it,
      line `h`, has the entry's section and category. */
  ghost predicate FiledAt(rows: seq<Row>, h: int, i: int, e: Entry) {
    && 0 <= h < i < |rows|
    && rows[h] == Heading(e.category, Some(e.section))
    && (forall j | h < j < i :: !rows[j].Heading?)
    && rows[i] == Content(Some(e.draft))
  }

  ghost predicate Filed(rows: seq<Row>, i: int, e: Entry) {
    exists h :: FiledAt(rows, h, i, e)
  }

  ghost predicate Increasing(at: seq<nat>) {
    forall k, l | 0 <= k < l < |at| :: at[k] < at[l]
  }

  /** Entry `k` comes from line `at[k]`. */
  ghost predicate ComeFrom(rows: seq<Row>, entries: seq<Entry>, at: seq<nat>) {
    && |at| == |entries| && Increasing(at)
    && forall k | 0 <= k < |entries| :: Filed(rows, at[k], entries[k])
  }

  /** What line `i` gives is among the entries that come from lines up to `i`, letter case aside. */
  ghost predicate Covered(entries: seq<Entry>, at: seq<nat>, i: int, e: Entry)
    requires |at| == |entries|
  {
    exists k | 0 <= k < |entries| ::
      at[k] <= i && entries[k].section == e.section && entries[k].draft.lowered == e.draft.lowered
  }

  ghost predicate AllCovered(rows: seq<Row>, entries: seq<Entry>, at: seq<nat>)
    requires |at| == |entries|
  {
    forall i, e | Filed(rows, i, e) :: Covered(entries, at, i, e)
  }

  ghost predicate NoneTwice(entries: seq<Entry>) {
    forall k, l | 0 <= k < l < |entries| ::
      entries[k].section != entries[l].section || entries[k].draft.lowered != entries[l].draft.lowered
  }

  /** The entries are those that the lines give, in the order of the lines, each section and lower-case
      text only where it comes first. */
  ghost predicate AreFiled(rows: seq<Row>, entries: seq<Entry>) {
    exists at :: ComeFrom(rows, entries, at) && AllCovered(rows, entries, at) && NoneTwice(entries)
  }

  /** Name `k` is first seen in a heading without a section on line `at[k]`. */
  ghost predicate FirstSeen(rows: seq<Row>, names: seq<string>, at: seq<nat>) {
    && |at| == |names| && Increasing(at)
    && forall k | 0 <= k < |names| ::
         && at[k] < |rows| && rows[at[k]] == Heading(names[k], None)
         && forall j | 0 <= j < at[k] :: rows[j] != Heading(names[k], None)
  }

  /** The names are those of the headings without a section, once each, in the order of the lines. */
  ghost predicate AreUnmapped(rows: seq<Row>, names: seq<string>) {
    && (exists at :: FirstSeen(rows, names, at))
    && forall i | 0 <= i < |rows| && rows[i].Heading? && rows[i].section.None? :: rows[i].name in names
  }

  lemma {:induction false} AboveIsNearest(rows: seq<Row>, i: nat) returns (h: nat)
    requires i <= |rows|
    ensures match HeadingAbove(rows, i)
            case None => forall j | 0 <= j < i :: !rows[j].Heading?
            case Some(row) => h < i && rows[h] == row && forall j | h < j < i :: !rows[j].Heading?
  {
    h := 0;
    if i > 0 {
      if rows[i - 1].Heading? {
        h := i - 1;
      } else {
        h := AboveIsNearest(rows, i - 1);
      }
    }
  }

  lemma CandidateIsFiled(rows: seq<Row>, i: nat) returns (h: nat)
    requires i < |rows|
    ensures Candidate(rows, i).Some? ==> FiledAt(rows, h, i, Candidate(rows, i).value)
    ensures forall g, e | FiledAt(rows, g, i, e) :: Candidate(rows, i) == Some(e)
  {
    h := AboveIsNearest(rows, i);
    forall g, e | FiledAt(rows, g, i, e) ensures Candidate(rows, i) == Some(e) {
      assert rows[g].Heading? && HeadingAbove(rows, i).Some?;
      assert g == h;
    }
  }

  /** The entries, by the lines they come from. */
  ghost predicate Picked(rows: seq<Row>, entries: seq<Entry>, at: seq<nat>, n: nat)
    requires n <= |rows|
  {
    && |at| == |entries| && Increasing(at)
    && forall k | 0 <= k < |at| :: at[k] < n && Candidate(rows, at[k]) == Some(entries[k])
  }

  /** Of the entries that lines before `n` give, none is missing. */
  ghost predicate NoneMissing(rows: seq<Row>, entries: seq<Entry>, at: seq<nat>, n: nat)
    requires |at| == |entries| && n <= |rows|
  {
    forall i | 0 <= i < n && Candidate(rows, i).Some? :: Covered(entries, at, i, Candidate(rows, i).value)
  }

  lemma GivenIsCovered(rows: seq<Row>, entries: seq<Entry>, at: seq<nat>, n: nat, e: Entry)
    requires n <= |rows| && Picked(rows, entries, at, n) && NoneMissing(rows, entries, at, n)
    ensures Given(rows, n, e) <==> Covered(entries, at, n, e)
  {
    if Given(rows, n, e) {
      var j :| 0 <= j < n && Candidate(rows, j).Some? && SameFact(Candidate(rows, j).value, e);
      var d := Candidate(rows, j).value;
      assert Covered(entries, at, j, d);
      var k :| 0 <= k < |entries| && at[k] <= j
               && entries[k].section == d.section && entries[k].draft.lowered == d.draft.lowered;
      assert at[k] <= n && entries[k].section == e.section;
    }
    if Covered(entries, at, n, e) {
      var k :| 0 <= k < |entries| && at[k] <= n
               && entries[k].section == e.section && entries[k].draft.lowered == e.draft.lowered;
      assert Candidate(rows, at[k]) == Some(entries[k]);
    }
  }

  lemma CoveredStays(entries: seq<Entry>, at: seq<nat>, i: int, e: Entry, d: Entry, n: nat)
    requires |at| == |entries| && Covered(entries, at, i, e)
    ensures Covered(entries + [d], at + [n], i, e)
  {
    var more, lines := entries + [d], at + [n];
    var k :| 0 <= k < |entries| && at[k] <= i
             && entries[k].section == e.section && entries[k].draft.lowered == e.draft.lowered;
    assert more[k] == entries[k] && lines[k] == at[k];
  }

  /** The next line gives an entry that is new. */
  lemma PickOne(rows: seq<Row>, entries: seq<Entry>, at: seq<nat>, n: nat, e: Entry)
    requires n < |rows| && Picked(rows, entries, at, n) && NoneMissing(rows, entries, at, n) && NoneTwice(entries)
    requires Candidate(rows, n) == Some(e) && !Covered(entries, at, n, e)
    ensures Picked(rows, entries + [e], at + [n], n + 1) && NoneMissing(rows, entries + [e], at + [n], n + 1)
    ensures NoneTwice(entries + [e])
  {
    var more, lines := entries + [e], at + [n];
    forall i | 0 <= i < n + 1 && Candidate(rows, i).Some?
      ensures Covered(more, lines, i, Candidate(rows, i).value)
    {
      if i == n {
        assert more[|entries|] == e && lines[|entries|] == n;
      } else {
        CoveredStays(entries, at, i, Candidate(rows, i).value, e, n);
      }
    }
    assert forall k | 0 <= k < |entries| :: at[k] <= n;
  }

  /** The next line gives nothing new. */
  lemma PickNone(rows: seq<Row>, entries: seq<Entry>, at: seq<nat>, n: nat)
    requires n < |rows| && Picked(rows, entries, at, n) && NoneMissing(rows, entries, at, n)
    requires Candidate(rows, n).Some? ==> Covered(entries, at, n, Candidate(rows, n).value)
    ensures Picked(rows, entries, at, n + 1) && NoneMissing(rows, entries, at, n + 1)
  {
  }

  /** The first `n` lines have given these entries. */
  ghost predicate Collected(rows: seq<Row>, n: nat, at: seq<nat>)
    requires n <= |rows|
  {
    && Picked(rows, Entries(rows, n), at, n) && NoneMissing(rows, Entries(rows, n), at, n)
    && NoneTwice(Entries(rows, n))
  }

  lemma CollectNext(rows: seq<Row>, n: nat, before: seq<nat>) returns (at: seq<nat>)
    requires n < |rows| && Collected(rows, n, before)
    ensures Collected(rows, n + 1, at)
  {
    var e := Candidate(rows, n);
    at := before;
    if e.Some? {
      GivenIsCovered(rows, Entries(rows, n), before, n, e.value);
    }
    if e.None? || Given(rows, n, e.value) {
      PickNone(rows, Entries(rows, n), before, n);
    } else {
      PickOne(rows, Entries(rows, n), before, n, e.value);
      at := before + [n];
    }
  }

  lemma {:induction false} Collect(rows: seq<Row>, n: nat) returns (at: seq<nat>)
    requires n <= |rows|
    ensures Collected(rows, n, at)
  {
    if n == 0 {
      at := [];
    } else {
      var before := Collect(rows, n - 1);
      at := CollectNext(rows, n - 1, before);
    }
  }

  lemma PickedComeFrom(rows: seq<Row>, entries: seq<Entry>, at: seq<nat>)
    requires Picked(rows, entries, at, |rows|)
    ensures ComeFrom(rows, entries, at)
  {
    forall k | 0 <= k < |entries| ensures Filed(rows, at[k], entries[k]) {
      var h := CandidateIsFiled(rows, at[k]);
      assert Candidate(rows, at[k]) == Some(entries[k]);
    }
  }

  lemma PickedCover(rows: seq<Row>, entries: seq<Entry>, at: seq<nat>)
    requires |at| == |entries| && NoneMissing(rows, entries, at, |rows|)
    ensures AllCovered(rows, entries, at)
  {
    forall i, e | Filed(rows, i, e) ensures Covered(entries, at, i, e) {
      var h :| FiledAt(rows, h, i, e);
      var g := CandidateIsFiled(rows, i);
      assert Candidate(rows, i) == Some(e);
    }
  }

  lemma EntriesAreFiled(rows: seq<Row>)
    ensures AreFiled(rows, Entries(rows, |rows|))
  {
    var at := Collect(rows, |rows|);
    PickedComeFrom(rows, Entries(rows, |rows|), at);
    PickedCover(rows, Entries(rows, |rows|), at);
  }

  /** The names in the first `n` lines. */
  ghost predicate NamesFound(rows: seq<Row>, names: seq<string>, at: seq<nat>, n: nat)
    requires n <= |rows|
  {
    && FirstSeen(rows, names, at) && (forall k | 0 <= k < |at| :: at[k] < n)
    && forall i | 0 <= i < n && rows[i].Heading? && rows[i].section.None? :: rows[i].name in names
  }

  lemma NewName(rows: seq<Row>, names: seq<string>, at: seq<nat>, n: nat)
    requires n < |rows| && NamesFound(rows, names, at, n)
    requires rows[n].Heading? && rows[n].section.None? && rows[n].name !in names
    ensures NamesFound(rows, names + [rows[n].name], at + [n], n + 1)
  {
  }

  lemma OldName(rows: seq<Row>, names: seq<string>, at: seq<nat>, n: nat)
    requires n < |rows| && NamesFound(rows, names, at, n)
    requires rows[n].Heading? && rows[n].section.None? ==> rows[n].name in names
    ensures NamesFound(rows, names, at, n + 1)
  {
  }

  lemma {:induction false} UnmappedAreFound(rows: seq<Row>, n: nat) returns (at: seq<nat>)
    requires n <= |rows|
    ensures NamesFound(rows, Unmapped(rows, n), at, n)
  {
    at := [];
    if n > 0 {
      var before := UnmappedAreFound(rows, n - 1);
      var row := rows[n - 1];
      if row.Heading? && row.section.None? && row.name !in Unmapped(rows, n - 1) {
        NewName(rows, Unmapped(rows, n - 1), before, n - 1);
        at := before + [n - 1];
      } else {
        OldName(rows, Unmapped(rows, n - 1), before, n - 1);
        at := before;
      }
    }
  }

  // ----- The parser -----

  function DedupKey(e: Entry): string {
    e.section + "\U{0001}" + e.draft.lowered
  }

  ghost predicate PlainSections(rows: seq<Row>) {
    forall i | 0 <= i < |rows| ::
      rows[i].Heading? && rows[i].section.Some? ==>
        '\U{0001}' !in rows[i].section.value && '\n' !in rows[i].section.value
  }

  lemma KeyOfFact(d: Entry, e: Entry)
    requires '\U{0001}' !in d.section && '\U{0001}' !in e.section
    ensures DedupKey(d) == DedupKey(e) <==> SameFact(d, e)
  {
    var k, l := DedupKey(d), DedupKey(e);
    if k == l {
      var m, n := |d.section|, |e.section|;
      assert k[m] == '\U{0001}' && l[n] == '\U{0001}';
      assert forall i | 0 <= i < m :: k[i] == d.section[i];
      assert forall i | 0 <= i < n :: l[i] == e.section[i];
      assert m == n;
      assert k[..m] == d.section && l[..m] == e.section;
      assert k[m + 1..] == d.draft.lowered && l[m + 1..] == e.draft.lowered;
    }
  }

  /** The keys of the entries of the first `n` lines. */
  function KeysOf(rows: seq<Row>, n: nat): set<string>
    requires n <= |rows|
  {
    if n == 0 then {}
    else
      var e := Candidate(rows, n - 1);
      if e.None? then KeysOf(rows, n - 1) else KeysOf(rows, n - 1) + {DedupKey(e.value)}
  }

  /** One pass over the lines with a current heading and a set of the keys seen so far. */
  method ParseRows(rows: seq<Row>) returns (entries: seq<Entry>, unknown: seq<string>)
    requires PlainSections(rows)
    ensures entries == Entries(rows, |rows|) && AreFiled(rows, entries)
    ensures unknown == Unmapped(rows, |rows|) && AreUnmapped(rows, unknown)
  {
    entries, unknown := [], [];
    var seen: set<string> := {};
    var current: Option<Row> := None;
    var i := 0;
    while i < |rows|
      invariant i <= |rows|
      invariant current == HeadingAbove(rows, i)
      invariant unknown == Unmapped(rows, i)
      invariant entries == Entries(rows, i)
      invariant seen == KeysOf(rows, i)
    {
      if rows[i].Heading? {
        current := Some(rows[i]);
        if rows[i].section.None? && rows[i].name !in unknown {
          unknown := unknown + [rows[i].name];
        }
      } else if rows[i].Content? && current.Some? && current.value.section.Some? && rows[i].draft.Some? {
        var entry := Entry(current.value.section.value, current.value.name, rows[i].draft.value);
        KeyGiven(rows, i, entry);
        if DedupKey(entry) !in seen {
          entries := entries + [entry];
        }
        seen := seen + {DedupKey(entry)};
      }
      i := i + 1;
    }
    EntriesAreFiled(rows);
    ghost var at := UnmappedAreFound(rows, |rows|);
  }

  lemma {:induction false} PlainAbove(rows: seq<Row>, i: nat)
    requires PlainSections(rows) && i <= |rows|
    ensures var h := HeadingAbove(rows, i);
            h.Some? && h.value.section.Some? ==>
              '\U{0001}' !in h.value.section.value && '\n' !in h.value.section.value
  {
    if i > 0 {
      PlainAbove(rows, i - 1);
    }
  }

  lemma {:induction false} KeyGiven(rows: seq<Row>, n: nat, e: Entry)
    requires PlainSections(rows) && n < |rows| && Candidate(rows, n) == Some(e)
    ensures DedupKey(e) in KeysOf(rows, n) <==> Given(rows, n, e)
  {
    PlainAbove(rows, n);
    KeyGivenBefore(rows, n, e);
  }

  lemma {:induction false} KeyGivenBefore(rows: seq<Row>, n: nat, e: Entry)
    requires PlainSections(rows) && n <= |rows| && '\U{0001}' !in e.section
    ensures DedupKey(e) in KeysOf(rows, n) <==> Given(rows, n, e)
  {
    if n > 0 {
      KeyGivenBefore(rows, n - 1, e);
      PlainAbove(rows, n - 1);
      var d := Candidate(rows, n - 1);
      if d.Some? {
        KeyOfFact(d.value, e);
      }
      assert Given(rows, n, e) <==> Given(rows, n - 1, e) || (d.Some? && SameFact(d.value, e));
    }
  }

  /** The facts an import makes of the entries; `filter` is what the caller strips from them. */
  function Facts(es: seq<Entry>, filter: string -> string): (facts: seq<Fact>)
    ensures |facts| == |es|
    ensures forall i | 0 <= i < |es| :: facts[i] == Fact(es[i].section, filter(es[i].draft.content))
  {
    if es == [] then []
    else Facts(es[..|es| - 1], filter) + [Fact(es[|es| - 1].section, filter(es[|es| - 1].draft.content))]
  }

  lemma {:induction false} FactsAreFiled(rows: seq<Row>, n: nat, filter: string -> string)
    requires PlainSections(rows) && n <= |rows|
    ensures forall f | f in Facts(Entries(rows, n), filter) :: '\n' !in f.section
  {
    if n > 0 {
      FactsAreFiled(rows, n - 1, filter);
      PlainAbove(rows, n - 1);
      var es := Entries(rows, n);
      assert es != Entries(rows, n - 1) ==> es[..|es| - 1] == Entries(rows, n - 1);
    }
  }

  lemma RowsTwice(doc: string, rows: seq<Row>, filter: string -> string, cap: nat, size: string -> nat, c: Casing)
    requires PlainSections(rows)
    ensures var facts := Facts(Entries(rows, |rows|), filter);
            var r := Imported(doc, facts, cap, size, Editor(c));
            Imported(r.doc, facts, cap, size, Editor(c)).doc == r.doc
  {
    FactsAreFiled(rows, |rows|, filter);
    ImportTwice(doc, Facts(Entries(rows, |rows|), filter), cap, size, c);
  }

  // ----- From text to entries -----

  lemma RowsArePlain(lines: seq<string>, p: Patterns, c: Casing)
    requires SoundPatterns(p)
    ensures PlainSections(Rows(lines, p, c))
  {
    var rows := Rows(lines, p, c);
    forall i | 0 <= i < |rows| && rows[i].Heading? && rows[i].section.Some?
      ensures '\U{0001}' !in rows[i].section.value && '\n' !in rows[i].section.value
    {
      assert rows[i] == RowOf(lines[i], p, c);
    }
  }

  /** The rows of an export. */
  function RowsOf(text: string, p: Patterns, c: Casing): seq<Row> {
    Rows(SplitOn(text, '\n'), p, c)
  }

  predicate Bounded(content: string) {
    content != "" && '\n' !in content && |content| <= MAX_CONTENT
  }

  lemma DatedIsBounded(date: Option<string>, scrubbed: string)
    requires scrubbed != "" && '\n' !in scrubbed && (date.Some? ==> '\n' !in date.value)
    ensures Bounded(Dated(date, scrubbed))
  {
    var text := if date.Some? then "[" + date.value + "] " + scrubbed else scrubbed;
    assert '\n' !in text && text != "";
  }

  lemma CapturedIsPlain(t: string, p: Patterns, c: Casing)
    requires SoundPatterns(p) && '\n' !in t
    ensures var (date, tags, content) := Captured(t, p, c); date.Some? ==> '\n' !in date.value
  {
    if p.item(t).Some? {
      TrimFacts(p.item(t).value.date);
    }
  }

  lemma DraftIsBounded(t: string, p: Patterns, c: Casing)
    requires SoundPatterns(p) && '\n' !in t
    ensures var d := DraftOf(t, p, c); d.Some? ==> Bounded(d.value.content)
  {
    CapturedIsPlain(t, p, c);
    var (date, _, content) := Captured(t, p, c);
    if Sanitize(content) != "" {
      DatedIsBounded(date, Sanitize(content));
    }
  }

  lemma RowIsBounded(raw: string, p: Patterns, c: Casing)
    requires SoundPatterns(p) && '\n' !in raw
    ensures var row := RowOf(raw, p, c); row.Content? && row.draft.Some? ==> Bounded(row.draft.value.content)
  {
    TrimEndFacts(raw);
    TrimFacts(TrimEnd(raw));
    DraftIsBounded(Trim(TrimEnd(raw)), p, c);
  }

  lemma {:induction false} EntriesComeFromRows(rows: seq<Row>, n: nat)
    requires n <= |rows|
    ensures forall e | e in Entries(rows, n) ::
              exists i | 0 <= i < n :: rows[i].Content? && rows[i].draft == Some(e.draft)
  {
    if n > 0 {
      EntriesComeFromRows(rows, n - 1);
      forall e | e in Entries(rows, n)
        ensures exists i | 0 <= i < n :: rows[i].Content? && rows[i].draft == Some(e.draft)
      {
        if e !in Entries(rows, n - 1) {
          assert rows[n - 1].Content? && rows[n - 1].draft == Some(e.draft);
        }
      }
    }
  }

  /** Every entry parsed from a text is one line, not empty, and at most 2000 characters. */
  lemma EntriesAreBounded(text: string, p: Patterns, c: Casing)
    requires SoundPatterns(p)
    ensures var rows := RowsOf(text, p, c);
            forall e | e in Entries(rows, |rows|) :: Bounded(e.draft.content)
  {
    var lines, rows := SplitOn(text, '\n'), RowsOf(text, p, c);
    EntriesComeFromRows(rows, |rows|);
    forall e | e in Entries(rows, |rows|) ensures Bounded(e.draft.content) {
      var i :| 0 <= i < |rows| && rows[i].Content? && rows[i].draft == Some(e.draft);
      RowIsBounded(lines[i], p, c);
    }
  }

  /** The parser on a text. */
  method ParseText(text: string, p: Patterns, c: Casing) returns (entries: seq<Entry>, unknown: seq<string>)
    requires SoundPatterns(p)
    ensures var rows := RowsOf(text, p, c);
            && entries == Entries(rows, |rows|) && AreFiled(rows, entries)
            && unknown == Unmapped(rows, |rows|) && AreUnmapped(rows, unknown)
    ensures forall e | e in entries :: Bounded(e.draft.content)
  {
    RowsArePlain(SplitOn(text, '\n'), p, c);
    EntriesAreBounded(text, p, c);
    entries, unknown := ParseRows(RowsOf(text, p, c));
  }

  /** Importing one and the same export again leaves the document as the first import left it,
      whatever the export, the document and the size cap. */
  lemma ExportTwice(
    doc: string, text: string, p: Patterns, filter: string -> string, cap: nat, size: string -> nat, c: Casing)
    requires SoundPatterns(p)
    ensures var rows := RowsOf(text, p, c);
            var facts := Facts(Entries(rows, |rows|), filter);
            var r := Imported(doc, facts, cap, size, Editor(c));
            Imported(r.doc, facts, cap, size, Editor(c)).doc == r.doc
  {
    RowsArePlain(SplitOn(text, '\n'), p, c);
    RowsTwice(doc, RowsOf(text, p, c), filter, cap, size, c);
  }
}
