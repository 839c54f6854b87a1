/** What the lines of an export are read as, said of their text. */
module ExportLines {
  import opened Text
  import opened MemoryDoc
  import opened MemoryExport
  import opened MemoryFacts
  import opened Wrappers

  lemma LineTrims(pre: string, t: string, post: string)
    requires AllSpace(pre) && AllSpace(post) && Trimmed(t)
    ensures Trim(TrimEnd(pre + t + post)) == t
  {
    if t == "" {
      assert pre + t + post == "" + (pre + post);
      TrimEndDrops("", pre + post);
    } else {
      TrimEndDrops(pre + t, post);
      TrimDrops(pre, t, "");
      assert pre + t + "" == pre + t;
    }
  }

  /** White space around a line does not matter. Nothing else on it: the line is skipped. A header: it
      opens the section of the first category that matches its name. */
  lemma HeadingIsRead(pre: string, t: string, post: string, p: Patterns, c: Casing)
    requires AllSpace(pre) && AllSpace(post) && Trimmed(t)
    ensures var row := RowOf(pre + t + post, p, c);
            && (row == Empty <==> t == "")
            && (row.Heading? <==> t != "" && p.header(t).Some?)
            && (row.Heading? ==>
                  && row.name == Trim(p.header(t).value)
                  && row.section == MapCategory(row.name, p.categories))
  {
    LineTrims(pre, t, post);
  }

  /** At most 2000 characters, with the date in front. */
  function Written(date: Option<string>, text: string): string {
    var all := match date case None => text case Some(d) => "[" + d + "] " + text;
    if |all| <= 2000 then all else all[..2000]
  }

  ghost predicate PlainText(x: string) {
    x != "" && Trimmed(x) && OneLine(x) && x[0] != '#'
  }

  lemma DraftOfClean(t: string, p: Patterns, c: Casing, date: Option<string>, tags: seq<string>, x: string)
    requires PlainText(x) && Captured(t, p, c) == (date, tags, x)
    ensures DraftOf(t, p, c) == Some(Draft(Written(date, x), c.lower(Written(date, x)), date, tags))
  {
    CleanLeaves("", x, "");
    assert "" + x + "" == x;
  }

  /** A line with a date: the text gets the date in front, unless there is none to read. */
  lemma DatedLineIsRead(pre: string, t: string, post: string, x: string, p: Patterns, c: Casing)
    requires AllSpace(pre) && AllSpace(post) && t != "" && Trimmed(t)
    requires p.header(t).None? && p.item(t).Some? && PlainText(x) && Trim(p.item(t).value.content) == x
    ensures var item := p.item(t).value;
            var date := ParseDate(Trim(item.date), c);
            RowOf(pre + t + post, p, c) ==
            Content(Some(Draft(Written(date, x), c.lower(Written(date, x)), date, ParseTags(Trim(item.tags)))))
  {
    LineTrims(pre, t, post);
    var item := p.item(t).value;
    DraftOfClean(t, p, c, ParseDate(Trim(item.date), c), ParseTags(Trim(item.tags)), x);
  }

  /** Without its mark, the text of a line. */
  lemma MarkIsDropped(mark: string, gap: string, x: string, p: Patterns, c: Casing)
    requires AllSpace(gap) && PlainText(x) && p.item(mark + gap + x).None?
    requires mark in {"-", "*", "\U{2022}"} || (mark == gap == "" && x[0] !in {'-', '*', '\U{2022}'})
    ensures Captured(mark + gap + x, p, c) == (None, [], x)
  {
    var t := mark + gap + x;
    if mark != "" {
      assert t[1..] == gap + x;
      TrimStartDrops(gap, x);
    } else {
      assert t == x;
    }
    TrimDrops("", x, "");
    assert "" + x + "" == x;
  }

  /** Any other line: its text, without the mark of a list and the white space behind it. */
  lemma PlainLineIsRead(
    pre: string, mark: string, gap: string, x: string, post: string, p: Patterns, c: Casing)
    requires AllSpace(pre) && AllSpace(gap) && AllSpace(post) && PlainText(x)
    requires mark in {"-", "*", "\U{2022}"} || (mark == gap == "" && x[0] !in {'-', '*', '\U{2022}'})
    requires p.header(mark + gap + x).None? && p.item(mark + gap + x).None?
    ensures RowOf(pre + (mark + gap + x) + post, p, c) ==
            Content(Some(Draft(Written(None, x), c.lower(Written(None, x)), None, [])))
  {
    var t := mark + gap + x;
    assert t[|t| - 1] == x[|x| - 1] && t[0] == (if mark != "" then mark[0] else x[0]);
    LineTrims(pre, t, post);
    MarkIsDropped(mark, gap, x, p, c);
    DraftOfClean(t, p, c, None, [], x);
  }

  /** Nothing but the mark of a list: nothing is read. */
  lemma BareMarkIsDropped(pre: string, mark: string, post: string, p: Patterns, c: Casing)
    requires AllSpace(pre) && AllSpace(post)
    requires mark in {"-", "*", "\U{2022}"} && p.header(mark).None? && p.item(mark).None?
    ensures RowOf(pre + mark + post, p, c) == Content(None)
  {
    LineTrims(pre, mark, post);
    assert mark[1..] == "";
  }

  // ----- Dates and tags -----

  /** The date is what stands before the first bar, unless that is blank or "unknown". */
  lemma DateIsRead(a: string, b: string, c: Casing)
    requires '|' !in a
    ensures ParseDate(a + "|" + b, c) == ParseDate(a, c)
    ensures var date := Trim(a);
            ParseDate(a, c) ==
            if date == "" || (|date| == 7 && forall i | 0 <= i < 7 :: c.fold(date[i]) == c.fold("unknown"[i]))
            then None else Some(date)
  {
    SplitWithout(a, '|');
    SplitConcat(a, b, '|');
  }

  function Kept(parts: seq<string>): seq<string> {
    NotEmpty(Trims(parts))
  }

  lemma KeptCons(part: string, rest: seq<string>)
    ensures Kept([part] + rest) == (if Trim(part) == "" then [] else [Trim(part)]) + Kept(rest)
  {
    assert ([part] + rest)[1..] == rest;
    assert ([Trim(part)] + Trims(rest))[1..] == Trims(rest);
  }

  lemma Associate<T>(a: seq<T>, b: seq<T>, s: seq<T>)
    ensures a + b + s == a + (b + s)
  {
  }

  lemma KeptConsConcat(part: string, a: seq<string>, b: seq<string>)
    requires Kept(a + b) == Kept(a) + Kept(b)
    ensures Kept([part] + a + b) == Kept([part] + a) + Kept(b)
  {
    KeptCons(part, a + b);
    KeptCons(part, a);
    Associate([part], a, b);
    Associate(if Trim(part) == "" then [] else [Trim(part)], Kept(a), Kept(b));
  }

  lemma {:induction false} KeptConcat(a: seq<string>, b: seq<string>)
    ensures Kept(a + b) == Kept(a) + Kept(b)
  {
    if a == [] {
      assert a + b == b;
    } else {
      KeptConcat(a[1..], b);
      KeptConsConcat(a[0], a[1..], b);
      assert a == [a[0]] + a[1..];
    }
  }

  lemma TagsAreKept(raw: string)
    ensures ParseTags(raw) == Kept(SplitOn(raw, ','))
  {
    KeptCons("", []);
    assert [""] + [] == [""];
  }

  /** The tags are what stands between the commas, trimmed, in order, blank ones left out. */
  lemma TagsAreRead(a: string, b: string)
    requires ',' !in a
    ensures ParseTags(a) == if Trim(a) == "" then [] else [Trim(a)]
    ensures ParseTags(a + "," + b) == ParseTags(a) + ParseTags(b)
  {
    SplitWithout(a, ',');
    SplitConcat(a, b, ',');
    TagsAreKept(a);
    TagsAreKept(b);
    TagsAreKept(a + "," + b);
    KeptConcat([a], SplitOn(b, ','));
    KeptCons(a, []);
    assert [a] + [] == [a];
  }
}
