/** What one append writes, said of the text of the fact and of the lines of the document. */
module MemoryFacts {
  import opened Text
  import opened MemoryDoc
  import opened MemoryLaws

  /** The text is on one line. */
  predicate OneLine(s: string) {
    '\n' !in s && '\r' !in s
  }

  // ----- Where a line goes -----

  /** The section is the lines from `f` up to `e`: from its first heading to the next H2 of another
      name, or to the end. */
  ghost predicate SectionIs(lines: seq<string>, section: string, c: Casing, f: nat, e: nat) {
    && f < e <= |lines| && Heads(lines[f], section, c)
    && (forall i | 0 <= i < f :: !Heads(lines[i], section, c))
    && (forall i | f <= i < e && IsH2(lines[i]) :: Heads(lines[i], section, c))
    && (e < |lines| ==> IsH2(lines[e]) && !Heads(lines[e], section, c))
  }

  /** The place below the last line of the section that is a heading or not blank. */
  ghost predicate IsEnd(lines: seq<string>, f: nat, e: nat, p: nat) {
    && f < p <= e <= |lines|
    && (forall i | p <= i < e :: !IsH2(lines[i]) && Trim(lines[i]) == "")
    && (IsH2(lines[p - 1]) || Trim(lines[p - 1]) != "")
  }

  /** The line is in the section already, up to case and the white space around it. */
  ghost predicate Holds(lines: seq<string>, f: nat, e: nat, line: string, c: Casing)
    requires f <= e <= |lines|
  {
    exists i | f <= i < e :: !IsH2(lines[i]) && c.lower(Trim(lines[i])) == c.lower(Trim(line))
  }

  ghost predicate AddsAt(
    existing: string, doc: string, section: string, line: string, c: Casing, f: nat, e: nat, p: nat)
  {
    var lines := SplitOn(existing, '\n');
    && SectionIs(lines, section, c, f, e)
    && (doc == existing <==> Holds(lines, f, e, line, c))
    && (doc != existing ==> IsEnd(lines, f, e, p) && doc == Join(lines[..p] + [line] + lines[p..], "\n"))
  }

  /** `doc` is `existing` with `line` in the section. A section that is missing is added at the end,
      below an empty line. One that is there keeps the document as it is exactly if it holds the line,
      and otherwise gets it at its end. */
  ghost predicate Adds(existing: string, doc: string, section: string, line: string, c: Casing) {
    var lines := SplitOn(existing, '\n');
    if forall i | 0 <= i < |lines| :: !Heads(lines[i], section, c) then
      doc == existing + (if existing != "" && existing[|existing| - 1] == '\n' then "" else "\n")
             + "\n## " + section + "\n" + line + "\n"
    else
      exists f: nat, e: nat, p: nat :: AddsAt(existing, doc, section, line, c, f, e, p)
  }

  /** What makes a line a heading of a section: `##`, white space, the name up to case, and nothing but
      white space behind it. Any line that starts with `##` and white space is an H2. */
  lemma HeadingLines(line: string, section: string, c: Casing)
    ensures IsH2(line) <==> exists x, rest :: IsSpace(x) && line == "##" + [x] + rest
    ensures Heads(line, section, c) <==>
              exists gap, name, tail :: HeadingShape(line, gap, name, tail) && SameName(name, section, c)
  {
    if IsH2(line) {
      assert IsSpace(line[2]) && line == "##" + [line[2]] + line[3..];
    }
    if Heads(line, section, c) {
      HeadsHasShape(line, section, c);
    }
    if gap, name, tail :| HeadingShape(line, gap, name, tail) && SameName(name, section, c) {
      ShapeHeads(line, section, c, gap, name, tail);
    }
  }

  lemma HeadsHasShape(line: string, section: string, c: Casing)
    requires Heads(line, section, c)
    ensures exists gap, name, tail :: HeadingShape(line, gap, name, tail) && SameName(name, section, c)
  {
    var n :| 1 <= n <= |line| - 2 - |section| && HeadsAfter(line, section, c, n);
    var m := 2 + n + |section|;
    assert line == "##" + line[2..2 + n] + line[2 + n..m] + line[m..];
    assert HeadingShape(line, line[2..2 + n], line[2 + n..m], line[m..]);
    assert SameName(line[2 + n..m], section, c);
  }

  lemma ShapeHeads(line: string, section: string, c: Casing, gap: string, name: string, tail: string)
    requires HeadingShape(line, gap, name, tail) && SameName(name, section, c)
    ensures Heads(line, section, c)
  {
    var n, m := |gap|, 2 + |gap| + |name|;
    assert line[2..2 + n] == gap && line[2 + n..m] == name && line[m..] == tail;
    assert line[2] == gap[0];
    assert HeadsAfter(line, section, c, n);
  }

  ghost predicate HeadingShape(line: string, gap: string, name: string, tail: string) {
    gap != "" && AllSpace(gap) && AllSpace(tail) && line == "##" + gap + name + tail
  }

  ghost predicate SameName(name: string, section: string, c: Casing) {
    |name| == |section| && forall i | 0 <= i < |name| :: c.fold(name[i]) == c.fold(section[i])
  }

  // ----- What the cleaning leaves -----

  lemma {:induction false} NoReturns(s: string)
    requires '\r' !in s
    ensures RemoveReturns(s) == s
  {
    if s != "" {
      NoReturns(s[1..]);
    }
  }

  lemma ReturnsCons(x: char, s: string)
    ensures RemoveReturns([x] + s) == (if x == '\r' then "" else [x]) + RemoveReturns(s)
  {
    assert ([x] + s)[1..] == s;
  }

  lemma Regroup(a: string, b: string, s: string)
    ensures a + b + s == a + (b + s)
  {
  }

  lemma ReturnsConsConcat(x: char, a: string, b: string)
    requires RemoveReturns(a + b) == RemoveReturns(a) + RemoveReturns(b)
    ensures RemoveReturns([x] + a + b) == RemoveReturns([x] + a) + RemoveReturns(b)
  {
    var kept := if x == '\r' then "" else [x];
    ReturnsCons(x, a + b);
    ReturnsCons(x, a);
    Regroup([x], a, b);
    Regroup(kept, RemoveReturns(a), RemoveReturns(b));
  }

  lemma {:induction false} ReturnsConcat(a: string, b: string)
    ensures RemoveReturns(a + b) == RemoveReturns(a) + RemoveReturns(b)
  {
    if a == "" {
      assert a + b == b;
    } else {
      ReturnsConcat(a[1..], b);
      ReturnsConsConcat(a[0], a[1..], b);
      assert a == [a[0]] + a[1..];
    }
  }

  lemma {:induction false} TrimStartDrops(pre: string, s: string)
    requires AllSpace(pre) && (s == "" || !IsSpace(s[0]))
    ensures TrimStart(pre + s) == s
  {
    if pre == "" {
      assert pre + s == s;
    } else {
      TrimStartDrops(pre[1..], s);
      assert (pre + s)[1..] == pre[1..] + s;
    }
  }

  lemma {:induction false} TrimEndDrops(s: string, post: string)
    requires AllSpace(post) && (s == "" || !IsSpace(s[|s| - 1]))
    ensures TrimEnd(s + post) == s
  {
    if post == "" {
      assert s + post == s;
    } else {
      TrimEndDrops(s, post[..|post| - 1]);
      assert (s + post)[..|s + post| - 1] == s + post[..|post| - 1];
    }
  }

  predicate Trimmed(s: string) {
    s != "" ==> !IsSpace(s[0]) && !IsSpace(s[|s| - 1])
  }

  lemma TrimDrops(pre: string, body: string, post: string)
    requires AllSpace(pre) && AllSpace(post) && Trimmed(body)
    ensures Trim(pre + body + post) == body
  {
    if body == "" {
      TrimStartDrops(pre + post, "");
      assert pre + body + post == pre + post + "";
    } else {
      TrimStartDrops(pre, body + post);
      assert pre + body + post == pre + (body + post);
      TrimEndDrops(body, post);
    }
  }

  /** Nothing but the white space around a text on one line goes, unless the text starts with `#`. */
  lemma CleanLeaves(pre: string, body: string, post: string)
    requires OneLine(pre + body + post) && AllSpace(pre) && AllSpace(post) && Trimmed(body)
    requires pre == "" && body != "" ==> body[0] != '#'
    ensures Sanitize(pre + body + post) == body
  {
    var content := pre + body + post;
    NoReturns(content);
    assert content != "" ==> content[0] != '#';
    TrimDrops(pre, body, post);
  }

  // ----- The results -----

  /** A fact on one line that does not start with `#` is written as it is, without the white space
      around it, and behind "- " unless it starts with a dash itself. */
  lemma FactIsWritten(existing: string, section: string, pre: string, body: string, post: string, c: Casing)
    requires OneLine(pre + body + post) && AllSpace(pre) && AllSpace(post) && body != "" && Trimmed(body)
    requires pre == "" ==> body[0] != '#'
    ensures var doc := Appended(existing, section, pre + body + post, c);
            && (body[0] != '-' ==> Adds(existing, doc, section, "- " + body, c))
            && (body[0] == '-' ==> Adds(existing, doc, section, body, c))
  {
    CleanLeaves(pre, body, post);
    LineIsAdded(existing, section, pre + body + post, c);
  }

  lemma SectionFound(lines: seq<string>, section: string, norm: string, c: Casing)
    requires exists i | 0 <= i < |lines| :: Heads(lines[i], section, c)
    ensures var ks := Kinds(lines, section, norm, c);
            var f := FirstHead(ks, 0);
            f < |ks| && SectionIs(lines, section, c, f, RegionEnd(ks, f))
  {
    var ks := Kinds(lines, section, norm, c);
    var i :| 0 <= i < |lines| && Heads(lines[i], section, c);
    assert ks[i].Head?;
    var f := FirstHead(ks, 0);
    var e := RegionEnd(ks, f);
    forall j | 0 <= j < f ensures !Heads(lines[j], section, c) {
      assert !ks[j].Head?;
    }
    forall j | f <= j < e && IsH2(lines[j]) ensures Heads(lines[j], section, c) {
      assert !ks[j].Other?;
    }
  }

  lemma HoldsIfSame(lines: seq<string>, section: string, line: string, c: Casing, f: nat, e: nat)
    requires f <= e <= |lines|
    ensures var ks := Kinds(lines, section, Norm(line, c), c);
            Present(ks, f, e) <==> Holds(lines, f, e, line, c)
  {
    var ks := Kinds(lines, section, Norm(line, c), c);
    if Present(ks, f, e) {
      var i :| f <= i < e && ks[i].Body? && ks[i].same;
      assert ks[i] == KindOf(lines[i], section, Norm(line, c), c);
      assert Holds(lines, f, e, line, c);
    }
    if Holds(lines, f, e, line, c) {
      var i :| f <= i < e && !IsH2(lines[i]) && c.lower(Trim(lines[i])) == c.lower(Trim(line));
      assert ks[i] == KindOf(lines[i], section, Norm(line, c), c);
      assert ks[i].Body? && ks[i].same;
    }
  }

  lemma LastPlaceIsEnd(lines: seq<string>, section: string, norm: string, c: Casing, f: nat, e: nat, p: nat)
    requires IsLastPlace(Kinds(lines, section, norm, c), f, e, p)
    ensures IsEnd(lines, f, e, p)
  {
    var ks := Kinds(lines, section, norm, c);
    forall i | p <= i < e ensures !IsH2(lines[i]) && Trim(lines[i]) == "" {
      assert ks[i].Body? && ks[i].blank;
    }
    assert ks[p - 1] == KindOf(lines[p - 1], section, norm, c);
  }

  lemma AddsToExisting(existing: string, section: string, content: string, c: Casing)
    requires Sanitize(content) != ""
    requires exists i | 0 <= i < |Lines(existing)| :: Heads(Lines(existing)[i], section, c)
    ensures Adds(existing, Appended(existing, section, content, c), section, BulletOf(Sanitize(content)), c)
  {
    var lines, line := Lines(existing), BulletOf(Sanitize(content));
    var p := AppendToExisting(existing, section, content, c);
    SectionFound(lines, section, Norm(line, c), c);
    var f := FirstHead(Kinds(lines, section, Norm(line, c), c), 0);
    var e := RegionEnd(Kinds(lines, section, Norm(line, c), c), f);
    HoldsIfSame(lines, section, line, c, f, e);
    var doc := Appended(existing, section, content, c);
    if doc != existing {
      LastPlaceIsEnd(lines, section, Norm(line, c), c, f, e, p);
      SpliceJoins(existing, doc, p, line);
    }
    assert AddsAt(existing, doc, section, line, c, f, e, p);
  }

  lemma LineIsAdded(existing: string, section: string, content: string, c: Casing)
    requires Sanitize(content) != ""
    ensures Adds(existing, Appended(existing, section, content, c), section, BulletOf(Sanitize(content)), c)
  {
    if exists i | 0 <= i < |Lines(existing)| :: Heads(Lines(existing)[i], section, c) {
      AddsToExisting(existing, section, content, c);
    } else {
      assert Locate(Seen(existing, section, content, c)) == Missing;
    }
  }

  lemma SpliceJoins(existing: string, doc: string, p: nat, line: string)
    requires p <= |Lines(existing)| && Lines(doc) == Splice(Lines(existing), p, line)
    ensures doc == Join(Lines(existing)[..p] + [line] + Lines(existing)[p..], "\n")
  {
    JoinSplit(doc, '\n');
  }

  /** Nothing but white space: nothing is written. */
  lemma BlankIsDropped(existing: string, section: string, content: string, c: Casing)
    requires AllSpace(content)
    ensures Appended(existing, section, content, c) == existing
  {
    BlankIsNothing(content);
  }

  lemma BlankIsNothing(content: string)
    requires AllSpace(content)
    ensures Sanitize(content) == ""
  {
    var flat := FlattenNewlines(RemoveReturns(content));
    ReturnsOfBlank(content);
    FlatOfBlank(RemoveReturns(content));
    assert flat != "" ==> IsSpace(flat[0]);
    TrimDrops(flat, "", "");
    assert flat + "" + "" == flat;
  }

  lemma {:induction false} ReturnsOfBlank(s: string)
    requires AllSpace(s)
    ensures AllSpace(RemoveReturns(s))
  {
    assert forall i | 0 <= i < |RemoveReturns(s)| :: RemoveReturns(s)[i] in s;
  }

  lemma {:induction false} FlatOfBlank(s: string)
    requires AllSpace(s)
    ensures AllSpace(FlattenNewlines(s))
    decreases |s|
  {
    if s != "" {
      if s[0] == '\n' {
        var rest := DropLeading(s, '\n');
        assert forall i | 0 <= i < |rest| :: rest[i] in s;
        FlatOfBlank(rest);
      } else {
        FlatOfBlank(s[1..]);
      }
    }
  }

  // ----- Texts of several lines, and headings -----

  lemma SameClean(existing: string, section: string, x: string, y: string, c: Casing)
    requires FlattenNewlines(RemoveReturns(x)) == FlattenNewlines(RemoveReturns(y)) || Sanitize(x) == Sanitize(y)
    ensures Appended(existing, section, x, c) == Appended(existing, section, y, c)
  {
    assert Sanitize(x) == Sanitize(y);
  }

  /** A carriage return is as good as nothing. */
  lemma ReturnsAreDropped(existing: string, section: string, a: string, b: string, c: Casing)
    ensures Appended(existing, section, a + "\r" + b, c) == Appended(existing, section, a + b, c)
  {
    var rest := "\r" + b;
    ReturnsConcat(a, rest);
    ReturnsConcat(a, b);
    ReturnsCons('\r', b);
    assert RemoveReturns(rest) == RemoveReturns(b);
    assert a + "\r" + b == a + rest;
    SameClean(existing, section, a + "\r" + b, a + b, c);
  }

  function Repeat(x: char, n: nat): string {
    seq(n, i => x)
  }

  lemma {:induction false} DropRepeat(x: char, n: nat, s: string)
    requires s == "" || s[0] != x
    ensures DropLeading(Repeat(x, n) + s, x) == s
  {
    if n == 0 {
      assert Repeat(x, n) + s == s;
    } else {
      DropRepeat(x, n - 1, s);
      assert (Repeat(x, n) + s)[1..] == Repeat(x, n - 1) + s;
    }
  }

  lemma {:induction false} DropConcat(s: string, t: string, x: char)
    requires s != "" && s[|s| - 1] != x
    ensures DropLeading(s + t, x) == DropLeading(s, x) + t
    ensures DropLeading(s, x) != "" && DropLeading(s, x)[|DropLeading(s, x)| - 1] != x
  {
    if s[0] == x {
      DropConcat(s[1..], t, x);
      assert (s + t)[1..] == s[1..] + t;
    }
  }

  lemma FlatCons(x: char, s: string)
    requires x != '\n'
    ensures FlattenNewlines([x] + s) == [x] + FlattenNewlines(s)
  {
    assert ([x] + s)[1..] == s;
  }

  lemma FlatNewlines(s: string, t: string)
    requires s != "" && s[0] == '\n' && s[|s| - 1] != '\n'
    ensures FlattenNewlines(s + t) == " " + FlattenNewlines(DropLeading(s, '\n') + t)
  {
    DropConcat(s, t, '\n');
  }

  lemma FlatOnlyRun(n: nat, b: string)
    requires n > 0 && (b == "" || b[0] != '\n')
    ensures FlattenNewlines(Repeat('\n', n) + b) == " " + FlattenNewlines(b) == FlattenNewlines(" " + b)
  {
    DropRepeat('\n', n, b);
    FlatCons(' ', b);
    assert (Repeat('\n', n) + b)[0] == '\n';
  }

  lemma FlatConsBoth(x: char, s: string, t: string, u: string)
    requires x != '\n' && FlattenNewlines(s + t) == FlattenNewlines(s + u)
    ensures FlattenNewlines([x] + s + t) == FlattenNewlines([x] + s + u)
  {
    FlatCons(x, s + t);
    FlatCons(x, s + u);
    assert [x] + s + t == [x] + (s + t) && [x] + s + u == [x] + (s + u);
  }

  lemma {:induction false} FlatRun(a: string, n: nat, b: string)
    requires n > 0 && (a == "" || a[|a| - 1] != '\n') && (b == "" || b[0] != '\n')
    ensures FlattenNewlines(a + (Repeat('\n', n) + b)) == FlattenNewlines(a + (" " + b))
    decreases |a|
  {
    var run, blank := Repeat('\n', n) + b, " " + b;
    if a == "" {
      FlatOnlyRun(n, b);
      assert a + run == run && a + blank == blank;
    } else if a[0] == '\n' {
      DropConcat(a, "", '\n');
      FlatRun(DropLeading(a, '\n'), n, b);
      FlatNewlines(a, run);
      FlatNewlines(a, blank);
    } else {
      FlatRun(a[1..], n, b);
      FlatConsBoth(a[0], a[1..], run, blank);
      assert a == [a[0]] + a[1..];
    }
  }

  lemma CleanNewlines(a: string, n: nat, b: string)
    requires n > 0 && '\r' !in a && '\r' !in b
    requires (a == "" || a[|a| - 1] != '\n') && (b == "" || b[0] != '\n')
    ensures Sanitize(a + (Repeat('\n', n) + b)) == Sanitize(a + (" " + b))
  {
    FlatRun(a, n, b);
    NoReturns(a + (Repeat('\n', n) + b));
    NoReturns(a + (" " + b));
  }

  /** A run of newlines is as good as one blank. */
  lemma NewlinesAreOneBlank(existing: string, section: string, a: string, n: nat, b: string, c: Casing)
    requires n > 0 && '\r' !in a && '\r' !in b
    requires (a == "" || a[|a| - 1] != '\n') && (b == "" || b[0] != '\n')
    ensures Appended(existing, section, a + Repeat('\n', n) + b, c) == Appended(existing, section, a + " " + b, c)
  {
    var x, y := a + Repeat('\n', n) + b, a + " " + b;
    assert x == a + (Repeat('\n', n) + b) && y == a + (" " + b);
    CleanNewlines(a, n, b);
    SameClean(existing, section, x, y, c);
  }

  lemma {:induction false} TrimStartKeeps(s: string)
    requires s == "" || !IsSpace(s[0])
    ensures TrimStart(s) == s
  {
  }

  lemma CleanHashes(n: nat, gap: string, rest: string)
    requires n > 0 && AllSpace(gap) && OneLine(gap + rest)
    requires rest != "" ==> !IsSpace(rest[0]) && (gap == "" ==> rest[0] != '#')
    ensures Sanitize(Repeat('#', n) + (gap + rest)) == Trim(rest)
  {
    var content := Repeat('#', n) + (gap + rest);
    forall x | x in content ensures x != '\r' && x != '\n' {
      assert x == '#' || x in gap + rest;
    }
    NoReturns(content);
    assert gap + rest != "" ==> (gap + rest)[0] != '#' by {
      assert gap != "" ==> IsSpace(gap[0]);
    }
    DropRepeat('#', n, gap + rest);
    assert content[0] == '#';
    TrimStartDrops(gap, rest);
  }

  lemma CleanBlank(rest: string)
    requires OneLine(rest) && (rest != "" ==> !IsSpace(rest[0]))
    ensures Sanitize(" " + rest) == Trim(rest)
  {
    NoReturns(" " + rest);
    TrimStartDrops(" ", rest);
    TrimStartKeeps(rest);
  }

  /** The `#`s that a fact starts with are dropped, with the white space behind them; a blank in front
      of what follows keeps it from being taken for a heading again. */
  lemma HashesAreDropped(existing: string, section: string, n: nat, gap: string, rest: string, c: Casing)
    requires n > 0 && AllSpace(gap) && OneLine(gap + rest)
    requires rest != "" ==> !IsSpace(rest[0]) && (gap == "" ==> rest[0] != '#')
    ensures Appended(existing, section, Repeat('#', n) + gap + rest, c) == Appended(existing, section, " " + rest, c)
  {
    var x, y := Repeat('#', n) + gap + rest, " " + rest;
    CleanHashes(n, gap, rest);
    PartIsOneLine(gap, rest);
    CleanBlank(rest);
    assert x == Repeat('#', n) + (gap + rest);
    SameClean(existing, section, x, y, c);
  }

  lemma PartIsOneLine(a: string, b: string)
    requires OneLine(a + b)
    ensures OneLine(a) && OneLine(b)
  {
    assert forall x :: x in a || x in b ==> x in a + b;
  }

  lemma FlatConsLine(x: char, a: string, s: string)
    requires x != '\n' && FlattenNewlines(a + s) == a + FlattenNewlines(s)
    ensures FlattenNewlines([x] + a + s) == [x] + a + FlattenNewlines(s)
  {
    FlatCons(x, a + s);
    Regroup([x], a, s);
    Regroup([x], a, FlattenNewlines(s));
  }

  lemma {:induction false} FlatAfterLine(a: string, s: string)
    requires '\n' !in a
    ensures FlattenNewlines(a + s) == a + FlattenNewlines(s)
  {
    if a == "" {
      assert a + s == s && a + FlattenNewlines(s) == FlattenNewlines(s);
    } else {
      FlatAfterLine(a[1..], s);
      FlatConsLine(a[0], a[1..], s);
      assert a == [a[0]] + a[1..];
    }
  }

  ghost predicate FullLines(words: seq<string>) {
    forall i | 0 <= i < |words| :: words[i] != "" && OneLine(words[i])
  }

  lemma FlatTwo(word: string, rest: string, flat: string)
    requires '\n' !in word && (rest == "" || rest[0] != '\n') && FlattenNewlines(rest) == flat
    ensures FlattenNewlines(word + "\n" + rest) == word + " " + flat
  {
    FlatOnlyRun(1, rest);
    assert Repeat('\n', 1) == "\n";
    FlatAfterLine(word, "\n" + rest);
    Regroup(word, "\n", rest);
    Regroup(word, " ", flat);
  }

  lemma {:induction false} FlatLines(words: seq<string>)
    requires words != [] && FullLines(words)
    ensures FlattenNewlines(Join(words, "\n")) == Join(words, " ")
    ensures '\r' !in Join(words, "\n") && Join(words, "\n") != "" && Join(words, "\n")[0] != '\n'
  {
    if |words| > 1 {
      FlatLines(words[1..]);
      FlatTwo(words[0], Join(words[1..], "\n"), Join(words[1..], " "));
    }
  }

  lemma CleanLines(words: seq<string>)
    requires words != [] && FullLines(words)
    requires var line := Join(words, " "); line != "" && Trimmed(line) && line[0] != '#'
    ensures Sanitize(Join(words, "\n")) == Join(words, " ")
  {
    var content, line := Join(words, "\n"), Join(words, " ");
    FlatLines(words);
    NoReturns(content);
    assert StripHashes(line) == line;
    TrimDrops("", line, "");
    assert "" + line + "" == line;
  }

  /** A fact on several lines is written as one line with a blank between each two. */
  lemma FactOfLines(existing: string, section: string, words: seq<string>, c: Casing)
    requires words != [] && FullLines(words)
    requires var line := Join(words, " "); line != "" && Trimmed(line) && line[0] != '#'
    ensures var doc, line := Appended(existing, section, Join(words, "\n"), c), Join(words, " ");
            && (line[0] != '-' ==> Adds(existing, doc, section, "- " + line, c))
            && (line[0] == '-' ==> Adds(existing, doc, section, line, c))
  {
    CleanLines(words);
    LineIsAdded(existing, section, Join(words, "\n"), c);
  }
}
