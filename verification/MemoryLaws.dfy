/** What one append does to a document, line by line, and what it leaves alone. */
module MemoryLaws {
  import opened Text
  import opened MemoryDoc

  function Lines(doc: string): seq<string> { SplitOn(doc, '\n') }

  /** How the lines of `doc` look to an append of `content` to `section`. */
  function Seen(doc: string, section: string, content: string, c: Casing): seq<Kind>
    requires Sanitize(content) != ""
  {
    Kinds(Lines(doc), section, Norm(BulletOf(Sanitize(content)), c), c)
  }

  /** `[f, e)` is the section: it starts at the first heading of the section and runs to
      the next heading of another one. */
  ghost predicate IsRegion(ks: seq<Kind>, f: nat, e: nat) {
    && f < e <= |ks|
    && ks[f].Head?
    && (forall i | 0 <= i < f :: !ks[i].Head?)
    && (forall i | f <= i < e :: !ks[i].Other?)
    && (e < |ks| ==> ks[e].Other?)
  }

  lemma RegionOf(ks: seq<Kind>)
    requires FirstHead(ks, 0) < |ks|
    ensures IsRegion(ks, FirstHead(ks, 0), RegionEnd(ks, FirstHead(ks, 0)))
  {
  }

  lemma FirstHeadIs(ks: seq<Kind>, f: nat)
    requires f <= |ks| && (f < |ks| ==> ks[f].Head?)
    requires forall i | 0 <= i < f :: !ks[i].Head?
    ensures FirstHead(ks, 0) == f
  {
    var g := FirstHead(ks, 0);
    assert g < f ==> g < |ks|;
  }

  lemma RegionEndIs(ks: seq<Kind>, f: nat, e: nat)
    requires f <= e <= |ks| && (e < |ks| ==> ks[e].Other?)
    requires forall i | f <= i < e :: !ks[i].Other?
    ensures RegionEnd(ks, f) == e
  {
    var g := RegionEnd(ks, f);
    assert g < e ==> g < |ks|;
  }

  lemma RegionEndAtLeast(ks: seq<Kind>, f: nat, e: nat)
    requires f <= e <= |ks|
    requires forall i | f <= i < e :: !ks[i].Other?
    ensures RegionEnd(ks, f) >= e
  {
  }

  lemma RegionIsUnique(ks: seq<Kind>, f: nat, e: nat)
    requires IsRegion(ks, f, e)
    ensures FirstHead(ks, 0) == f && RegionEnd(ks, f) == e
  {
    FirstHeadIs(ks, f);
    RegionEndIs(ks, f, e);
  }

  lemma KindsSplice(lines: seq<string>, p: nat, line: string, section: string, norm: string, c: Casing)
    requires p <= |lines|
    ensures Kinds(Splice(lines, p, line), section, norm, c)
         == Splice(Kinds(lines, section, norm, c), p, KindOf(line, section, norm, c))
  {
  }

  lemma KindsConcat(a: seq<string>, b: seq<string>, section: string, norm: string, c: Casing)
    ensures Kinds(a + b, section, norm, c) == Kinds(a, section, norm, c) + Kinds(b, section, norm, c)
  {
  }

  /** A bullet is a body line for every section. */
  lemma BulletIsBody(line: string, section: string, norm: string, c: Casing)
    requires line != "" && line[0] == '-'
    ensures KindOf(line, section, norm, c).Body?
  {
  }

  lemma NewHeading(section: string, norm: string, c: Casing)
    ensures KindOf("## " + section, section, norm, c) == Head
  {
    var line := "## " + section;
    assert line[3..3 + |section|] == section;
    assert HeadsAfter(line, section, c, 1);
  }

  function Block(section: string, bullet: string): string {
    "## " + section + "\n" + bullet + "\n"
  }

  lemma BlockLines(section: string, bullet: string)
    requires '\n' !in section && '\n' !in bullet
    ensures Lines(Block(section, bullet)) == ["## " + section, bullet, ""]
  {
    var head := "## " + section;
    var body := bullet + ['\n'] + "";
    assert Block(section, bullet) == head + ['\n'] + body;
    SplitConcat(head, body, '\n');
    SplitConcat(bullet, "", '\n');
    SplitWithout(head, '\n');
    SplitWithout(bullet, '\n');
  }

  function Gap(existing: string): seq<string> {
    if EndsWithNewline(existing) then [] else [""]
  }

  /** The lines that an append to a missing section adds at the end. */
  function Tail(existing: string, section: string, bullet: string): seq<string> {
    Gap(existing) + ["## " + section, bullet, ""]
  }

  lemma BlockBelow(existing: string, block: string)
    ensures Lines(existing + (if EndsWithNewline(existing) then "" else "\n") + "\n" + block)
         == Lines(existing) + Gap(existing) + Lines(block)
  {
    if EndsWithNewline(existing) {
      assert existing + "" + "\n" + block == existing + ['\n'] + block;
      SplitConcat(existing, block, '\n');
    } else {
      assert existing + "\n" + "\n" + block == existing + ['\n'] + ("" + ['\n'] + block);
      SplitConcat(existing, "" + ['\n'] + block, '\n');
      SplitConcat("", block, '\n');
    }
  }

  lemma NewlineThenBlock(before: string, section: string, bullet: string)
    ensures before + "\n## " + section + "\n" + bullet + "\n" == before + "\n" + Block(section, bullet)
  {
    assert "\n## " == "\n" + "## ";
  }

  lemma MissingText(existing: string, section: string, bullet: string) returns (rest: seq<string>)
    requires '\n' !in bullet
    ensures var doc :=
              existing + (if EndsWithNewline(existing) then "" else "\n") + "\n## " + section + "\n" + bullet + "\n";
            Lines(doc) == Lines(existing) + rest
    ensures '\n' !in section ==> rest == Tail(existing, section, bullet)
    ensures |rest| > 0
  {
    var gap := if EndsWithNewline(existing) then "" else "\n";
    var block := Block(section, bullet);
    rest := Gap(existing) + Lines(block);
    BlockBelow(existing, block);
    NewlineThenBlock(existing + gap, section, bullet);
    assert Lines(existing) + Gap(existing) + Lines(block) == Lines(existing) + rest;
    if '\n' !in section {
      BlockLines(section, bullet);
    }
  }

  lemma SplicedText(existing: string, p: nat, bullet: string)
    requires p <= |Lines(existing)| && '\n' !in bullet
    ensures Lines(Join(Splice(Lines(existing), p, bullet), "\n")) == Splice(Lines(existing), p, bullet)
  {
    SplitJoin(Splice(Lines(existing), p, bullet), '\n');
  }

  /** The lines of the document after an append: unchanged, one line spliced in, or a
      block added at the end. */
  lemma AppendedLines(existing: string, section: string, content: string, c: Casing) returns (rest: seq<string>)
    requires Sanitize(content) != ""
    ensures var doc := Appended(existing, section, content, c);
            var bullet := BulletOf(Sanitize(content));
            match Locate(Seen(existing, section, content, c))
            case Duplicate => doc == existing
            case At(p) => Lines(doc) == Splice(Lines(existing), p, bullet)
            case Missing =>
              && Lines(doc) == Lines(existing) + rest
              && |rest| > 0
              && ('\n' !in section ==> rest == Tail(existing, section, bullet))
  {
    var bullet := BulletOf(Sanitize(content));
    rest := MissingText(existing, section, bullet);
    match Locate(Seen(existing, section, content, c))
    case Duplicate =>
    case Missing =>
    case At(p) => SplicedText(existing, p, bullet);
  }

  /** The splice point of an append: inside the section, below its last heading and its
      last line that is not blank, with only blank lines between it and the next section. */
  ghost predicate IsLastPlace(ks: seq<Kind>, f: nat, e: nat, p: nat) {
    && IsRegion(ks, f, e)
    && f < p <= e
    && (forall i | p <= i < e :: ks[i].Body? && ks[i].blank)
    && (ks[p - 1].Body? ==> !ks[p - 1].blank)
  }

  /** Appending to a section that exists: the document is unchanged exactly when the section
      already holds the bullet; otherwise it gains that one line, at the last place of the
      section, and every other line keeps its text and its order. */
  lemma {:induction false} AppendToExisting(existing: string, section: string, content: string, c: Casing) returns (p: nat)
    requires Sanitize(content) != ""
    requires exists i | 0 <= i < |Lines(existing)| :: Heads(Lines(existing)[i], section, c)
    ensures var ks := Seen(existing, section, content, c);
            var f := FirstHead(ks, 0);
            var e := RegionEnd(ks, f);
            var doc := Appended(existing, section, content, c);
            && (doc == existing <==> exists i | f <= i < e :: ks[i].Body? && ks[i].same)
            && (doc != existing ==>
                  && IsLastPlace(ks, f, e, p)
                  && Lines(doc) == Splice(Lines(existing), p, BulletOf(Sanitize(content))))
  {
    var ks := Seen(existing, section, content, c);
    var i :| 0 <= i < |Lines(existing)| && Heads(Lines(existing)[i], section, c);
    assert ks[i].Head?;
    PlaceInRegion(ks);
    var rest := AppendedLines(existing, section, content, c);
    p := 0;
    if Locate(ks).At? {
      p := Locate(ks).index;
      assert |Splice(Lines(existing), p, BulletOf(Sanitize(content)))| == |Lines(existing)| + 1;
    }
  }

  lemma PlaceInRegion(ks: seq<Kind>)
    requires FirstHead(ks, 0) < |ks|
    ensures var f := FirstHead(ks, 0);
            var e := RegionEnd(ks, f);
            match Locate(ks)
            case Missing => false
            case Duplicate => exists i | f <= i < e :: ks[i].Body? && ks[i].same
            case At(p) =>
              IsLastPlace(ks, f, e, p) && forall i | f <= i < e :: ks[i].Body? ==> !ks[i].same
  {
    RegionOf(ks);
  }

  function CountH2(lines: seq<string>): nat {
    if lines == [] then 0
    else CountH2(lines[..|lines| - 1]) + if IsH2(lines[|lines| - 1]) then 1 else 0
  }

  /** Appending to a section that does not exist keeps every old line in place, whatever the
      name; for a one-line name it then adds exactly one H2, the heading of the section,
      with the bullet directly below it. */
  lemma AppendToMissing(existing: string, section: string, content: string, c: Casing)
    requires Sanitize(content) != ""
    requires forall i | 0 <= i < |Lines(existing)| :: !Heads(Lines(existing)[i], section, c)
    ensures var after := Lines(Appended(existing, section, content, c));
            && Lines(existing) < after
            && ('\n' !in section ==>
                  && after == Lines(existing) + Tail(existing, section, BulletOf(Sanitize(content)))
                  && CountH2(after) == CountH2(Lines(existing)) + 1)
  {
    var ks := Seen(existing, section, content, c);
    assert Locate(ks) == Missing;
    var rest := AppendedLines(existing, section, content, c);
    if '\n' !in section {
      CountH2Concat(Lines(existing), rest);
      TailHasOneH2(existing, section, BulletOf(Sanitize(content)));
    }
  }

  lemma TailHasOneH2(existing: string, section: string, bullet: string)
    requires bullet != "" && bullet[0] == '-'
    ensures CountH2(Tail(existing, section, bullet)) == 1
  {
    CountH2Concat(Gap(existing), ["## " + section, bullet, ""]);
    CountH2Concat(["## " + section, bullet], [""]);
    CountH2Concat(["## " + section], [bullet]);
    assert IsH2("## " + section);
    assert ["## " + section] + [bullet] + [""] == ["## " + section, bullet, ""];
  }

  lemma {:induction false} CountH2Concat(a: seq<string>, b: seq<string>)
    ensures CountH2(a + b) == CountH2(a) + CountH2(b)
  {
    if b == [] {
      assert a + b == a;
    } else {
      CountH2Concat(a, b[..|b| - 1]);
      assert (a + b)[..|a + b| - 1] == a + b[..|b| - 1];
    }
  }

  // ----- Appending the same fact again -----

  /** The document already says it: appending changes nothing. */
  ghost predicate Says(doc: string, section: string, content: string, c: Casing) {
    Sanitize(content) == "" || Locate(Seen(doc, section, content, c)) == Duplicate
  }

  lemma SaysIsUnchanged(doc: string, section: string, content: string, c: Casing)
    ensures Says(doc, section, content, c) <==> Appended(doc, section, content, c) == doc
  {
    if Sanitize(content) != "" {
      var rest := AppendedLines(doc, section, content, c);
    }
  }

  lemma SpliceAt<T>(xs: seq<T>, p: nat, x: T)
    requires p <= |xs|
    ensures |Splice(xs, p, x)| == |xs| + 1
    ensures forall i | 0 <= i <= |xs| :: Splice(xs, p, x)[i] == if i < p then xs[i] else if i == p then x else xs[i - 1]
  {
  }

  lemma RegionAfterSplice(ks: seq<Kind>, f: nat, e: nat, p: nat, k: Kind)
    requires IsRegion(ks, f, e) && k.Body? && p <= |ks|
    ensures IsRegion(Splice(ks, p, k), if p <= f then f + 1 else f, if p <= e then e + 1 else e)
  {
    SpliceAt(ks, p, k);
  }

  lemma DuplicateAfterSplice(ks: seq<Kind>, p: nat, k: Kind)
    requires p <= |ks| && k.Body?
    requires Locate(ks) == Duplicate || (Locate(ks) == At(p) && k.same)
    ensures Locate(Splice(ks, p, k)) == Duplicate
  {
    var ks' := Splice(ks, p, k);
    var f := FirstHead(ks, 0);
    var e := RegionEnd(ks, f);
    RegionOf(ks);
    RegionAfterSplice(ks, f, e, p, k);
    RegionIsUnique(ks', if p <= f then f + 1 else f, if p <= e then e + 1 else e);
    if Locate(ks) == Duplicate {
      var i :| f <= i < e && ks[i].Body? && ks[i].same;
      assert ks'[if i < p then i else i + 1] == ks[i];
    } else {
      assert ks'[p] == k;
    }
  }

  lemma DuplicateAfterExtension(ks: seq<Kind>, more: seq<Kind>)
    requires Locate(ks) == Duplicate
    ensures Locate(ks + more) == Duplicate
  {
    var all := ks + more;
    var f := FirstHead(ks, 0);
    var e := RegionEnd(ks, f);
    var i :| f <= i < e && ks[i].Body? && ks[i].same;
    FirstHeadIs(all, f);
    RegionEndAtLeast(all, f, e);
    assert all[i] == ks[i];
  }

  /** Whatever is appended to whichever section, nothing said before is lost. */
  lemma {:induction false} SaysIsKept(doc: string, section: string, content: string, other: string, fact: string, c: Casing)
    requires Says(doc, other, fact, c)
    ensures Says(Appended(doc, section, content, c), other, fact, c)
  {
    if Sanitize(content) != "" && Sanitize(fact) != "" {
      var rest := AppendedLines(doc, section, content, c);
      var bullet := BulletOf(Sanitize(content));
      var norm := Norm(BulletOf(Sanitize(fact)), c);
      var ks := Seen(doc, other, fact, c);
      match Locate(Seen(doc, section, content, c))
      case Duplicate =>
      case At(p) =>
        BulletIsBody(bullet, other, norm, c);
        KindsSplice(Lines(doc), p, bullet, other, norm, c);
        DuplicateAfterSplice(ks, p, KindOf(bullet, other, norm, c));
      case Missing =>
        KindsConcat(Lines(doc), rest, other, norm, c);
        DuplicateAfterExtension(ks, Kinds(rest, other, norm, c));
    }
  }

  lemma {:induction false} SaysAfterAppend(doc: string, section: string, content: string, c: Casing)
    requires '\n' !in section
    ensures Says(Appended(doc, section, content, c), section, content, c)
  {
    if Sanitize(content) != "" {
      var rest := AppendedLines(doc, section, content, c);
      var bullet := BulletOf(Sanitize(content));
      var norm := Norm(bullet, c);
      var ks := Seen(doc, section, content, c);
      BulletIsBody(bullet, section, norm, c);
      var k := KindOf(bullet, section, norm, c);
      match Locate(ks)
      case Duplicate =>
      case At(p) =>
        KindsSplice(Lines(doc), p, bullet, section, norm, c);
        DuplicateAfterSplice(ks, p, k);
      case Missing =>
        KindsConcat(Lines(doc), rest, section, norm, c);
        NewHeading(section, norm, c);
        var more := Kinds(rest, section, norm, c);
        var h := |ks| + |rest| - 3;
        assert (ks + more)[h] == Head && (ks + more)[h + 1] == k;
        assert FirstHead(ks + more, 0) <= h;
        MissingThenPresent(ks, more);
    }
  }

  lemma MissingThenPresent(ks: seq<Kind>, more: seq<Kind>)
    requires Locate(ks) == Missing
    requires 3 <= |more| <= 4 && more[|more| - 3].Head? && more[|more| - 2].Body? && more[|more| - 2].same
    requires |more| == 4 ==> more[0].Body?
    ensures Locate(ks + more) == Duplicate
  {
    var all := ks + more;
    var h := |all| - 3;
    assert forall i | 0 <= i < |ks| :: !all[i].Head?;
    FirstHeadIs(all, h);
    assert all[h + 1] == more[|more| - 2];
    assert all[h] == more[|more| - 3];
    RegionEndAtLeast(all, h, h + 2);
  }

  /** A name with a line break in it only matches a line that has one too. */
  lemma BrokenName(line: string, section: string, c: Casing)
    requires SoundFold(c) && '\n' in section && Heads(line, section, c)
    ensures '\n' in line
  {
    var n :| 1 <= n <= |line| - 2 - |section| && HeadsAfter(line, section, c, n);
    var i :| 0 <= i < |section| && section[i] == '\n';
    assert line[2 + n..2 + n + |section|][i] == line[2 + n + i];
  }

  /** Appending the same fact twice is the same as appending it once, exactly when the fact
      is blank or the name of the section is a single line. */
  lemma {:induction false} AppendTwice(doc: string, section: string, content: string, c: Casing)
    requires SoundFold(c)
    ensures var once := Appended(doc, section, content, c);
            Appended(once, section, content, c) == once <==> Sanitize(content) == "" || '\n' !in section
  {
    var once := Appended(doc, section, content, c);
    SaysIsUnchanged(once, section, content, c);
    if '\n' !in section {
      SaysAfterAppend(doc, section, content, c);
    } else if Sanitize(content) != "" {
      var ks := Seen(once, section, content, c);
      var f := FirstHead(ks, 0);
      if f < |ks| {
        BrokenName(Lines(once)[f], section, c);
        assert false;
      }
    }
  }

  // ----- Other sections -----

  /** First line of a section and the line after its last. */
  function Span(ks: seq<Kind>): (r: (nat, nat))
    ensures r.0 <= r.1 <= |ks|
  {
    var f := FirstHead(ks, 0);
    (f, RegionEnd(ks, f))
  }

  /** The lines of a section, its headings included; empty when there is no such section. */
  function SectionLines(lines: seq<string>, section: string, c: Casing): seq<string> {
    Slice(lines, Span(Kinds(lines, section, "", c)))
  }

  /** No line is a heading of both sections. */
  ghost predicate Distinct(a: string, b: string, c: Casing) {
    forall line :: !(Heads(line, a, c) && Heads(line, b, c))
  }

  /** A name as the callers pass it: not empty, no white space at either end. */
  predicate Trimmed(name: string) {
    name != "" && !IsSpace(name[0]) && !IsSpace(name[|name| - 1])
  }

  lemma SameGap(line: string, a: string, b: string, c: Casing, n: int, m: int)
    requires SoundFold(c) && Trimmed(a) && Trimmed(b)
    requires 1 <= n <= |line| - 2 - |a| && HeadsAfter(line, a, c, n)
    requires 1 <= m <= |line| - 2 - |b| && HeadsAfter(line, b, c, m)
    ensures m <= n && m + |b| >= n + |a|
  {
    var name := line[2 + n..2 + n + |a|];
    assert c.fold(name[0]) == c.fold(a[0]) && name[0] == line[2 + n];
    assert c.fold(name[|a| - 1]) == c.fold(a[|a| - 1]) && name[|a| - 1] == line[2 + n + |a| - 1];
  }

  lemma SameNameShares(a: string, b: string, c: Casing)
    requires FoldEqual(a, b, c)
    ensures Heads("## " + a, a, c) && Heads("## " + a, b, c)
  {
    var line := "## " + a;
    assert line[3..3 + |a|] == a;
    assert HeadsAfter(line, a, c, 1) && HeadsAfter(line, b, c, 1);
  }

  lemma SamePlaceSameName(line: string, a: string, b: string, c: Casing, n: int)
    requires |a| == |b| && 1 <= n <= |line| - 2 - |a| && HeadsAfter(line, a, c, n) && HeadsAfter(line, b, c, n)
    ensures FoldEqual(a, b, c)
  {
    var name := line[2 + n..2 + n + |a|];
    forall i | 0 <= i < |a| ensures c.fold(a[i]) == c.fold(b[i]) {
      assert c.fold(name[i]) == c.fold(a[i]) == c.fold(b[i]);
    }
  }

  lemma SharedHeading(line: string, a: string, b: string, c: Casing)
    requires SoundFold(c) && Trimmed(a) && Trimmed(b)
    requires Heads(line, a, c) && Heads(line, b, c)
    ensures FoldEqual(a, b, c)
  {
    var n :| 1 <= n <= |line| - 2 - |a| && HeadsAfter(line, a, c, n);
    var m :| 1 <= m <= |line| - 2 - |b| && HeadsAfter(line, b, c, m);
    SameGap(line, a, b, c, n, m);
    SameGap(line, b, a, c, m, n);
    SamePlaceSameName(line, a, b, c, n);
  }

  /** Two trimmed names share a heading line exactly when they are equal up to case. */
  lemma DistinctNames(a: string, b: string, c: Casing)
    requires SoundFold(c) && Trimmed(a) && Trimmed(b)
    ensures Distinct(a, b, c) <==> !FoldEqual(a, b, c)
  {
    if FoldEqual(a, b, c) {
      SameNameShares(a, b, c);
    } else if line :| Heads(line, a, c) && Heads(line, b, c) {
      SharedHeading(line, a, b, c);
    }
  }

  /** The splice point for one section lies outside every other section. */
  lemma SpliceMissesOther(mine: seq<Kind>, ks: seq<Kind>, p: nat)
    requires |mine| == |ks| && Locate(mine) == At(p)
    requires forall i | 0 <= i < |ks| :: ks[i].Body? <==> mine[i].Body?
    requires forall i | 0 <= i < |ks| :: !(ks[i].Head? && mine[i].Head?)
    ensures var (f, e) := Span(ks);
            f < |ks| ==> p <= f || e < p
  {
    var (f, e) := Span(ks);
    var g := FirstHead(mine, 0);
    RegionOf(mine);
    assert mine[g].Head? && ks[g].Other?;
    if f < |ks| {
      assert mine[f].Other?;
      if g < f {
        assert RegionEnd(mine, g) <= f;
      } else {
        assert e <= g;
      }
    }
  }

  lemma SpanAfterSplice(ks: seq<Kind>, p: nat, k: Kind)
    requires p <= |ks| && k.Body?
    requires var (f, e) := Span(ks); f < |ks| ==> p <= f || e < p
    ensures var (f, e) := Span(ks);
            Span(Splice(ks, p, k)) == if p <= f then (f + 1, e + 1) else (f, e)
  {
    var (f, e) := Span(ks);
    SpliceAt(ks, p, k);
    if f < |ks| {
      RegionOf(ks);
      RegionAfterSplice(ks, f, e, p, k);
      RegionIsUnique(Splice(ks, p, k), if p <= f then f + 1 else f, if p <= e then e + 1 else e);
    } else {
      FirstHeadIs(Splice(ks, p, k), |ks| + 1);
    }
  }

  lemma SpanAfterExtension(ks: seq<Kind>, more: seq<Kind>, b: nat)
    requires b < |more| && more[b].Other?
    requires forall i | 0 <= i < |more| && i != b :: more[i].Body?
    ensures var (f, e) := Span(ks);
            Span(ks + more) == if f == |ks| then (|ks + more|, |ks + more|)
                               else if e == |ks| then (f, |ks| + b) else (f, e)
  {
    var all := ks + more;
    var (f, e) := Span(ks);
    assert forall i | 0 <= i < |more| :: all[|ks| + i] == more[i];
    if f == |ks| {
      FirstHeadIs(all, |all|);
    } else {
      FirstHeadIs(all, f);
      RegionEndIs(all, f, if e == |ks| then |ks| + b else e);
    }
  }

  lemma SameBodies(lines: seq<string>, section: string, norm: string, other: string, c: Casing)
    requires Distinct(section, other, c)
    ensures var ks, mine := Kinds(lines, other, "", c), Kinds(lines, section, norm, c);
            forall i | 0 <= i < |ks| ::
              (ks[i].Body? <==> mine[i].Body?) && !(ks[i].Head? && mine[i].Head?)
  {
    var ks, mine := Kinds(lines, other, "", c), Kinds(lines, section, norm, c);
    forall i | 0 <= i < |ks|
      ensures (ks[i].Body? <==> mine[i].Body?) && !(ks[i].Head? && mine[i].Head?)
    {
      assert !(Heads(lines[i], section, c) && Heads(lines[i], other, c));
    }
  }

  /** An append to one section leaves the lines of every differently named section exactly
      as they were, except that the last section of the document may end in a new blank line
      when a missing section is added below it. */
  lemma OtherSectionsAreKept(doc: string, section: string, content: string, other: string, c: Casing)
    requires Distinct(section, other, c) && '\n' !in section
    ensures var before := SectionLines(Lines(doc), other, c);
            var after := SectionLines(Lines(Appended(doc, section, content, c)), other, c);
            after == before || after == before + [""]
  {
    if Sanitize(content) == "" { return; }
    var rest := AppendedLines(doc, section, content, c);
    var bullet := BulletOf(Sanitize(content));
    BulletIsBody(bullet, other, "", c);
    var ks := Kinds(Lines(doc), other, "", c);
    var mine := Seen(doc, section, content, c);
    match Locate(mine)
    case Duplicate =>
    case Missing =>
      KindsConcat(Lines(doc), rest, other, "", c);
      TailKinds(doc, section, bullet, other, c);
      SliceAfterExtension(Lines(doc), rest, ks, Kinds(rest, other, "", c), |Gap(doc)|);
    case At(p) =>
      KindsSplice(Lines(doc), p, bullet, other, "", c);
      SameBodies(Lines(doc), section, Norm(bullet, c), other, c);
      SliceAfterSplice(Lines(doc), bullet, ks, mine, p, KindOf(bullet, other, "", c));
  }

  function Slice<T>(xs: seq<T>, span: (nat, nat)): seq<T>
    requires span.0 <= span.1 <= |xs|
  {
    xs[span.0..span.1]
  }

  lemma SliceAfterSplice(lines: seq<string>, bullet: string, ks: seq<Kind>, mine: seq<Kind>, p: nat, k: Kind)
    requires |lines| == |ks| == |mine| && Locate(mine) == At(p) && k.Body?
    requires forall i | 0 <= i < |ks| :: (ks[i].Body? <==> mine[i].Body?) && !(ks[i].Head? && mine[i].Head?)
    ensures Slice(Splice(lines, p, bullet), Span(Splice(ks, p, k))) == Slice(lines, Span(ks))
  {
    SpliceMissesOther(mine, ks, p);
    SpanAfterSplice(ks, p, k);
    SliceOutside(lines, bullet, p, Span(ks));
  }

  /** A line spliced in outside a span leaves its lines. */
  lemma SliceOutside(lines: seq<string>, bullet: string, p: nat, span: (nat, nat))
    requires span.0 <= span.1 <= |lines| && p <= |lines|
    requires span.0 < |lines| ==> p <= span.0 || span.1 < p
    ensures var (f, e) := span;
            Slice(Splice(lines, p, bullet), if p <= f then (f + 1, e + 1) else (f, e)) == Slice(lines, span)
  {
    var (f, e) := span;
    var after := Splice(lines, p, bullet);
    if p <= f {
      assert after[f + 1..e + 1] == lines[f..e];
    } else {
      assert after[f..e] == lines[f..e];
    }
  }

  lemma SliceAfterExtension(lines: seq<string>, rest: seq<string>, ks: seq<Kind>, more: seq<Kind>, b: nat)
    requires |lines| == |ks| && |rest| == |more|
    requires b < |more| && more[b].Other? && rest[..b] in [[], [""]]
    requires forall i | 0 <= i < |more| && i != b :: more[i].Body?
    ensures var before, after := Slice(lines, Span(ks)), Slice(lines + rest, Span(ks + more));
            after == before || after == before + [""]
  {
    SpanAfterExtension(ks, more, b);
    var (f, e) := Span(ks);
    assert (lines + rest)[f..e] == lines[f..e];
    assert e == |lines| ==> (lines + rest)[f..e + b] == lines[f..e] + rest[..b];
  }

  lemma TailKinds(doc: string, section: string, bullet: string, other: string, c: Casing)
    requires Distinct(section, other, c) && bullet != "" && bullet[0] == '-'
    ensures var rest := Tail(doc, section, bullet);
            var more := Kinds(rest, other, "", c);
            var b := |Gap(doc)|;
            && b < |more| && more[b].Other? && rest[..b] in [[], [""]]
            && forall i | 0 <= i < |more| && i != b :: more[i].Body?
  {
    var rest, b := Tail(doc, section, bullet), |Gap(doc)|;
    NewHeading(section, "", c);
    BulletIsBody(bullet, other, "", c);
    assert rest[..b] == Gap(doc);
    assert rest[b] == "## " + section && rest[b + 1] == bullet && rest[b + 2] == "";
    assert KindOf("", other, "", c).Body?;
    assert !(Heads(rest[b], section, c) && Heads(rest[b], other, c));
  }
}
