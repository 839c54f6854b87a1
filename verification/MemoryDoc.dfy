/** The Markdown editor behind user memory: `appendToSection` adds one bullet to one
    H2 section of a document (src/routes/memory-md-helpers.ts). */
module MemoryDoc {
  import opened Text

  /** Letter case as the runtime sees it: `lower` is `toLowerCase` on strings and
      `fold` is the per-character canonical form a case-insensitive pattern compares. */
  datatype Casing = Casing(lower: string -> string, fold: char -> char)

  /** What is assumed of folding: a newline is only equal to itself, and white space is
      never equal to anything else. */
  ghost predicate SoundFold(c: Casing) {
    && (forall x :: c.fold(x) == c.fold('\n') ==> x == '\n')
    && (forall x, y :: c.fold(x) == c.fold(y) ==> (IsSpace(x) <==> IsSpace(y)))
  }

  // ----- The incoming bullet -----

  /** `s.replace(/\r/g, "")` */
  function RemoveReturns(s: string): (t: string)
    ensures '\r' !in t
    ensures forall x :: x in t ==> x in s
  {
    if s == "" then "" else (if s[0] == '\r' then "" else [s[0]]) + RemoveReturns(s[1..])
  }

  function DropLeading(s: string, x: char): (t: string)
    ensures |t| <= |s|
    ensures t != "" ==> t[0] != x
    ensures forall y :: y in t ==> y in s
    ensures s != "" && s[0] == x ==> |t| < |s|
  {
    if s != "" && s[0] == x then DropLeading(s[1..], x) else s
  }

  /** `s.replace(/\n+/g, " ")` */
  function FlattenNewlines(s: string): (t: string)
    ensures '\n' !in t
    ensures '\r' !in s ==> '\r' !in t
    ensures '\n' !in s ==> t == s
    decreases |s|
  {
    if s == "" then ""
    else if s[0] == '\n' then " " + FlattenNewlines(DropLeading(s, '\n'))
    else [s[0]] + FlattenNewlines(s[1..])
  }

  /** Drop leading `#`s, and the white space after them, if there are any. */
  function StripHashes(s: string): (t: string)
    ensures forall y :: y in t ==> y in s
  {
    if s != "" && s[0] == '#' then
      TrimStartFacts(DropLeading(s, '#'));
      TrimStart(DropLeading(s, '#'))
    else s
  }

  /** What is left of a submitted fact: one line, trimmed. */
  function Sanitize(content: string): (t: string)
    ensures '\n' !in t && '\r' !in t
  {
    var inner := StripHashes(FlattenNewlines(RemoveReturns(content)));
    TrimFacts(inner);
    Trim(inner)
  }

  function BulletOf(sanitized: string): (b: string)
    requires sanitized != "" && '\n' !in sanitized
    ensures b != "" && b[0] == '-' && '\n' !in b
  {
    if sanitized[0] == '-' then sanitized else "- " + sanitized
  }

  /** The form under which two lines count as the same bullet. */
  function Norm(line: string, c: Casing): string {
    c.lower(Trim(line))
  }

  // ----- Headings -----

  /** `/^##\s/` */
  predicate IsH2(line: string) {
    |line| >= 3 && line[0] == '#' && line[1] == '#' && IsSpace(line[2])
  }

  predicate FoldEqual(a: string, b: string, c: Casing) {
    |a| == |b| && forall i | 0 <= i < |a| :: c.fold(a[i]) == c.fold(b[i])
  }

  /** The section pattern matches with exactly `n` blanks between `##` and the name. */
  predicate HeadsAfter(line: string, section: string, c: Casing, n: int)
    requires 1 <= n <= |line| - 2 - |section|
  {
    && IsH2(line)
    && AllSpace(line[2..2 + n])
    && FoldEqual(line[2 + n..2 + n + |section|], section, c)
    && AllSpace(line[2 + n + |section|..])
  }

  /** `line` is a heading of `section`. */
  predicate Heads(line: string, section: string, c: Casing) {
    exists n | 1 <= n <= |line| - 2 - |section| :: HeadsAfter(line, section, c, n)
  }

  predicate Blank(line: string) {
    Trim(line) == ""
  }

  // ----- Where the bullet goes -----

  /** What one line means to an append: a heading of the section, a heading of another
      section, or a body line that may be blank and may already be the bullet. */
  datatype Kind = Head | Other | Body(same: bool, blank: bool)

  function KindOf(line: string, section: string, norm: string, c: Casing): Kind {
    if Heads(line, section, c) then Head
    else if IsH2(line) then Other
    else Body(Norm(line, c) == norm, Blank(line))
  }

  function Kinds(lines: seq<string>, section: string, norm: string, c: Casing): (ks: seq<Kind>)
    ensures |ks| == |lines|
    ensures forall i | 0 <= i < |lines| :: ks[i] == KindOf(lines[i], section, norm, c)
  {
    if lines == [] then []
    else Kinds(lines[..|lines| - 1], section, norm, c) + [KindOf(lines[|lines| - 1], section, norm, c)]
  }

  /** First heading of the section at or after `from`, or the number of lines. */
  function FirstHead(ks: seq<Kind>, from: nat): (f: nat)
    requires from <= |ks|
    ensures from <= f <= |ks|
    ensures f < |ks| ==> ks[f].Head?
    ensures forall i | from <= i < f :: !ks[i].Head?
    decreases |ks| - from
  {
    if from == |ks| || ks[from].Head? then from else FirstHead(ks, from + 1)
  }

  /** First heading of another section at or after `from`, or the number of lines. */
  function RegionEnd(ks: seq<Kind>, from: nat): (e: nat)
    requires from <= |ks|
    ensures from <= e <= |ks|
    ensures e < |ks| ==> ks[e].Other?
    ensures forall i | from <= i < e :: !ks[i].Other?
    decreases |ks| - from
  {
    if from == |ks| || ks[from].Other? then from else RegionEnd(ks, from + 1)
  }

  /** Last heading of the section before `e`, given that `f` is one. */
  function LastHead(ks: seq<Kind>, f: nat, e: nat): (h: nat)
    requires f < e <= |ks| && ks[f].Head?
    ensures f <= h < e && ks[h].Head?
    ensures forall i | h < i < e :: !ks[i].Head?
  {
    if ks[e - 1].Head? then e - 1 else LastHead(ks, f, e - 1)
  }

  /** Walk back from `tail` over blank lines, not below `floor`. */
  function Settle(ks: seq<Kind>, floor: nat, tail: nat): (p: nat)
    requires floor <= tail <= |ks|
    requires forall i | floor <= i < tail :: ks[i].Body?
    ensures floor <= p <= tail
    ensures forall i | p <= i < tail :: ks[i].blank
    ensures p > floor ==> !ks[p - 1].blank
  {
    if tail > floor && ks[tail - 1].blank then Settle(ks, floor, tail - 1) else tail
  }

  /** The bullet is already among `ks[f..e]`. */
  predicate Present(ks: seq<Kind>, f: nat, e: nat)
    requires f <= e <= |ks|
  {
    exists i | f <= i < e :: ks[i].Body? && ks[i].same
  }

  datatype Place = Missing | Duplicate | At(index: nat)

  function Locate(ks: seq<Kind>): (p: Place)
    ensures p.At? ==> p.index <= |ks|
  {
    var f := FirstHead(ks, 0);
    if f == |ks| then Missing
    else
      var e := RegionEnd(ks, f);
      if Present(ks, f, e) then Duplicate else At(Settle(ks, LastHead(ks, f, e) + 1, e))
  }

  function Splice<T>(lines: seq<T>, p: nat, line: T): seq<T>
    requires p <= |lines|
  {
    lines[..p] + [line] + lines[p..]
  }

  predicate EndsWithNewline(s: string) {
    s != "" && s[|s| - 1] == '\n'
  }

  /** The document after one append. */
  function Appended(existing: string, section: string, content: string, c: Casing): string {
    var sanitized := Sanitize(content);
    if sanitized == "" then existing
    else
      var bullet := BulletOf(sanitized);
      var lines := SplitOn(existing, '\n');
      match Locate(Kinds(lines, section, Norm(bullet, c), c))
      case Missing =>
        existing + (if EndsWithNewline(existing) then "" else "\n") + "\n## " + section + "\n" + bullet + "\n"
      case Duplicate => existing
      case At(p) => Join(Splice(lines, p, bullet), "\n")
  }

  lemma EdgesAre(ks: seq<Kind>, f: nat, h: nat, e: nat)
    requires f <= h < e <= |ks| && ks[f].Head? && ks[h].Head?
    requires forall j | f <= j < e :: !ks[j].Other?
    requires forall j | h < j < e :: !ks[j].Head?
    requires e < |ks| ==> ks[e].Other?
    ensures RegionEnd(ks, f) == e && LastHead(ks, f, e) == h
  {
  }

  method WalkBack(ks: seq<Kind>, insertAt: nat, tail: nat) returns (insert: nat)
    requires insertAt <= tail <= |ks|
    requires forall i | insertAt <= i < tail :: ks[i].Body?
    ensures insert == Settle(ks, insertAt, tail)
  {
    insert := tail;
    while insert > insertAt && ks[insert - 1].blank
      invariant insertAt <= insert <= tail
      invariant Settle(ks, insertAt, insert) == Settle(ks, insertAt, tail)
    {
      insert := insert - 1;
    }
  }

  /** The scan of the editor: three cursors over the lines, then a walk back over the
      blank tail of the section. Each line enters as the outcome of the tests made on it. */
  method FindPlace(ks: seq<Kind>) returns (place: Place)
    ensures place == Locate(ks)
  {
    ghost var first := FirstHead(ks, 0);
    var inSection, insertAt, sectionEnd := false, -1, -1;
    var i := 0;
    while i < |ks|
      invariant 0 <= i <= |ks| && sectionEnd == -1
      invariant !inSection ==> i <= first
      invariant inSection ==> first < i && first < insertAt <= i && ks[insertAt - 1].Head?
      invariant inSection ==> forall j | first <= j < i :: !ks[j].Other? && (ks[j].Body? ==> !ks[j].same)
      invariant inSection ==> forall j | insertAt <= j < i :: !ks[j].Head?
    {
      if ks[i].Head? {
        inSection := true;
        insertAt := i + 1;
      } else if inSection {
        if ks[i].Other? {
          sectionEnd := i;
          break;
        }
        if ks[i].same {
          assert i < RegionEnd(ks, first);
          return Duplicate;
        }
      }
      i := i + 1;
    }
    if !inSection {
      return Missing;
    }
    var tail := if sectionEnd >= 0 then sectionEnd else |ks|;
    EdgesAre(ks, first, insertAt - 1, tail);
    var insert := WalkBack(ks, insertAt, tail);
    return At(insert);
  }

  /** The editor itself. */
  method AppendToSection(existing: string, section: string, content: string, c: Casing) returns (merged: string)
    ensures merged == Appended(existing, section, content, c)
  {
    var sanitized := Sanitize(content);
    if sanitized == "" {
      return existing;
    }
    var bullet := BulletOf(sanitized);
    var lines := SplitOn(existing, '\n');
    var place := FindPlace(Kinds(lines, section, Norm(bullet, c), c));
    match place
    case Duplicate =>
      return existing;
    case Missing =>
      var suffix := if EndsWithNewline(existing) then "" else "\n";
      return existing + suffix + "\n## " + section + "\n" + bullet + "\n";
    case At(insert) =>
      return Join(Splice(lines, insert, bullet), "\n");
  }
}
