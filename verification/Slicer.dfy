/** The document slicer `sliceBySection` (src/routes/chat-upload.router.ts): from a label to
    the lines it names. */
module Slicer {
  import opened Text
  import opened Wrappers

  /** What extension and language make of the file; several may hold. */
  datatype Kind = Kind(
    pdf: bool, numbered: bool, markdown: bool, data: bool, code: bool, sheets: bool, slides: bool, docx: bool)

  /** The label's patterns: numbers captured from it, and the lines they match. A pattern is
      absent when the label has no part it could be built from. */
  datatype Label = Label(
    blank: bool,
    page: Option<nat>,
    lineNumber: Option<nat>,
    title: string -> bool,
    key: string -> bool,
    block: Option<string -> bool>,
    ident: Option<string -> bool>,
    sheetRow: Option<(string -> bool, nat)>,
    sheet: Option<string -> bool>,
    slide: Option<string -> bool>,
    passage: Option<string -> bool>,
    literal: string -> bool)

  /** The patterns that do not depend on the label: lines that start any sheet or any slide,
      the level of a heading line (0 for other lines), blank lines, and indentation. */
  datatype Marks = Marks(
    sheet: string -> bool,
    slide: string -> bool,
    level: string -> nat,
    blank: string -> bool,
    indent: string -> nat)

  datatype SliceResult = SliceResult(text: string, startLine: int, endLine: int, matched: bool)

  function Min(a: int, b: int): int { if a < b then a else b }
  function Max(a: int, b: int): int { if a < b then b else a }

  // ----- Lines -----

  /** First line at or after `from` that `p` holds of, or the number of lines. */
  function First(lines: seq<string>, p: string -> bool, from: nat): (i: nat)
    requires from <= |lines|
    ensures from <= i <= |lines|
    ensures i < |lines| ==> p(lines[i])
    ensures forall j | from <= j < i :: !p(lines[j])
    decreases |lines| - from
  {
    if from == |lines| || p(lines[from]) then from else First(lines, p, from + 1)
  }

  function TitleLine(tag: Label, marks: Marks): string -> bool {
    (line: string) => marks.level(line) > 0 && tag.title(line)
  }

  /** Headings of level `n` or higher up. */
  function UpTo(n: nat, marks: Marks): string -> bool {
    (line: string) => 0 < marks.level(line) <= n
  }

  /** The line is neither blank nor indented deeper than `n`: it ends a block. */
  function Outside(n: nat, marks: Marks): string -> bool {
    (line: string) => !marks.blank(line) && marks.indent(line) <= n
  }

  // ----- Excerpts -----

  /** `lines.slice(a, b).join("\n")` */
  function Lines(lines: seq<string>, a: int, b: int): string
    requires 0 <= a && b <= |lines|
  {
    if a < b then Join(lines[a..b], "\n") else ""
  }

  function Excerpt(lines: seq<string>, start: int, end: int): SliceResult
    requires 1 <= start && end <= |lines|
  {
    SliceResult(Lines(lines, start - 1, end), start, end, true)
  }

  /** The lines around line `i`, `reach` of them on either side. */
  function Around(lines: seq<string>, i: nat, reach: nat): SliceResult
    requires i < |lines|
  {
    Excerpt(lines, Max(1, i + 1 - reach), Min(|lines|, i + 1 + reach))
  }

  /** The lines from `i` up to the next line that `stop` holds of. */
  function UntilNext(lines: seq<string>, i: nat, stop: string -> bool): SliceResult
    requires i < |lines|
  {
    Excerpt(lines, i + 1, First(lines, stop, i + 1))
  }

  // ----- The branches -----

  function AroundFirst(lines: seq<string>, p: string -> bool, reach: nat): Option<SliceResult> {
    var i := First(lines, p, 0);
    if i < |lines| then Some(Around(lines, i, reach)) else None
  }

  function FromFirst(lines: seq<string>, p: string -> bool, stop: string -> bool): Option<SliceResult> {
    var i := First(lines, p, 0);
    if i < |lines| then Some(UntilNext(lines, i, stop)) else None
  }

  function LinesBefore(pages: seq<string>, n: nat): nat
    requires n <= |pages|
  {
    if n == 0 then 0 else LinesBefore(pages, n - 1) + |SplitOn(pages[n - 1], '\n')|
  }

  function PageOf(pages: seq<string>, number: nat): Option<SliceResult> {
    var n := Max(1, number);
    if n - 1 < |pages| then
      var start := 1 + LinesBefore(pages, n - 1);
      Some(SliceResult(pages[n - 1], start, start + |SplitOn(pages[n - 1], '\n')| - 1, true))
    else None
  }

  function AtLine(lines: seq<string>, number: nat): SliceResult {
    var target := Max(1, number);
    var start, end := Max(1, target - 20), Min(|lines|, target + 20);
    SliceResult(Lines(lines, start - 1, end), start, end, target <= |lines|)
  }

  function HeaderSection(lines: seq<string>, tag: Label, marks: Marks): Option<SliceResult> {
    var h := First(lines, TitleLine(tag, marks), 0);
    if h < |lines| then Some(UntilNext(lines, h, UpTo(marks.level(lines[h]), marks))) else None
  }

  /** Last line of the block that line `i` opens. */
  function BlockEnd(lines: seq<string>, i: nat, marks: Marks): nat
    requires i < |lines|
  {
    First(lines, Outside(marks.indent(lines[i]), marks), i + 1) - 1
  }

  function CodeBlock(lines: seq<string>, p: string -> bool, marks: Marks): Option<SliceResult> {
    var i := First(lines, p, 0);
    if i < |lines| then Some(Excerpt(lines, i + 1, Min(|lines|, BlockEnd(lines, i, marks) + 3 + 1))) else None
  }

  /** The rows around row `number` of the first sheet that `head` matches, or that whole sheet
      when it has no such row. */
  function SheetRow(lines: seq<string>, head: string -> bool, number: nat, marks: Marks): Option<SliceResult> {
    var start := First(lines, head, 0);
    if start == |lines| then None
    else
      var end := First(lines, marks.sheet, start + 1) - 1;
      var target := start + 1 + Max(1, number) - 1;
      if target <= end
      then Some(Excerpt(lines, Max(start + 1, target + 1 - 10), Min(end + 1, target + 1 + 10)))
      else Some(Excerpt(lines, start + 1, end + 1))
  }

  function Fallback(text: string): SliceResult {
    var top := if |text| > 3000 then text[..3000] else text;
    SliceResult(top, 1, |SplitOn(top, '\n')|, false)
  }

  function Or(a: Option<SliceResult>, b: Option<SliceResult>): Option<SliceResult> {
    if a.Some? then a else b
  }

  function When<T>(cond: bool, p: Option<T>): Option<T> {
    if cond then p else None
  }

  function OptionalAround(lines: seq<string>, p: Option<string -> bool>, reach: nat): Option<SliceResult> {
    match p case None => None case Some(q) => AroundFirst(lines, q, reach)
  }

  function OptionalFrom(lines: seq<string>, p: Option<string -> bool>, stop: string -> bool): Option<SliceResult> {
    match p case None => None case Some(q) => FromFirst(lines, q, stop)
  }

  function CodePart(lines: seq<string>, tag: Label, marks: Marks): Option<SliceResult> {
    Or(match tag.block case None => None case Some(p) => CodeBlock(lines, p, marks),
       OptionalAround(lines, tag.ident, 15))
  }

  function SheetPart(lines: seq<string>, tag: Label, marks: Marks): Option<SliceResult> {
    Or(match tag.sheetRow case None => None case Some(r) => SheetRow(lines, r.0, r.1, marks),
       OptionalFrom(lines, tag.sheet, marks.sheet))
  }

  /** The page of a PDF that the label names. */
  function PdfPart(kind: Kind, tag: Label, pages: seq<string>): Option<SliceResult> {
    if kind.pdf && tag.page.Some? then PageOf(pages, tag.page.value) else None
  }

  /** What is tried last: the parts of an office document, and the label itself. */
  function OfficePart(lines: seq<string>, kind: Kind, tag: Label, marks: Marks): Option<SliceResult> {
    Or(When(kind.sheets, SheetPart(lines, tag, marks)),
    Or(When(kind.slides, OptionalFrom(lines, tag.slide, marks.slide)),
    Or(When(kind.docx, OptionalAround(lines, tag.passage, 15)),
       AroundFirst(lines, tag.literal, 15))))
  }

  /** What is tried once there is no line number. */
  function SearchPart(lines: seq<string>, kind: Kind, tag: Label, marks: Marks): Option<SliceResult> {
    Or(When(kind.markdown, HeaderSection(lines, tag, marks)),
    Or(When(kind.data, AroundFirst(lines, tag.key, 10)),
    Or(When(kind.code, CodePart(lines, tag, marks)),
       OfficePart(lines, kind, tag, marks))))
  }

  /** Everything else that is tried before the top of the file is returned, in order. */
  function LinePart(lines: seq<string>, kind: Kind, tag: Label, marks: Marks): Option<SliceResult> {
    if kind.numbered && tag.lineNumber.Some? then Some(AtLine(lines, tag.lineNumber.value))
    else SearchPart(lines, kind, tag, marks)
  }

  function SliceOf(text: string, kind: Kind, tag: Label, pages: seq<string>, marks: Marks): SliceResult {
    var lines := SplitOn(text, '\n');
    if tag.blank then SliceResult(text, 1, |lines|, false)
    else
      match Or(PdfPart(kind, tag, pages), LinePart(lines, kind, tag, marks))
      case Some(r) => r
      case None => Fallback(text)
  }

  // ----- The answer, said of the lines -----

  /** Line `i` is the first one that `p` holds of. */
  ghost predicate IsFirst(lines: seq<string>, p: string -> bool, i: int) {
    0 <= i < |lines| && p(lines[i]) && forall j | 0 <= j < i :: !p(lines[j])
  }

  ghost predicate Occurs(lines: seq<string>, p: string -> bool) {
    exists i | 0 <= i < |lines| :: p(lines[i])
  }

  ghost predicate OccursAny(lines: seq<string>, p: Option<string -> bool>) {
    p.Some? && Occurs(lines, p.value)
  }

  /** Of the lines behind line `i`, line `e` is the first one that `stop` holds of, or the end. */
  ghost predicate IsNext(lines: seq<string>, stop: string -> bool, i: int, e: int) {
    && 0 <= i < e <= |lines| && (forall j | i < j < e :: !stop(lines[j])) && (e < |lines| ==> stop(lines[e]))
  }

  /** A matched slice of the lines from `a` up to `b`. */
  ghost predicate Shows(r: SliceResult, lines: seq<string>, a: int, b: int) {
    0 <= a < b <= |lines| && r == SliceResult(Join(lines[a..b], "\n"), a + 1, b, true)
  }

  /** Line `i` with that many lines below it and one less above it, as far as the file has them. */
  ghost predicate ShowsAround(r: SliceResult, lines: seq<string>, i: int, reach: int) {
    Shows(r, lines, if i + 1 > reach then i + 1 - reach - 1 else 0, if i + 1 + reach < |lines| then i + 1 + reach else |lines|)
  }

  ghost predicate ShowsAroundFirst(r: SliceResult, lines: seq<string>, p: string -> bool, reach: int) {
    exists i :: IsFirst(lines, p, i) && ShowsAround(r, lines, i, reach)
  }

  /** The first line that `p` holds of, up to the next one that `stop` holds of. */
  ghost predicate ShowsFrom(r: SliceResult, lines: seq<string>, p: string -> bool, stop: string -> bool) {
    exists i, e :: IsFirst(lines, p, i) && IsNext(lines, stop, i, e) && Shows(r, lines, i, e)
  }

  ghost predicate ShowsPage(r: SliceResult, pages: seq<string>, n: int)
    requires 1 <= n <= |pages|
  {
    var start := 1 + LinesBefore(pages, n - 1);
    r == SliceResult(pages[n - 1], start, start + |SplitOn(pages[n - 1], '\n')| - 1, true)
  }

  /** Twenty lines on either side of line number `n`, which need not be there. */
  ghost predicate ShowsNumber(r: SliceResult, lines: seq<string>, n: int)
    requires n >= 1
  {
    && r.startLine == (if n > 20 then n - 20 else 1)
    && r.endLine == (if n + 20 < |lines| then n + 20 else |lines|)
    && r.text == (if r.startLine <= r.endLine then Join(lines[r.startLine - 1..r.endLine], "\n") else "")
    && (r.matched <==> n <= |lines|)
  }

  ghost predicate IsTitle(line: string, tag: Label, marks: Marks) {
    marks.level(line) > 0 && tag.title(line)
  }

  /** From the first heading with the title up to the next heading of its level or higher, or the end. */
  ghost predicate ShowsHeading(r: SliceResult, lines: seq<string>, tag: Label, marks: Marks) {
    exists h, e :: && IsFirstTitle(lines, tag, marks, h)
                   && IsHeadingEnd(lines, marks, h, e) && Shows(r, lines, h, e)
  }

  ghost predicate IsFirstTitle(lines: seq<string>, tag: Label, marks: Marks, h: int) {
    0 <= h < |lines| && IsTitle(lines[h], tag, marks) && forall j | 0 <= j < h :: !IsTitle(lines[j], tag, marks)
  }

  ghost predicate IsHeadingEnd(lines: seq<string>, marks: Marks, h: int, e: int) {
    && 0 <= h < e <= |lines|
    && (forall j | h < j < e :: marks.level(lines[j]) == 0 || marks.level(lines[j]) > marks.level(lines[h]))
    && (e < |lines| ==> 0 < marks.level(lines[e]) <= marks.level(lines[h]))
  }

  /** From the first line of the block to three lines below its last one, which is the last of the lines
      that are blank or indented deeper than the first. */
  ghost predicate ShowsBlock(r: SliceResult, lines: seq<string>, p: string -> bool, marks: Marks) {
    exists i, e :: && IsFirst(lines, p, i) && IsBlockEnd(lines, marks, i, e)
                   && Shows(r, lines, i, if e + 4 < |lines| then e + 4 else |lines|)
  }

  ghost predicate IsBlockEnd(lines: seq<string>, marks: Marks, i: int, e: int) {
    && 0 <= i <= e < |lines|
    && (forall j | i < j <= e :: marks.blank(lines[j]) || marks.indent(lines[j]) > marks.indent(lines[i]))
    && (e + 1 < |lines| ==> !marks.blank(lines[e + 1]) && marks.indent(lines[e + 1]) <= marks.indent(lines[i]))
  }

  /** Ten lines on either side of row `n` of the sheet, as far as the sheet goes, or the whole sheet if
      it has no such row. */
  ghost predicate ShowsRow(r: SliceResult, lines: seq<string>, head: string -> bool, n: int, marks: Marks) {
    exists s, e :: IsFirst(lines, head, s) && IsNext(lines, marks.sheet, s, e) && ShowsRowOf(r, lines, s, e, n)
  }

  ghost predicate ShowsRowOf(r: SliceResult, lines: seq<string>, s: int, e: int, n: int) {
    if s + n < e then Shows(r, lines, if n > 10 then s + n - 10 else s, if s + n + 11 < e then s + n + 11 else e)
    else Shows(r, lines, s, e)
  }

  function AtLeastOne(n: nat): int {
    if n == 0 then 1 else n
  }

  /** What is answered, each way to find the label only if none before it does: the page of a PDF, the
      line number, the heading, the key, the block of code, its name, the row of a sheet, the sheet, the
      slide, the passage, the label itself, and at last the top of the file. */
  ghost predicate Answers(r: SliceResult, text: string, kind: Kind, tag: Label, pages: seq<string>, marks: Marks) {
    var lines := SplitOn(text, '\n');
    if tag.blank then r == SliceResult(text, 1, |lines|, false)
    else if kind.pdf && tag.page.Some? && AtLeastOne(tag.page.value) <= |pages|
    then ShowsPage(r, pages, AtLeastOne(tag.page.value))
    else if kind.numbered && tag.lineNumber.Some? then ShowsNumber(r, lines, AtLeastOne(tag.lineNumber.value))
    else AnswersText(r, text, lines, kind, tag, marks)
  }

  ghost predicate AnswersText(
    r: SliceResult, text: string, lines: seq<string>, kind: Kind, tag: Label, marks: Marks)
  {
    if kind.markdown && exists i | 0 <= i < |lines| :: IsTitle(lines[i], tag, marks)
    then ShowsHeading(r, lines, tag, marks)
    else if kind.data && Occurs(lines, tag.key) then ShowsAroundFirst(r, lines, tag.key, 10)
    else if kind.code && OccursAny(lines, tag.block) then ShowsBlock(r, lines, tag.block.value, marks)
    else if kind.code && OccursAny(lines, tag.ident) then ShowsAroundFirst(r, lines, tag.ident.value, 15)
    else AnswersOffice(r, text, lines, kind, tag, marks)
  }

  ghost predicate AnswersOffice(
    r: SliceResult, text: string, lines: seq<string>, kind: Kind, tag: Label, marks: Marks)
  {
    if kind.sheets && tag.sheetRow.Some? && Occurs(lines, tag.sheetRow.value.0)
    then ShowsRow(r, lines, tag.sheetRow.value.0, AtLeastOne(tag.sheetRow.value.1), marks)
    else if kind.sheets && OccursAny(lines, tag.sheet) then ShowsFrom(r, lines, tag.sheet.value, marks.sheet)
    else if kind.slides && OccursAny(lines, tag.slide) then ShowsFrom(r, lines, tag.slide.value, marks.slide)
    else if kind.docx && OccursAny(lines, tag.passage) then ShowsAroundFirst(r, lines, tag.passage.value, 15)
    else if Occurs(lines, tag.literal) then ShowsAroundFirst(r, lines, tag.literal, 15)
    else ShowsTop(r, text)
  }

  /** The first 3000 characters. */
  ghost predicate ShowsTop(r: SliceResult, text: string) {
    && r.text == (if |text| <= 3000 then text else text[..3000])
    && r.startLine == 1 && r.endLine == |SplitOn(r.text, '\n')| && !r.matched
  }

  lemma FirstIs(lines: seq<string>, p: string -> bool)
    ensures First(lines, p, 0) < |lines| <==> Occurs(lines, p)
    ensures Occurs(lines, p) ==> IsFirst(lines, p, First(lines, p, 0))
  {
  }

  lemma AroundIs(lines: seq<string>, p: string -> bool, reach: nat)
    requires reach > 0
    ensures var o := AroundFirst(lines, p, reach);
            if Occurs(lines, p) then o.Some? && ShowsAroundFirst(o.value, lines, p, reach) else o.None?
  {
    FirstIs(lines, p);
    var i := First(lines, p, 0);
    if i < |lines| {
      assert ShowsAround(Around(lines, i, reach), lines, i, reach);
    }
  }

  lemma FromIs(lines: seq<string>, p: string -> bool, stop: string -> bool)
    ensures var o := FromFirst(lines, p, stop);
            if Occurs(lines, p) then o.Some? && ShowsFrom(o.value, lines, p, stop) else o.None?
  {
    FirstIs(lines, p);
    var i := First(lines, p, 0);
    if i < |lines| {
      var e := First(lines, stop, i + 1);
      assert IsNext(lines, stop, i, e) && Shows(UntilNext(lines, i, stop), lines, i, e);
    }
  }

  lemma HeadingIs(lines: seq<string>, tag: Label, marks: Marks)
    ensures var o := HeaderSection(lines, tag, marks);
            if exists i | 0 <= i < |lines| :: IsTitle(lines[i], tag, marks)
            then o.Some? && ShowsHeading(o.value, lines, tag, marks) else o.None?
  {
    var p := TitleLine(tag, marks);
    FirstIs(lines, p);
    assert forall i | 0 <= i < |lines| :: p(lines[i]) <==> IsTitle(lines[i], tag, marks);
    var h := First(lines, p, 0);
    if h < |lines| {
      HeaderSectionEnds(lines, tag, marks);
      var r := HeaderSection(lines, tag, marks).value;
      assert IsFirstTitle(lines, tag, marks, h) && IsHeadingEnd(lines, marks, h, r.endLine);
      assert Shows(r, lines, h, r.endLine);
    }
  }

  lemma BlockIs(lines: seq<string>, p: string -> bool, marks: Marks)
    ensures var o := CodeBlock(lines, p, marks);
            if Occurs(lines, p) then o.Some? && ShowsBlock(o.value, lines, p, marks) else o.None?
  {
    FirstIs(lines, p);
    var i := First(lines, p, 0);
    if i < |lines| {
      var e, stop := BlockEnd(lines, i, marks), Outside(marks.indent(lines[i]), marks);
      forall j | i < j <= e ensures marks.blank(lines[j]) || marks.indent(lines[j]) > marks.indent(lines[i]) {
        assert !stop(lines[j]);
      }
      assert e + 1 < |lines| ==> stop(lines[e + 1]);
      assert IsBlockEnd(lines, marks, i, e);
      assert Shows(CodeBlock(lines, p, marks).value, lines, i, if e + 4 < |lines| then e + 4 else |lines|);
    }
  }

  lemma RowWindow(lines: seq<string>, s: nat, e: nat, n: nat)
    requires s + n < e <= |lines| && n > 0
    ensures ShowsRowOf(Excerpt(lines, Max(s + 1, s + n + 1 - 10), Min(e, s + n + 1 + 10)), lines, s, e, n)
  {
  }

  lemma WholeSheet(lines: seq<string>, s: nat, e: nat, n: nat)
    requires s < e <= |lines| && s + n >= e
    ensures ShowsRowOf(Excerpt(lines, s + 1, e), lines, s, e, n)
  {
  }

  lemma RowInSheet(lines: seq<string>, head: string -> bool, number: nat, marks: Marks, s: nat, e: nat)
    requires s == First(lines, head, 0) < |lines| && e == First(lines, marks.sheet, s + 1)
    ensures var n := AtLeastOne(number);
            SheetRow(lines, head, number, marks) ==
            Some(if s + n < e then Excerpt(lines, Max(s + 1, s + n + 1 - 10), Min(e, s + n + 1 + 10))
                 else Excerpt(lines, s + 1, e))
  {
  }

  lemma RowIsOf(lines: seq<string>, head: string -> bool, number: nat, marks: Marks, s: nat, e: nat)
    requires s == First(lines, head, 0) < |lines| && e == First(lines, marks.sheet, s + 1)
    ensures var o := SheetRow(lines, head, number, marks);
            o.Some? && ShowsRowOf(o.value, lines, s, e, AtLeastOne(number))
  {
    var n := AtLeastOne(number);
    RowInSheet(lines, head, number, marks, s, e);
    if s + n < e {
      RowWindow(lines, s, e, n);
    } else {
      WholeSheet(lines, s, e, n);
    }
  }

  lemma RowIs(lines: seq<string>, head: string -> bool, number: nat, marks: Marks)
    ensures var o := SheetRow(lines, head, number, marks);
            if Occurs(lines, head)
            then o.Some? && ShowsRow(o.value, lines, head, AtLeastOne(number), marks) else o.None?
  {
    FirstIs(lines, head);
    var s := First(lines, head, 0);
    if s < |lines| {
      var e := First(lines, marks.sheet, s + 1);
      assert IsFirst(lines, head, s) && IsNext(lines, marks.sheet, s, e);
      RowIsOf(lines, head, number, marks, s, e);
    }
  }

  lemma CodeIs(lines: seq<string>, tag: Label, marks: Marks)
    ensures var o := CodePart(lines, tag, marks);
            if OccursAny(lines, tag.block) then o.Some? && ShowsBlock(o.value, lines, tag.block.value, marks)
            else if OccursAny(lines, tag.ident) then o.Some? && ShowsAroundFirst(o.value, lines, tag.ident.value, 15)
            else o.None?
  {
    if tag.block.Some? {
      BlockIs(lines, tag.block.value, marks);
    }
    if tag.ident.Some? {
      AroundIs(lines, tag.ident.value, 15);
    }
  }

  lemma SheetIs(lines: seq<string>, tag: Label, marks: Marks)
    ensures var o := SheetPart(lines, tag, marks);
            if tag.sheetRow.Some? && Occurs(lines, tag.sheetRow.value.0)
            then o.Some? && ShowsRow(o.value, lines, tag.sheetRow.value.0, AtLeastOne(tag.sheetRow.value.1), marks)
            else if OccursAny(lines, tag.sheet) then o.Some? && ShowsFrom(o.value, lines, tag.sheet.value, marks.sheet)
            else o.None?
  {
    if tag.sheetRow.Some? {
      RowIs(lines, tag.sheetRow.value.0, tag.sheetRow.value.1, marks);
    }
    if tag.sheet.Some? {
      FromIs(lines, tag.sheet.value, marks.sheet);
    }
  }

  lemma OptionalIs(lines: seq<string>, p: Option<string -> bool>, stop: string -> bool, reach: nat)
    requires reach > 0
    ensures var o := OptionalAround(lines, p, reach);
            if OccursAny(lines, p) then o.Some? && ShowsAroundFirst(o.value, lines, p.value, reach) else o.None?
    ensures var o := OptionalFrom(lines, p, stop);
            if OccursAny(lines, p) then o.Some? && ShowsFrom(o.value, lines, p.value, stop) else o.None?
  {
    if p.Some? {
      AroundIs(lines, p.value, reach);
      FromIs(lines, p.value, stop);
    }
  }

  lemma OfficeIsAnswer(text: string, lines: seq<string>, kind: Kind, tag: Label, marks: Marks)
    ensures var o := OfficePart(lines, kind, tag, marks);
            AnswersOffice(if o.Some? then o.value else Fallback(text), text, lines, kind, tag, marks)
  {
    SheetIs(lines, tag, marks);
    OptionalIs(lines, tag.slide, marks.slide, 15);
    OptionalIs(lines, tag.passage, marks.slide, 15);
    AroundIs(lines, tag.literal, 15);
  }

  lemma TextIsAnswer(text: string, lines: seq<string>, kind: Kind, tag: Label, marks: Marks)
    ensures var o := SearchPart(lines, kind, tag, marks);
            AnswersText(if o.Some? then o.value else Fallback(text), text, lines, kind, tag, marks)
  {
    HeadingIs(lines, tag, marks);
    AroundIs(lines, tag.key, 10);
    CodeIs(lines, tag, marks);
    OfficeIsAnswer(text, lines, kind, tag, marks);
  }

  /** The label names a page of the PDF, or a line. */
  predicate IsNumber(kind: Kind, tag: Label, pages: seq<string>) {
    || (kind.pdf && tag.page.Some? && AtLeastOne(tag.page.value) <= |pages|)
    || (kind.numbered && tag.lineNumber.Some?)
  }

  lemma SliceIsSearch(text: string, kind: Kind, tag: Label, pages: seq<string>, marks: Marks)
    requires !tag.blank && !IsNumber(kind, tag, pages)
    ensures var o := SearchPart(SplitOn(text, '\n'), kind, tag, marks);
            SliceOf(text, kind, tag, pages, marks) == if o.Some? then o.value else Fallback(text)
  {
  }

  lemma NumberIsAnswer(text: string, kind: Kind, tag: Label, pages: seq<string>, marks: Marks)
    requires tag.blank || IsNumber(kind, tag, pages)
    ensures Answers(SliceOf(text, kind, tag, pages, marks), text, kind, tag, pages, marks)
  {
  }

  lemma SliceIsAnswer(text: string, kind: Kind, tag: Label, pages: seq<string>, marks: Marks)
    ensures Answers(SliceOf(text, kind, tag, pages, marks), text, kind, tag, pages, marks)
  {
    if tag.blank || IsNumber(kind, tag, pages) {
      NumberIsAnswer(text, kind, tag, pages, marks);
    } else {
      SliceIsSearch(text, kind, tag, pages, marks);
      TextIsAnswer(text, SplitOn(text, '\n'), kind, tag, marks);
    }
  }

  // ----- The slicer -----

  method FindFirst(lines: seq<string>, p: string -> bool, from: nat) returns (i: nat)
    requires from <= |lines|
    ensures i == First(lines, p, from)
  {
    i := from;
    while i < |lines|
      invariant from <= i <= |lines| && First(lines, p, from) == First(lines, p, i)
    {
      if p(lines[i]) {
        break;
      }
      i := i + 1;
    }
  }

  /** The walk down the lines of a code block. */
  method FindBlockEnd(lines: seq<string>, i: nat, marks: Marks) returns (endIdx: nat)
    requires i < |lines|
    ensures endIdx == BlockEnd(lines, i, marks)
  {
    var indent := marks.indent(lines[i]);
    ghost var stop := Outside(indent, marks);
    endIdx := i;
    var j := i + 1;
    while j < |lines|
      invariant i < j <= |lines| && endIdx == j - 1
      invariant First(lines, stop, i + 1) == First(lines, stop, j)
    {
      if marks.blank(lines[j]) || marks.indent(lines[j]) > indent {
        endIdx := j;
      } else {
        break;
      }
      j := j + 1;
    }
  }

  method FindPage(pages: seq<string>, number: nat) returns (r: Option<SliceResult>)
    ensures r == PageOf(pages, number)
  {
    var n := Max(1, number);
    if n - 1 < |pages| {
      var startLine := 1;
      for i := 0 to n - 1
        invariant startLine == 1 + LinesBefore(pages, i)
      {
        startLine := startLine + |SplitOn(pages[i], '\n')|;
      }
      return Some(SliceResult(pages[n - 1], startLine, startLine + |SplitOn(pages[n - 1], '\n')| - 1, true));
    }
    return None;
  }

  method FindHeaderSection(lines: seq<string>, tag: Label, marks: Marks) returns (r: Option<SliceResult>)
    ensures r == HeaderSection(lines, tag, marks)
  {
    var headerIdx := FindFirst(lines, TitleLine(tag, marks), 0);
    if headerIdx < |lines| {
      var next := FindFirst(lines, UpTo(marks.level(lines[headerIdx]), marks), headerIdx + 1);
      return Some(Excerpt(lines, headerIdx + 1, next));
    }
    return None;
  }

  method FindCode(lines: seq<string>, tag: Label, marks: Marks) returns (r: Option<SliceResult>)
    ensures r == CodePart(lines, tag, marks)
  {
    if tag.block.Some? {
      var i := FindFirst(lines, tag.block.value, 0);
      if i < |lines| {
        var endIdx := FindBlockEnd(lines, i, marks);
        return Some(Excerpt(lines, i + 1, Min(|lines|, endIdx + 3 + 1)));
      }
    }
    r := FindAround(lines, tag.ident, 15);
  }

  method FindAround(lines: seq<string>, p: Option<string -> bool>, reach: nat) returns (r: Option<SliceResult>)
    ensures r == OptionalAround(lines, p, reach)
  {
    if p.Some? {
      var i := FindFirst(lines, p.value, 0);
      if i < |lines| {
        return Some(Around(lines, i, reach));
      }
    }
    return None;
  }

  method FindFrom(lines: seq<string>, p: Option<string -> bool>, stop: string -> bool) returns (r: Option<SliceResult>)
    ensures r == OptionalFrom(lines, p, stop)
  {
    if p.Some? {
      var i := FindFirst(lines, p.value, 0);
      if i < |lines| {
        var next := FindFirst(lines, stop, i + 1);
        return Some(Excerpt(lines, i + 1, next));
      }
    }
    return None;
  }

  method FindSheet(lines: seq<string>, tag: Label, marks: Marks) returns (r: Option<SliceResult>)
    ensures r == SheetPart(lines, tag, marks)
  {
    if tag.sheetRow.Some? {
      var (head, number) := tag.sheetRow.value;
      var blockStart := FindFirst(lines, head, 0);
      if blockStart < |lines| {
        var next := FindFirst(lines, marks.sheet, blockStart + 1);
        var blockEnd := next - 1;
        var dataStart := blockStart + 1;
        var targetLine := dataStart + Max(1, number) - 1;
        if targetLine <= blockEnd {
          return Some(Excerpt(lines, Max(blockStart + 1, targetLine + 1 - 10), Min(blockEnd + 1, targetLine + 1 + 10)));
        }
        return Some(Excerpt(lines, blockStart + 1, blockEnd + 1));
      }
    }
    r := FindFrom(lines, tag.sheet, marks.sheet);
  }

  method SliceBySection(text: string, kind: Kind, tag: Label, pages: seq<string>, marks: Marks)
    returns (r: SliceResult)
    ensures r == SliceOf(text, kind, tag, pages, marks)
    ensures Answers(r, text, kind, tag, pages, marks)
  {
    SliceIsAnswer(text, kind, tag, pages, marks);
    var lines := SplitOn(text, '\n');
    if tag.blank {
      return SliceResult(text, 1, |lines|, false);
    }
    if kind.pdf && tag.page.Some? {
      var page := FindPage(pages, tag.page.value);
      if page.Some? {
        return page.value;
      }
    }
    var part := FindInLines(lines, kind, tag, marks);
    if part.Some? {
      return part.value;
    }
    return Fallback(text);
  }

  method FindInLines(lines: seq<string>, kind: Kind, tag: Label, marks: Marks) returns (part: Option<SliceResult>)
    ensures part == LinePart(lines, kind, tag, marks)
  {
    if kind.numbered && tag.lineNumber.Some? {
      return Some(AtLine(lines, tag.lineNumber.value));
    }
    if kind.markdown {
      part := FindHeaderSection(lines, tag, marks);
      if part.Some? { return; }
    }
    if kind.data {
      part := FindAround(lines, Some(tag.key), 10);
      if part.Some? { return; }
    }
    if kind.code {
      part := FindCode(lines, tag, marks);
      if part.Some? { return; }
    }
    if kind.sheets {
      part := FindSheet(lines, tag, marks);
      if part.Some? { return; }
    }
    if kind.slides {
      part := FindFrom(lines, tag.slide, marks.slide);
      if part.Some? { return; }
    }
    if kind.docx {
      part := FindAround(lines, tag.passage, 15);
      if part.Some? { return; }
    }
    part := FindAround(lines, Some(tag.literal), 15);
  }

  // ----- What the slices are -----

  /** The coordinates lie in the file and the text is what they say. */
  ghost predicate InPlace(r: SliceResult, lines: seq<string>) {
    && 1 <= r.startLine <= r.endLine <= |lines|
    && r.text == Join(lines[r.startLine - 1..r.endLine], "\n")
  }

  ghost predicate ShowsSome(r: SliceResult, lines: seq<string>) {
    exists a, b :: Shows(r, lines, a, b)
  }

  lemma RowShowsSome(r: SliceResult, lines: seq<string>, head: string -> bool, n: int, marks: Marks)
    requires ShowsRow(r, lines, head, n, marks)
    ensures ShowsSome(r, lines)
  {
    var s, e :| IsFirst(lines, head, s) && IsNext(lines, marks.sheet, s, e) && ShowsRowOf(r, lines, s, e, n);
  }

  lemma AroundShowsSome(r: SliceResult, lines: seq<string>, p: string -> bool, reach: int)
    requires ShowsAroundFirst(r, lines, p, reach)
    ensures ShowsSome(r, lines)
  {
    var i :| IsFirst(lines, p, i) && ShowsAround(r, lines, i, reach);
  }

  lemma OfficeInPlace(r: SliceResult, text: string, lines: seq<string>, kind: Kind, tag: Label, marks: Marks)
    requires AnswersOffice(r, text, lines, kind, tag, marks)
    ensures ShowsSome(r, lines) || ShowsTop(r, text)
  {
    if kind.sheets && tag.sheetRow.Some? && Occurs(lines, tag.sheetRow.value.0) {
      RowShowsSome(r, lines, tag.sheetRow.value.0, AtLeastOne(tag.sheetRow.value.1), marks);
    } else if kind.sheets && OccursAny(lines, tag.sheet) {
    } else if kind.slides && OccursAny(lines, tag.slide) {
    } else if kind.docx && OccursAny(lines, tag.passage) {
      AroundShowsSome(r, lines, tag.passage.value, 15);
    } else if Occurs(lines, tag.literal) {
      AroundShowsSome(r, lines, tag.literal, 15);
    }
  }

  lemma TextInPlace(r: SliceResult, text: string, lines: seq<string>, kind: Kind, tag: Label, marks: Marks)
    requires AnswersText(r, text, lines, kind, tag, marks)
    ensures ShowsSome(r, lines) || ShowsTop(r, text)
  {
    if kind.markdown && exists i | 0 <= i < |lines| :: IsTitle(lines[i], tag, marks) {
    } else if kind.data && Occurs(lines, tag.key) {
      AroundShowsSome(r, lines, tag.key, 10);
    } else if kind.code && OccursAny(lines, tag.block) {
    } else if kind.code && OccursAny(lines, tag.ident) {
      AroundShowsSome(r, lines, tag.ident.value, 15);
    } else {
      OfficeInPlace(r, text, lines, kind, tag, marks);
    }
  }

  /** Every matched slice that is not a PDF page is in place. A slice that is not matched is
      the whole file, the empty or partial excerpt around a line past the end, or the top of
      the file. */
  lemma {:induction false} MatchedSlices(text: string, kind: Kind, tag: Label, pages: seq<string>, marks: Marks)
    ensures var r := SliceOf(text, kind, tag, pages, marks);
            var lines := SplitOn(text, '\n');
            && (r.matched ==>
                  || InPlace(r, lines)
                  || (kind.pdf && tag.page.Some? && tag.page.value <= |pages| && r.text in pages))
            && (!r.matched ==>
                  || (tag.blank && r == SliceResult(text, 1, |lines|, false))
                  || (kind.numbered && tag.lineNumber.Some? && tag.lineNumber.value > |lines|)
                  || ShowsTop(r, text))
  {
    SliceIsAnswer(text, kind, tag, pages, marks);
    var r := SliceOf(text, kind, tag, pages, marks);
    if !tag.blank && !IsNumber(kind, tag, pages) {
      TextInPlace(r, text, SplitOn(text, '\n'), kind, tag, marks);
    }
  }

  /** Pages are numbered through: the lines before page `n + 1` are those of the first `n` pages put
      below each other. */
  lemma {:induction false} LinesBeforeAre(pages: seq<string>, n: nat)
    requires 0 < n <= |pages|
    ensures LinesBefore(pages, n) == |SplitOn(Join(pages[..n], "\n"), '\n')|
  {
    if n == 1 {
      assert pages[..1] == [pages[0]];
      assert LinesBefore(pages, 0) == 0;
    } else {
      LinesBeforeAre(pages, n - 1);
      JoinOneMore(pages[..n - 1], pages[n - 1]);
      assert pages[..n] == pages[..n - 1] + [pages[n - 1]];
      SplitConcat(Join(pages[..n - 1], "\n"), pages[n - 1], '\n');
    }
  }

  lemma {:induction false} JoinOneMore(parts: seq<string>, part: string)
    requires parts != []
    ensures Join(parts + [part], "\n") == Join(parts, "\n") + "\n" + part
  {
    if |parts| == 1 {
      assert (parts + [part])[1..] == [part];
    } else {
      JoinOneMore(parts[1..], part);
      assert (parts + [part])[1..] == parts[1..] + [part];
      JoinGroups(parts[0], Join(parts[1..], "\n"), part);
    }
  }

  lemma JoinGroups(a: string, b: string, part: string)
    ensures a + "\n" + (b + "\n" + part) == a + "\n" + b + "\n" + part
  {
  }

  lemma {:induction false} PrefixHasFewerLines(text: string, n: nat)
    requires n <= |text|
    ensures |SplitOn(text[..n], '\n')| <= |SplitOn(text, '\n')|
  {
    if n > 0 {
      PrefixHasFewerLines(text[1..], n - 1);
      assert text[..n][1..] == text[1..][..n - 1];
    }
  }

  /** The fallback is the start of the text, and its last line number lies in the file. */
  lemma FallbackIsTop(text: string)
    ensures var r := Fallback(text);
            r.text <= text && 1 == r.startLine <= r.endLine <= |SplitOn(text, '\n')|
  {
    if |text| > 3000 {
      PrefixHasFewerLines(text, 3000);
    }
  }

  /** Two Markdown sections of one file never overlap in part: they are disjoint, or the later
      one lies inside the earlier one. */
  lemma HeaderSectionsNest(lines: seq<string>, a: Label, b: Label, marks: Marks)
    requires HeaderSection(lines, a, marks).Some? && HeaderSection(lines, b, marks).Some?
    ensures var r, s := HeaderSection(lines, a, marks).value, HeaderSection(lines, b, marks).value;
            || r.endLine < s.startLine || s.endLine < r.startLine
            || (r.startLine <= s.startLine && s.endLine <= r.endLine)
            || (s.startLine <= r.startLine && r.endLine <= s.endLine)
  {
    var i, j := First(lines, TitleLine(a, marks), 0), First(lines, TitleLine(b, marks), 0);
    if i <= j {
      LaterSectionNests(lines, i, j, marks);
    } else {
      LaterSectionNests(lines, j, i, marks);
    }
  }

  lemma LaterSectionNests(lines: seq<string>, i: nat, j: nat, marks: Marks)
    requires i <= j < |lines| && marks.level(lines[i]) > 0 && marks.level(lines[j]) > 0
    ensures var e, f := First(lines, UpTo(marks.level(lines[i]), marks), i + 1), First(lines, UpTo(marks.level(lines[j]), marks), j + 1);
            e <= j || f <= e
  {
    var e, f := First(lines, UpTo(marks.level(lines[i]), marks), i + 1), First(lines, UpTo(marks.level(lines[j]), marks), j + 1);
    assert i < j < e ==> marks.level(lines[j]) > marks.level(lines[i]) by {
      assert i < j < e ==> !UpTo(marks.level(lines[i]), marks)(lines[j]);
    }
    assert e < |lines| ==> UpTo(marks.level(lines[i]), marks)(lines[e]);
  }

  /** A section runs from its heading to the line before the next heading of its level or
      higher up, or to the end of the file. */
  lemma HeaderSectionEnds(lines: seq<string>, tag: Label, marks: Marks)
    requires HeaderSection(lines, tag, marks).Some?
    ensures var r := HeaderSection(lines, tag, marks).value;
            var h := r.startLine - 1;
            && InPlace(r, lines)
            && marks.level(lines[h]) > 0 && tag.title(lines[h])
            && (forall j | 0 <= j < h :: marks.level(lines[j]) == 0 || !tag.title(lines[j]))
            && (forall j | h < j < r.endLine :: marks.level(lines[j]) == 0 || marks.level(lines[j]) > marks.level(lines[h]))
            && (r.endLine < |lines| ==> 0 < marks.level(lines[r.endLine]) <= marks.level(lines[h]))
  {
    var h := First(lines, TitleLine(tag, marks), 0);
    var e := First(lines, UpTo(marks.level(lines[h]), marks), h + 1);
    forall j | 0 <= j < h ensures marks.level(lines[j]) == 0 || !tag.title(lines[j]) {
      assert !TitleLine(tag, marks)(lines[j]);
    }
    forall j | h < j < e ensures marks.level(lines[j]) == 0 || marks.level(lines[j]) > marks.level(lines[h]) {
      assert !UpTo(marks.level(lines[h]), marks)(lines[j]);
    }
  }

  /** All lines below line `i` down to line `e` are blank or indented deeper than line `i`. */
  ghost predicate Run(lines: seq<string>, i: nat, e: int, marks: Marks)
    requires i < |lines|
  {
    && i <= e < |lines|
    && forall j | i < j <= e :: marks.blank(lines[j]) || marks.indent(lines[j]) > marks.indent(lines[i])
  }

  /** A code block is the longest run of lines below its first line that are blank or indented
      deeper. */
  lemma BlockIsMaximal(lines: seq<string>, i: nat, e: int, marks: Marks)
    requires i < |lines|
    ensures Run(lines, i, e, marks) <==> i <= e <= BlockEnd(lines, i, marks)
  {
    var end, stop := BlockEnd(lines, i, marks), Outside(marks.indent(lines[i]), marks);
    assert forall j | i < j <= end :: !stop(lines[j]);
    assert end + 1 < |lines| ==> stop(lines[end + 1]);
  }

  /** The slice for a row stays within the block of its sheet; when the sheet has that row it
      holds the row, and otherwise it is the whole block. */
  lemma SheetRowStaysInSheet(lines: seq<string>, head: string -> bool, number: nat, marks: Marks)
    requires SheetRow(lines, head, number, marks).Some?
    ensures var r := SheetRow(lines, head, number, marks).value;
            var first := First(lines, head, 0) + 1;
            var last := First(lines, marks.sheet, first);
            var row := first + Max(1, number);
            && InPlace(r, lines)
            && first <= r.startLine && r.endLine <= last
            && (if row <= last then r.startLine <= row <= r.endLine else r.startLine == first && r.endLine == last)
  {
  }

  /** The first matching line is always part of the excerpt around it. */
  lemma AroundHoldsTheLine(lines: seq<string>, p: string -> bool, reach: nat)
    requires reach > 0 && AroundFirst(lines, p, reach).Some?
    ensures var r := AroundFirst(lines, p, reach).value;
            exists i | r.startLine <= i + 1 <= r.endLine ::
              0 <= i < |lines| && p(lines[i]) && forall j | 0 <= j < i :: !p(lines[j])
  {
    var i := First(lines, p, 0);
    assert p(lines[i]);
  }
}
