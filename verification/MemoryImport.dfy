/** The import of an assistant's exported memories: the line parser, and the loop that
    feeds its entries to the editor one at a time. */
module MemoryImport {
  import opened MemoryDoc
  import opened MemoryLaws

  // ----- Feeding entries to the editor -----

  datatype Fact = Fact(section: string, content: string)

  type Edit = (string, Fact) -> string

  /** One append, as a function of the document and the fact. */
  function Editor(c: Casing): Edit {
    (doc, fact: Fact) => Appended(doc, fact.section, fact.content, c)
  }

  /** The saved document and the counts reported to the user. */
  datatype Report = Report(doc: string, added: nat, skipped: nat, truncated: nat)

  function Plus(r: Report, added: nat, skipped: nat): Report {
    r.(added := r.added + added, skipped := r.skipped + skipped)
  }

  /** Append the facts in order; stop at the first one that changes the document but makes
      it larger than `cap`. */
  function Imported(doc: string, facts: seq<Fact>, cap: nat, size: string -> nat, edit: Edit): Report
    decreases |facts|
  {
    if facts == [] then Report(doc, 0, 0, 0)
    else
      var next := edit(doc, facts[0]);
      if next == doc then Plus(Imported(doc, facts[1..], cap, size, edit), 0, 1)
      else if size(next) > cap then Report(doc, 0, 0, |facts|)
      else Plus(Imported(next, facts[1..], cap, size, edit), 1, 0)
  }

  lemma ImportedFrom(doc: string, facts: seq<Fact>, i: nat, cap: nat, size: string -> nat, edit: Edit)
    requires i < |facts|
    ensures var next, rest := edit(doc, facts[i]), facts[i + 1..];
            Imported(doc, facts[i..], cap, size, edit) ==
            if next == doc then Plus(Imported(doc, rest, cap, size, edit), 0, 1)
            else if size(next) > cap then Report(doc, 0, 0, |facts| - i)
            else Plus(Imported(next, rest, cap, size, edit), 1, 0)
  {
    assert facts[i..][1..] == facts[i + 1..];
  }

  /** `all` is what is reported in the end if the rest is reported for `merged`. */
  ghost predicate OnTrack(
    all: Report, merged: string, facts: seq<Fact>, i: nat, added: nat, skipped: nat,
    cap: nat, size: string -> nat, edit: Edit)
    requires i <= |facts|
  {
    all == Plus(Imported(merged, facts[i..], cap, size, edit), added, skipped)
  }

  lemma StaysOnTrack(
    all: Report, merged: string, facts: seq<Fact>, i: nat, added: nat, skipped: nat,
    cap: nat, size: string -> nat, edit: Edit)
    requires i < |facts| && OnTrack(all, merged, facts, i, added, skipped, cap, size, edit)
    ensures var next := edit(merged, facts[i]);
            if next == merged then OnTrack(all, merged, facts, i + 1, added, skipped + 1, cap, size, edit)
            else if size(next) > cap then all == Report(merged, added, skipped, |facts| - i)
            else OnTrack(all, next, facts, i + 1, added + 1, skipped, cap, size, edit)
  {
    ImportedFrom(merged, facts, i, cap, size, edit);
  }

  lemma TrackStarts(doc: string, facts: seq<Fact>, cap: nat, size: string -> nat, edit: Edit)
    ensures OnTrack(Imported(doc, facts, cap, size, edit), doc, facts, 0, 0, 0, cap, size, edit)
  {
    assert facts[0..] == facts;
  }

  lemma TrackEnds(
    all: Report, merged: string, facts: seq<Fact>, added: nat, skipped: nat,
    cap: nat, size: string -> nat, edit: Edit)
    requires OnTrack(all, merged, facts, |facts|, added, skipped, cap, size, edit)
    ensures all == Report(merged, added, skipped, 0)
  {
  }

  method ImportWith(previous: string, facts: seq<Fact>, cap: nat, size: string -> nat, edit: Edit)
    returns (report: Report)
    ensures report == Imported(previous, facts, cap, size, edit)
  {
    var merged, added, skipped := previous, 0, 0;
    ghost var all := Imported(previous, facts, cap, size, edit);
    TrackStarts(previous, facts, cap, size, edit);
    var i := 0;
    while i < |facts|
      invariant i <= |facts| && added + skipped == i
      invariant OnTrack(all, merged, facts, i, added, skipped, cap, size, edit)
    {
      var next := edit(merged, facts[i]);
      StaysOnTrack(all, merged, facts, i, added, skipped, cap, size, edit);
      if next == merged {
        skipped := skipped + 1;
      } else if size(next) > cap {
        return Report(merged, added, skipped, |facts| - (added + skipped));
      } else {
        merged := next;
        added := added + 1;
      }
      i := i + 1;
    }
    TrackEnds(all, merged, facts, added, skipped, cap, size, edit);
    return Report(merged, added, skipped, 0);
  }

  /** The import loop, with the editor that `AppendToSection` computes. */
  method Import(previous: string, facts: seq<Fact>, cap: nat, size: string -> nat, c: Casing)
    returns (report: Report)
    ensures report == Imported(previous, facts, cap, size, Editor(c))
  {
    report := ImportWith(previous, facts, cap, size, Editor(c));
  }

  /** What an import relies on: a fact just appended is settled, and a settled fact stays
      settled whatever else is appended. */
  ghost predicate Settling(edit: Edit, facts: seq<Fact>) {
    && (forall f, doc | f in facts :: edit(edit(doc, f), f) == edit(doc, f))
    && (forall f, g, doc | f in facts && g in facts && edit(doc, f) == doc :: edit(edit(doc, g), f) == edit(doc, g))
  }

  lemma {:induction false} SettledByImport(
    doc: string, facts: seq<Fact>, all: seq<Fact>, f: Fact, cap: nat, size: string -> nat, edit: Edit)
    requires Settling(edit, all) && f in all && (forall g | g in facts :: g in all)
    requires edit(doc, f) == doc
    ensures var r := Imported(doc, facts, cap, size, edit); edit(r.doc, f) == r.doc
    decreases |facts|
  {
    if facts != [] {
      var next := edit(doc, facts[0]);
      assert facts[0] in all && edit(next, f) == next;
      if next == doc || size(next) <= cap {
        SettledByImport(next, facts[1..], all, f, cap, size, edit);
      }
    }
  }

  /** How an import ends: every fact counted as added or skipped is settled, all later ones
      are counted as truncated, and the first of those is still too big to add. */
  ghost predicate Outcome(r: Report, facts: seq<Fact>, cap: nat, size: string -> nat, edit: Edit) {
    var n := r.added + r.skipped;
    && n + r.truncated == |facts|
    && (forall i | 0 <= i < n :: edit(r.doc, facts[i]) == r.doc)
    && (n < |facts| ==> edit(r.doc, facts[n]) != r.doc && size(edit(r.doc, facts[n])) > cap)
  }

  lemma {:induction false} ImportOutcome(
    doc: string, facts: seq<Fact>, all: seq<Fact>, cap: nat, size: string -> nat, edit: Edit)
    requires Settling(edit, all) && (forall g | g in facts :: g in all)
    ensures Outcome(Imported(doc, facts, cap, size, edit), facts, cap, size, edit)
    decreases |facts|
  {
    if facts != [] {
      var next := edit(doc, facts[0]);
      if next == doc || size(next) <= cap {
        ImportOutcome(next, facts[1..], all, cap, size, edit);
        assert facts[0] in all && edit(next, facts[0]) == next;
        SettledByImport(next, facts[1..], all, facts[0], cap, size, edit);
        var r := Imported(next, facts[1..], cap, size, edit);
        forall i | 0 <= i < r.added + r.skipped + 1 ensures edit(r.doc, facts[i]) == r.doc {
          assert i > 0 ==> facts[i] == facts[1..][i - 1];
        }
      }
    }
  }

  /** The document after the first `n` appends. */
  function Applied(doc: string, facts: seq<Fact>, n: nat, edit: Edit): string
    requires n <= |facts|
  {
    if n == 0 then doc else edit(Applied(doc, facts, n - 1, edit), facts[n - 1])
  }

  /** How many of the first `n` appends change nothing. */
  function Idle(doc: string, facts: seq<Fact>, n: nat, edit: Edit): nat
    requires n <= |facts|
  {
    if n == 0 then 0
    else Idle(doc, facts, n - 1, edit)
         + if Applied(doc, facts, n, edit) == Applied(doc, facts, n - 1, edit) then 1 else 0
  }

  lemma {:induction false} AppliedAfter(doc: string, facts: seq<Fact>, n: nat, edit: Edit)
    requires n < |facts|
    ensures var next := edit(doc, facts[0]);
            && Applied(doc, facts, n + 1, edit) == Applied(next, facts[1..], n, edit)
            && Idle(doc, facts, n + 1, edit) == Idle(next, facts[1..], n, edit) + if next == doc then 1 else 0
  {
    if n == 0 {
      assert Applied(doc, facts, 0, edit) == doc;
    } else {
      AppliedAfter(doc, facts, n - 1, edit);
    }
  }

  /** The appends go on to the `n`-th one, which is the first that changes the document and makes it too
      large, or to the end. */
  ghost predicate GoesTo(doc: string, facts: seq<Fact>, n: nat, cap: nat, size: string -> nat, edit: Edit) {
    && n <= |facts|
    && (forall k | 0 <= k < n :: Fits(doc, facts, k, cap, size, edit))
    && (n < |facts| ==> !Fits(doc, facts, n, cap, size, edit))
  }

  ghost predicate Fits(doc: string, facts: seq<Fact>, k: nat, cap: nat, size: string -> nat, edit: Edit)
    requires k < |facts|
  {
    var before, after := Applied(doc, facts, k, edit), Applied(doc, facts, k + 1, edit);
    after == before || size(after) <= cap
  }

  lemma GoesOn(doc: string, facts: seq<Fact>, n: nat, cap: nat, size: string -> nat, edit: Edit)
    requires facts != [] && GoesTo(edit(doc, facts[0]), facts[1..], n, cap, size, edit)
    requires edit(doc, facts[0]) == doc || size(edit(doc, facts[0])) <= cap
    ensures GoesTo(doc, facts, n + 1, cap, size, edit)
  {
    var next, rest := edit(doc, facts[0]), facts[1..];
    forall k | 0 <= k < |facts|
      ensures Fits(doc, facts, k, cap, size, edit)
         <==> if k == 0 then true else Fits(next, rest, k - 1, cap, size, edit)
    {
      AppliedAfter(doc, facts, k, edit);
      if k > 0 {
        AppliedAfter(doc, facts, k - 1, edit);
      }
    }
  }

  /** What an import is: the appends one after the other, up to the first that changes the document and
      makes it larger than the cap. The counts are those of the appends that changed it, of those that did
      not, and of the rest. */
  lemma {:induction false} ImportIsFold(
    doc: string, facts: seq<Fact>, cap: nat, size: string -> nat, edit: Edit)
    ensures var r := Imported(doc, facts, cap, size, edit);
            var n := r.added + r.skipped;
            && GoesTo(doc, facts, n, cap, size, edit)
            && r.doc == Applied(doc, facts, n, edit)
            && r.skipped == Idle(doc, facts, n, edit) && r.truncated == |facts| - n
    decreases |facts|
  {
    if facts != [] {
      var next := edit(doc, facts[0]);
      if next == doc || size(next) <= cap {
        ImportIsFold(next, facts[1..], cap, size, edit);
        var r := Imported(next, facts[1..], cap, size, edit);
        GoesOn(doc, facts, r.added + r.skipped, cap, size, edit);
        AppliedAfter(doc, facts, r.added + r.skipped, edit);
      } else {
        AppliedAfter(doc, facts, 0, edit);
      }
    }
  }

  lemma {:induction false} ImportOfSettled(
    doc: string, facts: seq<Fact>, n: nat, cap: nat, size: string -> nat, edit: Edit)
    requires n <= |facts|
    requires forall i | 0 <= i < n :: edit(doc, facts[i]) == doc
    requires n < |facts| ==> edit(doc, facts[n]) != doc && size(edit(doc, facts[n])) > cap
    ensures Imported(doc, facts, cap, size, edit) == Report(doc, 0, n, |facts| - n)
    decreases n
  {
    if n > 0 {
      ImportOfSettled(doc, facts[1..], n - 1, cap, size, edit);
    }
  }

  lemma EditorSettles(facts: seq<Fact>, c: Casing)
    requires forall f | f in facts :: '\n' !in f.section
    ensures Settling(Editor(c), facts)
  {
    var edit := Editor(c);
    forall f, doc | f in facts ensures edit(edit(doc, f), f) == edit(doc, f) {
      SaysAfterAppend(doc, f.section, f.content, c);
      SaysIsUnchanged(edit(doc, f), f.section, f.content, c);
    }
    forall f, g, doc | f in facts && g in facts && edit(doc, f) == doc
      ensures edit(edit(doc, g), f) == edit(doc, g)
    {
      SaysIsUnchanged(doc, f.section, f.content, c);
      SaysIsKept(doc, g.section, g.content, f.section, f.content, c);
      SaysIsUnchanged(edit(doc, g), f.section, f.content, c);
    }
  }

  lemma ImportAgain(doc: string, facts: seq<Fact>, cap: nat, size: string -> nat, edit: Edit)
    requires Settling(edit, facts)
    ensures var r := Imported(doc, facts, cap, size, edit);
            && Imported(r.doc, facts, cap, size, edit) == Report(r.doc, 0, r.added + r.skipped, r.truncated)
            && Outcome(r, facts, cap, size, edit)
  {
    ImportOutcome(doc, facts, facts, cap, size, edit);
    var r := Imported(doc, facts, cap, size, edit);
    ImportOfSettled(r.doc, facts, r.added + r.skipped, cap, size, edit);
  }

  lemma EditorSays(doc: string, f: Fact, c: Casing)
    ensures Editor(c)(doc, f) == doc <==> Says(doc, f.section, f.content, c)
  {
    SaysIsUnchanged(doc, f.section, f.content, c);
  }

  /** The document says the fact. */
  ghost predicate SaysFact(doc: string, f: Fact, c: Casing) {
    Says(doc, f.section, f.content, c)
  }

  /** After an import the document says every fact that was not cut off, and a second import
      of the same facts changes nothing, size cap included: what the first one added or
      skipped is now skipped, and what it cut off is cut off again. */
  lemma {:induction false} ImportTwice(doc: string, facts: seq<Fact>, cap: nat, size: string -> nat, c: Casing)
    requires forall f | f in facts :: '\n' !in f.section
    ensures var r := Imported(doc, facts, cap, size, Editor(c));
            && Imported(r.doc, facts, cap, size, Editor(c)) == Report(r.doc, 0, r.added + r.skipped, r.truncated)
            && r.added + r.skipped + r.truncated == |facts|
            && forall i | 0 <= i < r.added + r.skipped :: SaysFact(r.doc, facts[i], c)
  {
    var edit := Editor(c);
    EditorSettles(facts, c);
    ImportAgain(doc, facts, cap, size, edit);
    var r := Imported(doc, facts, cap, size, edit);
    forall i | 0 <= i < r.added + r.skipped ensures SaysFact(r.doc, facts[i], c) {
      EditorSays(r.doc, facts[i], c);
    }
  }
}
