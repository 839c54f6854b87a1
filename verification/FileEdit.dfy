/** The string part of the `file_edit` tool (src/agent/agent-executor.ts). */
module FileEdit {
  import opened Text

  // ----- Searching -----

  predicate Occurs(s: string, pat: string, i: int) {
    0 <= i && i + |pat| <= |s| && s[i..i + |pat|] == pat
  }

  /** `s.indexOf(pat, from)`, or -1 */
  function IndexOf(s: string, pat: string, from: nat): (i: int)
    ensures i == -1 || (Occurs(s, pat, i) && (from <= i || i == |s|))
    ensures forall j | from <= j && Occurs(s, pat, j) :: i != -1 && i <= j
    ensures pat == "" ==> i != -1
    decreases if from < |s| then |s| - from else 0
  {
    var at := if from <= |s| then from else |s|;
    if Occurs(s, pat, at) then at
    else if at == |s| then -1
    else IndexOf(s, pat, at + 1)
  }

  /** `pat` occurs in `s` at exactly one position, overlaps counted. */
  ghost predicate OccursOnce(s: string, pat: string) {
    exists i :: Occurs(s, pat, i) && forall j | Occurs(s, pat, j) :: j == i
  }

  ghost predicate NoMatch(s: string, pat: string) {
    forall i :: !Occurs(s, pat, i)
  }

  // ----- Replacing the first match -----

  /** The text `replace` puts in: it reads `$$`, `$&`, `` $` `` and `$'` in the new string as
      a dollar sign, the match, what precedes it and what follows it. */
  function Expand(newText: string, matched: string, before: string, after: string): string {
    if |newText| >= 2 && newText[0] == '$' && newText[1] in {'$', '&', '`', '\''} then
      (match newText[1]
       case '$' => "$"
       case '&' => matched
       case '`' => before
       case _ => after) + Expand(newText[2..], matched, before, after)
    else if newText == "" then ""
    else [newText[0]] + Expand(newText[1..], matched, before, after)
  }

  /** No dollar sign of `s` starts one of those patterns. */
  predicate Plain(s: string) {
    forall i | 0 <= i < |s| - 1 :: s[i] == '$' ==> s[i + 1] !in {'$', '&', '`', '\''}
  }

  lemma {:induction false} PlainIsVerbatim(s: string, matched: string, before: string, after: string)
    requires Plain(s)
    ensures Expand(s, matched, before, after) == s
  {
    if s != "" {
      PlainIsVerbatim(s[1..], matched, before, after);
      assert |s| >= 2 && s[0] == '$' ==> s[0 + 1] !in {'$', '&', '`', '\''};
    }
  }

  lemma PlainTail(s: string)
    requires s != "" && Plain(s)
    ensures Plain(s[1..])
  {
    var tail := s[1..];
    forall i | 0 <= i < |tail| - 1 ensures tail[i] == '$' ==> tail[i + 1] !in {'$', '&', '`', '\''} {
      assert tail[i] == s[i + 1] && tail[i + 1] == s[i + 1 + 1];
    }
  }

  /** What a pattern is read as: a dollar sign, the match, what precedes it, what follows it. Text in
      front of it that is free of patterns stays, and reading goes on behind it. */
  lemma {:induction false} PatternIsRead(
    a: string, x: char, b: string, value: string, matched: string, before: string, after: string)
    requires Plain(a) && (a == "" || a[|a| - 1] != '$')
    requires (x, value) in {('$', "$"), ('&', matched), ('`', before), ('\'', after)}
    ensures Expand(a + ['$', x] + b, matched, before, after) == a + value + Expand(b, matched, before, after)
  {
    var text := a + ['$', x] + b;
    if a == "" {
      assert text[2..] == b;
    } else {
      PlainTail(a);
      PatternIsRead(a[1..], x, b, value, matched, before, after);
      assert text[1..] == a[1..] + ['$', x] + b;
      assert |a| >= 2 && a[0] == '$' ==> a[0 + 1] !in {'$', '&', '`', '\''};
      ReadOn(text, matched, before, after);
      Prepend(a[0], a[1..], value, Expand(b, matched, before, after));
      assert a == [a[0]] + a[1..];
    }
  }

  lemma ReadOn(text: string, matched: string, before: string, after: string)
    requires text != "" && !(|text| >= 2 && text[0] == '$' && text[1] in {'$', '&', '`', '\''})
    ensures Expand(text, matched, before, after) == [text[0]] + Expand(text[1..], matched, before, after)
  {
  }

  lemma Prepend(c: char, a: string, b: string, d: string)
    ensures [c] + (a + b + d) == ([c] + a) + b + d
  {
  }

  lemma {:induction false} PatternsShrink(s: string)
    ensures |Expand(s, "", "", "")| <= |s|
    ensures !Plain(s) ==> |Expand(s, "", "", "")| < |s|
  {
    if |s| >= 2 && s[0] == '$' && s[1] in {'$', '&', '`', '\''} {
      PatternsShrink(s[2..]);
    } else if s != "" {
      PatternsShrink(s[1..]);
      ReadOn(s, "", "", "");
      if Plain(s[1..]) {
        forall i | 0 <= i < |s| - 1 ensures s[i] == '$' ==> s[i + 1] !in {'$', '&', '`', '\''} {
          assert i > 0 ==> s[1..][i - 1] == s[i] && s[1..][i - 1 + 1] == s[i + 1];
        }
      }
    }
  }

  /** A text is written as it is wherever it goes exactly if it is free of patterns. */
  lemma PlainExactly(s: string)
    ensures Plain(s) <==> forall matched, before, after :: Expand(s, matched, before, after) == s
  {
    if Plain(s) {
      forall matched, before, after ensures Expand(s, matched, before, after) == s {
        PlainIsVerbatim(s, matched, before, after);
      }
    } else {
      PatternsShrink(s);
      assert Expand(s, "", "", "") != s;
    }
  }

  // ----- Replacing every match -----

  /** `s.split(pat)`: cut at each match, leftmost first; an empty pattern cuts everywhere. */
  function Split(s: string, pat: string): seq<string>
    decreases |s|
  {
    if pat == "" then (if s == "" then [] else [s[..1]] + Split(s[1..], pat))
    else
      var i := IndexOf(s, pat, 0);
      if i < 0 then [s] else [s[..i]] + Split(s[i + |pat|..], pat)
  }

  /** One cut. */
  lemma SplitAt(s: string, pat: string)
    requires pat != ""
    ensures var i := IndexOf(s, pat, 0);
            Split(s, pat) == if i < 0 then [s] else [s[..i]] + Split(s[i + |pat|..], pat)
  {
    var i := IndexOf(s, pat, 0);
    if i < 0 {
      assert Split(s, pat) == [s];
    } else {
      assert Split(s, pat) == [s[..i]] + Split(s[i + |pat|..], pat);
    }
  }

  // ----- The edit -----

  datatype Result = NotFound | Ambiguous | Edited(text: string, count: int)

  function Edit(content: string, oldText: string, newText: string, replaceAll: bool): Result {
    var first := IndexOf(content, oldText, 0);
    if first < 0 then NotFound
    else if replaceAll then
      var pieces := Split(content, oldText);
      Edited(Join(pieces, newText), |pieces| - 1)
    else if IndexOf(content, oldText, first + 1) != -1 then Ambiguous
    else
      var before, after := content[..first], content[first + |oldText|..];
      Edited(before + Expand(newText, oldText, before, after) + after, 1)
  }

  /** When a single edit goes through, and when it is refused. */
  lemma SingleEdit(content: string, oldText: string, newText: string)
    ensures Edit(content, oldText, newText, false).Edited? <==> oldText != "" && OccursOnce(content, oldText)
    ensures Edit(content, oldText, newText, false).NotFound? <==> forall i :: !Occurs(content, oldText, i)
  {
    var first := IndexOf(content, oldText, 0);
    if first >= 0 && oldText != "" {
      var second := IndexOf(content, oldText, first + 1);
      if second == -1 {
        assert forall j | Occurs(content, oldText, j) :: j == first;
      } else {
        assert Occurs(content, oldText, first) && Occurs(content, oldText, second) && first != second;
      }
    }
  }

  lemma EditsBetween(before: string, oldText: string, after: string, newText: string)
    requires oldText != "" && OccursOnce(before + oldText + after, oldText)
    ensures IndexOf(before + oldText + after, oldText, 0) == |before|
    ensures Edit(before + oldText + after, oldText, newText, false)
         == Edited(before + Expand(newText, oldText, before, after) + after, 1)
  {
    var s := before + oldText + after;
    assert s[|before|..|before| + |oldText|] == oldText;
    assert Occurs(s, oldText, |before|);
    SingleEdit(s, oldText, newText);
    assert s[..|before|] == before && s[|before| + |oldText|..] == after;
  }

  lemma OccursBetween(before: string, pat: string, after: string)
    ensures Occurs(before + pat + after, pat, |before|)
  {
    assert (before + pat + after)[|before|..|before| + |pat|] == pat;
  }

  lemma SameBetween(before: string, x: string, y: string, after: string)
    ensures before + x + after == before + y + after <==> x == y
  {
    if before + x + after == before + y + after {
      assert |x| == |y|;
      assert x == (before + x + after)[|before|..|before| + |x|];
      assert y == (before + y + after)[|before|..|before| + |y|];
    }
  }

  /** A single edit puts what the new string is read as, which without patterns is the new string
      itself, where the only match was. The reverse edit of what was written brings the file back
      exactly when that is not empty, occurs once, overlaps counted, in the result, and the old
      string holds no pattern that would be read; it is ambiguous exactly when one of the first two
      fails. */
  lemma Undo(content: string, oldText: string, newText: string) returns (before: string, after: string)
    requires Edit(content, oldText, newText, false).Edited?
    ensures content == before + oldText + after
    ensures Plain(newText) ==> Expand(newText, oldText, before, after) == newText
    ensures var written := Expand(newText, oldText, before, after);
            var text := before + written + after;
            && Edit(content, oldText, newText, false) == Edited(text, 1)
            && (Edit(text, written, oldText, false) == Edited(content, 1) <==>
                written != "" && OccursOnce(text, written) && Expand(oldText, written, before, after) == oldText)
            && (Edit(text, written, oldText, false) == Ambiguous <==> written == "" || !OccursOnce(text, written))
  {
    SingleEdit(content, oldText, newText);
    var i := IndexOf(content, oldText, 0);
    before, after := content[..i], content[i + |oldText|..];
    assert content == before + oldText + after;
    EditsBetween(before, oldText, after, newText);
    if Plain(newText) {
      PlainIsVerbatim(newText, oldText, before, after);
    }
    ReverseEdit(before, oldText, after, Expand(newText, oldText, before, after));
  }

  lemma ReverseEdit(before: string, oldText: string, after: string, written: string)
    ensures var text, content := before + written + after, before + oldText + after;
            && (Edit(text, written, oldText, false) == Edited(content, 1) <==>
                written != "" && OccursOnce(text, written) && Expand(oldText, written, before, after) == oldText)
            && (Edit(text, written, oldText, false) == Ambiguous <==> written == "" || !OccursOnce(text, written))
  {
    var text := before + written + after;
    if written != "" && OccursOnce(text, written) {
      EditsBetween(before, written, after, oldText);
      SameBetween(before, Expand(oldText, written, before, after), oldText, after);
    } else {
      SingleEdit(text, written, oldText);
      OccursBetween(before, written, after);
    }
  }

  /** Where a single edit goes through, replacing all writes the same file exactly when the new
      string holds no pattern that would be read. */
  lemma SingleAgainstAll(content: string, oldText: string, newText: string)
    requires Edit(content, oldText, newText, false).Edited?
    ensures var first := IndexOf(content, oldText, 0);
            Edit(content, oldText, newText, false) == Edit(content, oldText, newText, true) <==>
            Expand(newText, oldText, content[..first], content[first + |oldText|..]) == newText
  {
    SingleEdit(content, oldText, newText);
    var first := IndexOf(content, oldText, 0);
    var before, after := content[..first], content[first + |oldText|..];
    OneMatchPieces(content, oldText, first);
    assert Join([before, after], newText) == before + newText + after by {
      assert [before, after][1..] == [after];
    }
    SameBetween(before, Expand(newText, oldText, before, after), newText, after);
  }

  lemma OccursLater(s: string, pat: string, i: nat, j: nat)
    requires i <= |s| && Occurs(s[i..], pat, j)
    ensures Occurs(s, pat, i + j)
  {
    assert s[i + j..i + j + |pat|] == s[i..][j..j + |pat|];
  }

  lemma OneMatchIndex(s: string, pat: string, i: nat)
    requires OccursOnce(s, pat) && Occurs(s, pat, i)
    ensures pat != "" ==> IndexOf(s, pat, 0) == i
    ensures forall j :: Occurs(s, pat, j) ==> j == i
  {
  }

  lemma NoMatchAfter(s: string, pat: string, i: nat)
    requires pat != "" && i + |pat| <= |s| && (forall j :: Occurs(s, pat, j) ==> j == i)
    ensures NoMatch(s[i + |pat|..], pat)
  {
    var rest := s[i + |pat|..];
    forall j ensures !Occurs(rest, pat, j) {
      if Occurs(rest, pat, j) {
        OccursLater(s, pat, i + |pat|, j);
      }
    }
  }

  lemma NoMatchNoIndex(s: string, pat: string)
    requires NoMatch(s, pat)
    ensures IndexOf(s, pat, 0) == -1
  {
  }

  lemma TwoPieces(s: string, pat: string, i: nat)
    requires pat != "" && i + |pat| <= |s|
    requires IndexOf(s, pat, 0) == i && IndexOf(s[i + |pat|..], pat, 0) == -1
    ensures Split(s, pat) == [s[..i], s[i + |pat|..]]
  {
    SplitAt(s, pat);
    SplitAt(s[i + |pat|..], pat);
  }

  lemma OneMatchPieces(s: string, pat: string, i: nat)
    requires pat != "" && OccursOnce(s, pat) && Occurs(s, pat, i)
    ensures Split(s, pat) == [s[..i], s[i + |pat|..]]
  {
    OneMatchIndex(s, pat, i);
    NoMatchAfter(s, pat, i);
    NoMatchNoIndex(s[i + |pat|..], pat);
    TwoPieces(s, pat, i);
  }

  /** A new string with a pattern in it may not be what gets written. */
  lemma DollarsAreRead()
    ensures Edit("price", "price", "$$5", false) == Edited("$5", 1)
    ensures Edit("price", "price", "$$5", true) == Edited("$$5", 1)
  {
    assert "price"[0..5] == "price";
    assert Occurs("price", "price", 0);
    assert forall j | Occurs("price", "price", j) :: j == 0;
    assert Expand("$$5"[2..], "price", "", "") == "5" by {
      PlainIsVerbatim("5", "price", "", "");
    }
    assert "price"[..0] == "" && "price"[5..] == "";
    assert Split("price", "price") == ["", ""] by {
      OneMatchPieces("price", "price", 0);
    }
    assert Join(["", ""], "$$5") == "$$5" by {
      assert ["", ""][1..] == [""];
    }
  }

  // ----- Replace all -----

  lemma NoMatchBefore(s: string, pat: string, i: nat)
    requires pat != "" && IndexOf(s, pat, 0) == i
    ensures NoMatch(s[..i], pat)
  {
    forall j ensures !Occurs(s[..i], pat, j) {
      if Occurs(s[..i], pat, j) {
        assert s[j..j + |pat|] == s[..i][j..j + |pat|];
        assert Occurs(s, pat, j);
      }
    }
  }

  lemma NoMatchAtAll(s: string, pat: string)
    requires IndexOf(s, pat, 0) == -1
    ensures NoMatch(s, pat)
  {
  }

  ghost predicate MatchFree(pieces: seq<string>, pat: string) {
    forall k | 0 <= k < |pieces| :: NoMatch(pieces[k], pat)
  }

  lemma FreeCons(head: string, tail: seq<string>, pat: string)
    requires NoMatch(head, pat) && MatchFree(tail, pat)
    ensures MatchFree([head] + tail, pat)
  {
  }

  lemma {:induction false} SplitIsFree(s: string, pat: string)
    requires pat != ""
    ensures MatchFree(Split(s, pat), pat)
    decreases |s|
  {
    SplitAt(s, pat);
    var i := IndexOf(s, pat, 0);
    if i < 0 {
      NoMatchAtAll(s, pat);
    } else {
      SplitIsFree(s[i + |pat|..], pat);
      NoMatchBefore(s, pat, i);
      FreeCons(s[..i], Split(s[i + |pat|..], pat), pat);
    }
  }

  lemma {:induction false} SplitJoins(s: string, pat: string)
    ensures Join(Split(s, pat), pat) == s
    ensures |Split(s, pat)| == 0 <==> s == "" && pat == ""
    decreases |s|
  {
    if pat == "" {
      if s != "" {
        SplitJoins(s[1..], pat);
        JoinCons(s[..1], Split(s[1..], pat), pat);
      }
    } else {
      var i := IndexOf(s, pat, 0);
      if i >= 0 {
        var rest := s[i + |pat|..];
        SplitJoins(rest, pat);
        JoinCons(s[..i], Split(rest, pat), pat);
        assert s == s[..i] + pat + rest;
      }
    }
  }

  /** The pieces hold no match, and joining them with the old string restores the content. */
  lemma {:induction false} SplitRestores(s: string, pat: string)
    ensures Join(Split(s, pat), pat) == s
    ensures pat != "" ==> MatchFree(Split(s, pat), pat)
    ensures |Split(s, pat)| == 0 <==> s == "" && pat == ""
  {
    SplitJoins(s, pat);
    if pat != "" {
      SplitIsFree(s, pat);
    }
  }

  lemma JoinCons(head: string, tail: seq<string>, sep: string)
    ensures Join([head] + tail, sep) == if tail == [] then head else head + sep + Join(tail, sep)
  {
    assert ([head] + tail)[1..] == tail;
  }

  /** Length of the pieces taken together. */
  function Total(pieces: seq<string>): nat {
    if pieces == [] then 0 else |pieces[0]| + Total(pieces[1..])
  }

  lemma {:induction false} JoinLength(pieces: seq<string>, sep: string)
    ensures pieces != [] ==> |Join(pieces, sep)| == Total(pieces) + (|pieces| - 1) * |sep|
  {
    if |pieces| > 1 {
      JoinLength(pieces[1..], sep);
    }
  }

  /** Replacing all changes the length by count times the difference of the two strings; the
      one exception is an empty file searched for the empty string, whose count is -1. */
  lemma ReplaceAllLength(content: string, oldText: string, newText: string)
    requires Edit(content, oldText, newText, true).Edited?
    ensures var r := Edit(content, oldText, newText, true);
            |r.text| == |content| + r.count * (|newText| - |oldText|) <==> !(content == "" && oldText == "" && newText != "")
    ensures content == "" && oldText == "" ==> Edit(content, oldText, newText, true) == Edited("", -1)
  {
    var pieces := Split(content, oldText);
    SplitRestores(content, oldText);
    JoinLength(pieces, oldText);
    JoinLength(pieces, newText);
    if pieces != [] {
      SumsDiffer(Total(pieces), |pieces| - 1, |newText|, |oldText|);
    }
  }

  lemma SumsDiffer(total: int, n: int, a: int, b: int)
    ensures total + n * a == (total + n * b) + n * (a - b)
  {
  }

  /** Replacing all finds a match exactly when there is one, and then at least one is counted
      unless the old string is empty. */
  lemma ReplaceAllFinds(content: string, oldText: string, newText: string)
    ensures Edit(content, oldText, newText, true).Edited? <==> exists i :: Occurs(content, oldText, i)
    ensures oldText != "" && Edit(content, oldText, newText, true).Edited? ==> Edit(content, oldText, newText, true).count >= 1
  {
    var i := IndexOf(content, oldText, 0);
    if oldText != "" && i >= 0 {
      SplitRestores(content[i + |oldText|..], oldText);
    }
    if oldText == "" {
      assert Occurs(content, oldText, i);
    }
  }

  /** What a file becomes when all matches are replaced; without a match it stays. */
  function AllReplaced(content: string, oldText: string, newText: string): string {
    var r := Edit(content, oldText, newText, true);
    if r.Edited? then r.text else content
  }

  /** Replacing all, match by match: the first one is replaced, and then those in the text behind it. */
  lemma ReplaceAllStep(before: string, oldText: string, rest: string, newText: string)
    requires oldText != "" && forall j | 0 <= j < |before| :: !Occurs(before + oldText + rest, oldText, j)
    ensures var r := Edit(before + oldText + rest, oldText, newText, true);
            var s := Edit(rest, oldText, newText, true);
            r == Edited(before + newText + AllReplaced(rest, oldText, newText), 1 + if s.Edited? then s.count else 0)
  {
    var content := before + oldText + rest;
    OccursBetween(before, oldText, rest);
    assert IndexOf(content, oldText, 0) == |before|;
    assert content[..|before|] == before && content[|before| + |oldText|..] == rest;
    SplitAt(content, oldText);
    SplitRestores(rest, oldText);
    JoinCons(before, Split(rest, oldText), newText);
    if IndexOf(rest, oldText, 0) < 0 {
      assert Split(rest, oldText) == [rest];
    }
  }

  /** With nothing to look for, the new text is put between every two characters. */
  lemma ReplaceAllNothing(content: string, newText: string)
    ensures |content| <= 1 ==> Edit(content, "", newText, true) == Edited(content, |content| - 1)
    ensures |content| > 1 ==>
              var rest := Edit(content[1..], "", newText, true);
              rest.Edited? && Edit(content, "", newText, true) == Edited(content[..1] + newText + rest.text, 1 + rest.count)
  {
    if content != "" {
      SplitRestores(content[1..], "");
      JoinCons(content[..1], Split(content[1..], ""), newText);
    }
  }
}
