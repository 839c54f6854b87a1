/** String operations of ECMAScript that several components share: white space,
    trimming, splitting on one character and joining. */
module Text {

  /** The characters matched by `\s` and removed by `trim`. */
  predicate IsSpace(c: char) {
    var n := c as int;
    || n == 0x20
    || 0x09 <= n <= 0x0D
    || n == 0xA0
    || n == 0x1680
    || 0x2000 <= n <= 0x200A
    || n == 0x2028
    || n == 0x2029
    || n == 0x202F
    || n == 0x205F
    || n == 0x3000
    || n == 0xFEFF
  }

  /** Tab, line feed, vertical tab, form feed, carriage return, blank, the other space separators, the line
      and paragraph separators, and the byte order mark. */
  lemma WhiteSpaceIs(c: char)
    ensures IsSpace(c) <==>
              || c in "\t\n\U{000B}\U{000C}\r \U{00A0}\U{1680}\U{2028}\U{2029}\U{202F}\U{205F}\U{3000}\U{FEFF}"
              || '\U{2000}' <= c <= '\U{200A}'
  {
  }

  predicate AllSpace(s: string) {
    forall i | 0 <= i < |s| :: IsSpace(s[i])
  }

  function TrimStart(s: string): string {
    if s != "" && IsSpace(s[0]) then TrimStart(s[1..]) else s
  }

  function TrimEnd(s: string): string {
    if s != "" && IsSpace(s[|s| - 1]) then TrimEnd(s[..|s| - 1]) else s
  }

  function Trim(s: string): string {
    TrimEnd(TrimStart(s))
  }

  lemma {:induction false} TrimStartFacts(s: string)
    ensures forall c :: c in TrimStart(s) ==> c in s
    ensures TrimStart(s) != "" ==> !IsSpace(TrimStart(s)[0])
  {
    if s != "" && IsSpace(s[0]) {
      TrimStartFacts(s[1..]);
    }
  }

  lemma {:induction false} TrimEndFacts(s: string)
    ensures TrimEnd(s) <= s
    ensures TrimEnd(s) != "" ==> !IsSpace(TrimEnd(s)[|TrimEnd(s)| - 1])
  {
    if s != "" && IsSpace(s[|s| - 1]) {
      TrimEndFacts(s[..|s| - 1]);
    }
  }

  /** Trimming takes no character from elsewhere, and what is left starts and ends with
      a character that is not white space. */
  lemma TrimFacts(s: string)
    ensures forall c :: c in Trim(s) ==> c in s
    ensures Trim(s) != "" ==> !IsSpace(Trim(s)[0]) && !IsSpace(Trim(s)[|Trim(s)| - 1])
  {
    TrimStartFacts(s);
    TrimEndFacts(TrimStart(s));
  }

  /** `parts.join(sep)` */
  function Join(parts: seq<string>, sep: string): string {
    if parts == [] then ""
    else if |parts| == 1 then parts[0]
    else parts[0] + sep + Join(parts[1..], sep)
  }

  /** `s.split(sep)` for a one-character separator. */
  function SplitOn(s: string, sep: char): (parts: seq<string>)
    ensures |parts| >= 1
    ensures forall i | 0 <= i < |parts| :: sep !in parts[i]
  {
    if s == "" then [""]
    else
      var rest := SplitOn(s[1..], sep);
      if s[0] == sep then [""] + rest else [[s[0]] + rest[0]] + rest[1..]
  }

  lemma {:induction false} JoinSplit(s: string, sep: char)
    ensures Join(SplitOn(s, sep), [sep]) == s
  {
    if s != "" {
      JoinSplit(s[1..], sep);
      var rest := SplitOn(s[1..], sep);
      if s[0] == sep {
        assert ([""] + rest)[1..] == rest;
      } else {
        assert ([[s[0]] + rest[0]] + rest[1..])[1..] == rest[1..];
        assert s == [s[0]] + s[1..];
      }
    }
  }

  lemma {:induction false} SplitStart(s: string, sep: char)
    ensures forall c :: c in SplitOn(s, sep)[0] ==> c in s
  {
    if s != "" {
      SplitStart(s[1..], sep);
    }
  }

  lemma {:induction false} SplitWithout(s: string, sep: char)
    requires sep !in s
    ensures SplitOn(s, sep) == [s]
  {
    if s != "" {
      SplitWithout(s[1..], sep);
      assert [s[0]] + s[1..] == s;
      assert [s[1..]][1..] == [];
    }
  }

  lemma ConsWord(c: char, left: seq<string>, right: seq<string>)
    requires |left| >= 1
    ensures [[c] + (left + right)[0]] + (left + right)[1..] == ([[c] + left[0]] + left[1..]) + right
  {
    assert (left + right)[1..] == left[1..] + right;
  }

  lemma SplitCons(c: char, s: string, sep: char)
    ensures SplitOn([c] + s, sep)
         == if c == sep then [""] + SplitOn(s, sep) else [[c] + SplitOn(s, sep)[0]] + SplitOn(s, sep)[1..]
  {
    assert ([c] + s)[1..] == s;
  }

  lemma {:induction false} SplitConcat(a: string, b: string, sep: char)
    ensures SplitOn(a + [sep] + b, sep) == SplitOn(a, sep) + SplitOn(b, sep)
  {
    if a == "" {
      assert a + [sep] + b == [sep] + b;
      SplitCons(sep, b, sep);
    } else {
      var rest := a[1..] + [sep] + b;
      SplitConcat(a[1..], b, sep);
      assert a + [sep] + b == [a[0]] + rest;
      SplitCons(a[0], rest, sep);
      var left, right := SplitOn(a[1..], sep), SplitOn(b, sep);
      if a[0] == sep {
        assert [""] + (left + right) == ([""] + left) + right;
      } else {
        ConsWord(a[0], left, right);
      }
    }
  }

  lemma {:induction false} SplitJoin(parts: seq<string>, sep: char)
    requires |parts| >= 1
    requires forall i | 0 <= i < |parts| :: sep !in parts[i]
    ensures SplitOn(Join(parts, [sep]), sep) == parts
  {
    SplitWithout(parts[0], sep);
    if |parts| > 1 {
      SplitJoin(parts[1..], sep);
      SplitConcat(parts[0], Join(parts[1..], [sep]), sep);
    }
  }
}
