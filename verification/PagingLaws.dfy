/** Walking the pages of the library against the plain sorted list. */
module PagingLaws {
  import opened Text
  import opened LibraryPaging
  import opened Wrappers

  /** The plain list: everything shown, in list order. */
  function Listing(table: seq<Asset>, show: Asset -> bool, h: Host): seq<Asset> {
    Sort(Filter(table, show), h)
  }

  lemma ListingFacts(table: seq<Asset>, show: Asset -> bool, h: Host)
    requires TotalOrder(h.lt) && Unique(table)
    ensures Sorted(Listing(table, show, h), h)
    ensures forall r :: r in Listing(table, show, h) <==> r in table && show(r)
  {
    FilterUnique(table, show);
    SortSorts(Filter(table, show), h);
    SortMembers(Filter(table, show), h);
  }

  // ----- Cursor text -----

  /** The row can be named by a cursor. */
  predicate Clean(r: Asset) {
    r.source != "" && r.id != "" && '|' !in r.source && '|' !in r.id
  }

  function CursorOf(r: Asset): Cursor {
    Cursor(Millis(r.createdAt), r.source, r.id)
  }

  lemma {:induction false} OnePart(s: string, sep: char)
    ensures |SplitOn(s, sep)| == 1 <==> sep !in s
  {
    if s != "" {
      OnePart(s[1..], sep);
      assert s == [s[0]] + s[1..];
    }
  }

  lemma PrintParts(r: Asset, h: Host)
    requires SoundHost(h)
    ensures SplitOn(Print(r, h), '|') == [h.iso(Millis(r.createdAt))] + SplitOn(r.source, '|') + SplitOn(r.id, '|')
  {
    var ts := h.iso(Millis(r.createdAt));
    assert Print(r, h) == ts + ['|'] + (r.source + ['|'] + r.id);
    SplitConcat(ts, r.source + ['|'] + r.id, '|');
    SplitConcat(r.source, r.id, '|');
    SplitWithout(ts, '|');
  }

  /** A printed cursor reads back as the row's position, to the millisecond, exactly when the
      row is clean; otherwise it reads as no cursor. */
  lemma ParsePrint(r: Asset, h: Host)
    requires SoundHost(h)
    ensures Parse(Print(r, h), h) == if Clean(r) then Some(CursorOf(r)) else None
  {
    PrintParts(r, h);
    OnePart(r.source, '|');
    OnePart(r.id, '|');
    if '|' !in r.source && '|' !in r.id {
      SplitWithout(r.source, '|');
      SplitWithout(r.id, '|');
    }
  }

  // ----- One page -----

  function PastCursor(c: Option<Cursor>, h: Host): Asset -> bool {
    (r: Asset) => c.Some? ==> Below(r, c.value, h)
  }

  lemma {:induction false} FilterTwice(rows: seq<Asset>, show: Asset -> bool, c: Option<Cursor>, h: Host)
    ensures Filter(rows, Past(show, c, h)) == Filter(Filter(rows, show), PastCursor(c, h))
  {
    if rows != [] {
      FilterTwice(rows[1..], show, c, h);
      FilterCons(rows[0], Filter(rows[1..], show), PastCursor(c, h));
    }
  }

  /** A query with a cursor returns the first rows of the plain list that are past it. */
  lemma QueryIsPart(table: seq<Asset>, show: Asset -> bool, c: Option<Cursor>, limit: nat, h: Host)
    requires TotalOrder(h.lt) && Unique(table)
    ensures ListAssets(table, show, c, limit, h) == Take(Filter(Listing(table, show, h), PastCursor(c, h)), limit)
  {
    FilterUnique(table, show);
    FilterTwice(table, show, c, h);
    FilterSort(Filter(table, show), PastCursor(c, h), h);
  }

  /** Newer, or of the same instant with a smaller source, or with the same source and a smaller id. */
  ghost predicate Ahead(a: Asset, b: Asset, h: Host) {
    || a.createdAt > b.createdAt
    || (a.createdAt == b.createdAt && h.lt(a.source, b.source))
    || (a.createdAt == b.createdAt && a.source == b.source && h.lt(a.id, b.id))
  }

  /** Smaller than the cursor in time, or in source at the same time, or in id with the same source. */
  ghost predicate LetsThrough(c: Option<Cursor>, r: Asset, h: Host) {
    c.Some? ==>
      || r.createdAt < c.value.createdAt
      || (r.createdAt == c.value.createdAt && h.lt(r.source, c.value.source))
      || (r.createdAt == c.value.createdAt && r.source == c.value.source && h.lt(r.id, c.value.id))
  }

  /** The row comes after as many rows as were asked for. */
  ghost predicate LeftOut(rows: seq<Asset>, limit: nat, r: Asset, h: Host) {
    |rows| == limit && forall x | x in rows :: Ahead(x, r, h)
  }

  /** What a query returns: rows of the tab that the cursor lets through, in the order of the list, no
      more than asked for, and any such row that is left out comes after as many as were asked for. */
  lemma QueryIs(table: seq<Asset>, show: Asset -> bool, c: Option<Cursor>, limit: nat, h: Host)
    requires TotalOrder(h.lt) && Unique(table)
    ensures var rows := ListAssets(table, show, c, limit, h);
            && |rows| <= limit
            && (forall i, j | 0 <= i < j < |rows| :: Ahead(rows[i], rows[j], h))
            && (forall r | r in rows :: r in table && show(r) && LetsThrough(c, r, h))
            && forall r | r in table && show(r) && LetsThrough(c, r, h) && r !in rows :: LeftOut(rows, limit, r, h)
  {
    var all, rows := Listing(table, Past(show, c, h), h), ListAssets(table, show, c, limit, h);
    ListingFacts(table, Past(show, c, h), h);
    assert rows == Take(all, limit);
    forall i, j | 0 <= i < j < |all| ensures Ahead(all[i], all[j], h) {
      assert Before(all[i], all[j], h);
    }
    forall r | r in table && show(r) && LetsThrough(c, r, h) && r !in rows ensures LeftOut(rows, limit, r, h) {
      PastIs(show, c, r, h);
      RestIsLeftOut(all, limit, r, h);
    }
    forall r | r in rows ensures r in table && show(r) && LetsThrough(c, r, h) {
      PastIs(show, c, r, h);
      assert r in all;
    }
  }

  lemma PastIs(show: Asset -> bool, c: Option<Cursor>, r: Asset, h: Host)
    ensures Past(show, c, h)(r) <==> show(r) && LetsThrough(c, r, h)
  {
  }

  lemma RestIsLeftOut(all: seq<Asset>, limit: nat, r: Asset, h: Host)
    requires forall i, j | 0 <= i < j < |all| :: Ahead(all[i], all[j], h)
    requires r in all && r !in Take(all, limit)
    ensures LeftOut(Take(all, limit), limit, r, h)
  {
    var rows := Take(all, limit);
    var j :| 0 <= j < |all| && all[j] == r;
    assert j >= |rows| by {
      assert forall k | 0 <= k < |rows| :: rows[k] == all[k] && rows[k] in rows;
    }
    forall x | x in rows ensures Ahead(x, r, h) {
      var i :| 0 <= i < |rows| && rows[i] == x;
      assert Ahead(all[i], all[j], h);
    }
  }

  lemma {:induction false} FilterSuffix(rows: seq<Asset>, p: Asset -> bool, n: nat)
    requires n <= |rows|
    requires forall j | 0 <= j < n :: !p(rows[j])
    requires forall j | n <= j < |rows| :: p(rows[j])
    ensures Filter(rows, p) == rows[n..]
  {
    if rows != [] {
      FilterSuffix(rows[1..], p, if n == 0 then 0 else n - 1);
      assert n > 0 ==> rows[1..][n - 1..] == rows[n..];
    }
  }

  // ----- When the walk is right -----

  /** The cursor of `a` lets exactly the right rows through when `b` is next in the list: `b`
      lies in an earlier millisecond, or at the very start of the same one with a smaller key. */
  predicate Follows(a: Asset, b: Asset, h: Host) {
    && Clean(a)
    && (b.createdAt < Millis(a.createdAt)
        || (b.createdAt == Millis(a.createdAt) && h.lt(b.source, a.source))
        || (b.createdAt == Millis(a.createdAt) && b.source == a.source && h.lt(b.id, a.id)))
  }

  ghost predicate Walkable(rows: seq<Asset>, h: Host) {
    forall i | 0 <= i < |rows| - 1 :: Follows(rows[i], rows[i + 1], h)
  }

  lemma Strictly(rows: seq<Asset>, i: nat, h: Host)
    requires TotalOrder(h.lt) && Sorted(rows, h) && Walkable(rows, h) && i + 1 < |rows|
    ensures rows[i + 1].createdAt < rows[i].createdAt
  {
    assert Before(rows[i], rows[i + 1], h) && Follows(rows[i], rows[i + 1], h);
  }

  lemma {:induction false} StrictlyAll(rows: seq<Asset>, i: nat, j: nat, h: Host)
    requires TotalOrder(h.lt) && Sorted(rows, h) && Walkable(rows, h) && i < j < |rows|
    ensures rows[j].createdAt < rows[i].createdAt
    decreases j - i
  {
    Strictly(rows, j - 1, h);
    if i < j - 1 {
      StrictlyAll(rows, i, j - 1, h);
    }
  }

  lemma CutAfter(rows: seq<Asset>, n: nat, h: Host)
    requires TotalOrder(h.lt) && Sorted(rows, h) && Walkable(rows, h) && 0 < n < |rows|
    ensures Filter(rows, PastCursor(Some(CursorOf(rows[n - 1])), h)) == rows[n..]
  {
    var c := CursorOf(rows[n - 1]);
    var p := PastCursor(Some(c), h);
    forall j | 0 <= j < n ensures !p(rows[j]) {
      if j < n - 1 {
        StrictlyAll(rows, j, n - 1, h);
      }
    }
    forall j | n <= j < |rows| ensures p(rows[j]) {
      assert Follows(rows[n - 1], rows[n - 1 + 1], h);
      if j > n {
        StrictlyAll(rows, n, j, h);
      }
    }
    FilterSuffix(rows, p, n);
  }

  lemma {:induction false} FilterAll(rows: seq<Asset>, h: Host)
    ensures Filter(rows, PastCursor(None, h)) == rows
  {
    FilterSuffix(rows, PastCursor(None, h), 0);
  }

  /** The cursor a client holds after `n` rows. */
  function CursorAfter(rows: seq<Asset>, n: nat, h: Host): Option<string>
    requires n <= |rows|
  {
    if n == 0 then None else Some(Print(rows[n - 1], h))
  }

  lemma CutTake(rows: seq<Asset>, limit: nat, h: Host)
    requires limit >= 1
    ensures Cut(Take(rows, limit + 1), limit, h)
         == if |rows| <= limit then Page(rows, None) else Page(rows[..limit], Some(Print(rows[limit - 1], h)))
  {
    assert |rows| > limit ==> rows[..limit + 1][..limit] == rows[..limit];
  }

  /** The next `limit` rows after the first `n`. */
  function NextPage(rows: seq<Asset>, n: nat, limit: nat, h: Host): Page
    requires n <= |rows|
  {
    if |rows| - n <= limit then Page(rows[n..], None)
    else Page(rows[n..n + limit], CursorAfter(rows, n + limit, h))
  }

  ghost predicate PageIsNext(get: Source, rows: seq<Asset>, n: nat, limit: nat, h: Host)
    requires n <= |rows|
  {
    get(CursorAfter(rows, n, h)) == NextPage(rows, n, limit, h)
  }

  lemma CutNext(rows: seq<Asset>, n: nat, limit: nat, h: Host)
    requires n <= |rows| && limit >= 1
    ensures Cut(Take(rows[n..], limit + 1), limit, h) == NextPage(rows, n, limit, h)
  {
    CutTake(rows[n..], limit, h);
    assert |rows| - n > limit ==> rows[n..][..limit] == rows[n..n + limit];
  }

  /** The cursor that the text for `n` rows reads back as. */
  function ReadAfter(rows: seq<Asset>, n: nat): Option<Cursor>
    requires n <= |rows|
  {
    if n == 0 then None else Some(CursorOf(rows[n - 1]))
  }

  lemma FoundAfter(rows: seq<Asset>, n: nat, h: Host)
    requires SoundHost(h) && Sorted(rows, h) && Walkable(rows, h) && (n == 0 || n < |rows|)
    ensures Filter(rows, PastCursor(ReadAfter(rows, n), h)) == rows[n..]
    ensures n > 0 ==> Parse(Print(rows[n - 1], h), h) == ReadAfter(rows, n)
  {
    if n == 0 {
      FilterAll(rows, h);
    } else {
      assert Follows(rows[n - 1], rows[n - 1 + 1], h);
      ParsePrint(rows[n - 1], h);
      CutAfter(rows, n, h);
    }
  }

  lemma PageAfter(table: seq<Asset>, show: Asset -> bool, rows: seq<Asset>, n: nat, limit: nat, h: Host)
    requires SoundHost(h) && Unique(table) && rows == Listing(table, show, h)
    requires Walkable(rows, h) && (n == 0 || n < |rows|) && limit >= 1
    ensures PageIsNext(Pages(table, show, limit, h), rows, n, limit, h)
  {
    ListingFacts(table, show, h);
    FoundAfter(rows, n, h);
    QueryIsPart(table, show, ReadAfter(rows, n), limit + 1, h);
    CutNext(rows, n, limit, h);
  }

  lemma {:induction false} WalkAfter(get: Source, rows: seq<Asset>, n: nat, limit: nat, fuel: nat, h: Host)
    requires limit >= 1 && (n == 0 || n < |rows|) && fuel > |rows| - n
    requires forall m: nat | m == 0 || m < |rows| :: PageIsNext(get, rows, m, limit, h)
    ensures Walk(get, CursorAfter(rows, n, h), fuel) == (rows[n..], true)
    decreases fuel
  {
    assert PageIsNext(get, rows, n, limit, h);
    if |rows| - n > limit {
      WalkAfter(get, rows, n + limit, limit, fuel - 1, h);
      assert rows[n..n + limit] + rows[n + limit..] == rows[n..];
    }
  }

  lemma WalkListing(table: seq<Asset>, show: Asset -> bool, limit: nat, h: Host)
    requires SoundHost(h) && Unique(table) && limit >= 1
    requires Walkable(Listing(table, show, h), h)
    ensures WalkYieldsList(table, show, limit, h)
  {
    var rows, get := Listing(table, show, h), Pages(table, show, limit, h);
    forall m: nat | m == 0 || m < |rows| ensures PageIsNext(get, rows, m, limit, h) {
      PageAfter(table, show, rows, m, limit, h);
    }
    WalkAfter(get, rows, 0, limit, |rows| + 1, h);
  }

  // ----- When it is not -----

  lemma NoRepeat(rows: seq<Asset>, n: nat, h: Host)
    requires TotalOrder(h.lt) && Sorted(rows, h) && 0 < n < |rows|
    ensures rows[n] != rows[0]
  {
    assert Before(rows[0], rows[n], h);
  }

  /** With one row a page, a page that starts with the row after its cursor proves that the
      cursor was good. */
  lemma StepIsGood(table: seq<Asset>, show: Asset -> bool, rows: seq<Asset>, n: nat, h: Host)
    requires SoundHost(h) && Unique(table) && rows == Listing(table, show, h)
    requires 0 < n < |rows|
    requires rows[n..n + 1] <= Pages(table, show, 1, h)(CursorAfter(rows, n, h)).items
    ensures Follows(rows[n - 1], rows[n], h)
  {
    ListingFacts(table, show, h);
    ParsePrint(rows[n - 1], h);
    var c := if Clean(rows[n - 1]) then Some(CursorOf(rows[n - 1])) else None;
    QueryIsPart(table, show, c, 2, h);
    var found := Filter(rows, PastCursor(c, h));
    CutTake(found, 1, h);
    assert rows[n..n + 1][0] == rows[n];
    assert found != [] && found[0] == rows[n];
    NoRepeat(rows, n, h);
    FilterAll(rows, h);
    assert found[0] in found;
  }

  /** No page holds more than one row, and a page with a successor names its last row. */
  ghost predicate SingleRows(get: Source, h: Host) {
    forall cursor :: var page := get(cursor);
      |page.items| <= 1 && (page.next.Some? ==> page.items != [] && page.next == Some(Print(page.items[0], h)))
  }

  lemma OneRowPages(table: seq<Asset>, show: Asset -> bool, h: Host)
    ensures SingleRows(Pages(table, show, 1, h), h)
  {
  }

  lemma StepGoesOn(get: Source, rows: seq<Asset>, n: nat, fuel: nat, h: Host)
    requires SingleRows(get, h) && n < |rows|
    requires Walk(get, CursorAfter(rows, n, h), fuel) == (rows[n..], true)
    ensures rows[n..n + 1] <= get(CursorAfter(rows, n, h)).items
    ensures n + 1 < |rows| ==>
              fuel > 0 && Walk(get, CursorAfter(rows, n + 1, h), fuel - 1) == (rows[n + 1..], true)
  {
    var page := get(CursorAfter(rows, n, h));
    assert rows[n..][0] == rows[n];
    if n + 1 < |rows| {
      assert |rows[n..]| >= 2;
      assert page.next.Some?;
      var rest := Walk(get, page.next, fuel - 1);
      assert page.items == rows[n..][..1] && rest.0 == rows[n..][1..];
      assert rows[n..][1..] == rows[n + 1..];
    }
  }

  /** A page that starts with the next row only comes from a good cursor. */
  ghost predicate OnlyGoodSteps(get: Source, rows: seq<Asset>, h: Host) {
    forall n | 0 < n < |rows| ::
      rows[n..n + 1] <= get(CursorAfter(rows, n, h)).items ==> Follows(rows[n - 1], rows[n], h)
  }

  lemma {:induction false} GoodFrom(get: Source, rows: seq<Asset>, n: nat, fuel: nat, h: Host)
    requires SingleRows(get, h) && OnlyGoodSteps(get, rows, h)
    requires n < |rows| && Walk(get, CursorAfter(rows, n, h), fuel) == (rows[n..], true)
    ensures forall i | n <= i < |rows| - 1 :: Follows(rows[i], rows[i + 1], h)
    decreases |rows| - n
  {
    if n + 1 < |rows| {
      StepGoesOn(get, rows, n, fuel, h);
      StepGoesOn(get, rows, n + 1, fuel - 1, h);
      assert Follows(rows[n + 1 - 1], rows[n + 1], h);
      GoodFrom(get, rows, n + 1, fuel - 1, h);
    }
  }

  /** Following the cursors ends and yields the plain list, each row once and in order. */
  ghost predicate WalkYieldsList(table: seq<Asset>, show: Asset -> bool, limit: nat, h: Host) {
    exists fuel :: Walk(Pages(table, show, limit, h), None, fuel) == (Listing(table, show, h), true)
  }

  lemma WalkedListing(table: seq<Asset>, show: Asset -> bool, h: Host)
    requires SoundHost(h) && Unique(table) && WalkYieldsList(table, show, 1, h)
    ensures Walkable(Listing(table, show, h), h)
  {
    var rows, get := Listing(table, show, h), Pages(table, show, 1, h);
    var fuel :| Walk(get, None, fuel) == (rows, true);
    if rows != [] {
      OneRowPages(table, show, h);
      forall n | 0 < n < |rows| && rows[n..n + 1] <= get(CursorAfter(rows, n, h)).items
        ensures Follows(rows[n - 1], rows[n], h)
      {
        StepIsGood(table, show, rows, n, h);
      }
      GoodFrom(get, rows, 0, fuel, h);
    }
  }

  /** Paging is right for every page size the router allows exactly when every row of the
      list is followed by one its cursor lets through. */
  lemma PagingIsRight(table: seq<Asset>, show: Asset -> bool, h: Host)
    requires SoundHost(h) && Unique(table)
    ensures (forall limit | 1 <= limit <= 100 :: WalkYieldsList(table, show, limit, h))
            <==> Walkable(Listing(table, show, h), h)
  {
    if Walkable(Listing(table, show, h), h) {
      forall limit | 1 <= limit <= 100 ensures WalkYieldsList(table, show, limit, h) {
        WalkListing(table, show, limit, h);
      }
    }
    if WalkYieldsList(table, show, 1, h) {
      WalkedListing(table, show, h);
    }
  }

  lemma NextMilliFollows(a: Asset, b: Asset, h: Host)
    requires Clean(a) && Before(a, b, h) && Millis(a.createdAt) != Millis(b.createdAt)
    ensures Follows(a, b, h)
  {
  }

  /** In particular it is right when all shown rows are clean and no two of them fall into
      the same millisecond. */
  lemma DistinctMillisSuffice(table: seq<Asset>, show: Asset -> bool, limit: nat, h: Host)
    requires SoundHost(h) && Unique(table) && 1 <= limit
    requires forall r | r in table && show(r) :: Clean(r)
    requires forall r, s | r in table && s in table && show(r) && show(s) && r != s ::
               Millis(r.createdAt) != Millis(s.createdAt)
    ensures WalkYieldsList(table, show, limit, h)
  {
    var rows := Listing(table, show, h);
    ListingFacts(table, show, h);
    forall i | 0 <= i < |rows| - 1 ensures Follows(rows[i], rows[i + 1], h) {
      assert rows[i] in rows && rows[i + 1] in rows;
      NextMilliFollows(rows[i], rows[i + 1], h);
    }
    WalkListing(table, show, limit, h);
  }

  lemma TieDoesNotFollow(a: Asset, b: Asset, h: Host)
    requires TotalOrder(h.lt) && Before(a, b, h) && a.createdAt == b.createdAt
    ensures !Follows(a, b, h)
  {
  }

  /** And it is wrong for every listing with two neighbours created at the same instant. */
  lemma TiesBreakPaging(table: seq<Asset>, show: Asset -> bool, i: nat, h: Host)
    requires SoundHost(h) && Unique(table)
    requires var rows := Listing(table, show, h); i + 1 < |rows| && rows[i].createdAt == rows[i + 1].createdAt
    ensures !WalkYieldsList(table, show, 1, h)
  {
    var rows := Listing(table, show, h);
    ListingFacts(table, show, h);
    TieDoesNotFollow(rows[i], rows[i + 1], h);
    if WalkYieldsList(table, show, 1, h) {
      WalkedListing(table, show, h);
      assert false;
    }
  }

  // ----- The tabs -----

  /** What a request shows: the rows of its tab whose name its query matches. */
  function Shown(tab: Tab, named: string -> bool): Asset -> bool {
    (r: Asset) => TabFilter(tab)(r) && named(r.name)
  }

  /** The count shown beside a tab. */
  function CountOf(table: seq<Asset>, tab: Tab): nat {
    |Filter(table, TabFilter(tab))|
  }

  /** Each tab lists as many rows as its count says, and walking a tab yields exactly its rows
      that the query matches, each once, under the conditions above. */
  lemma TabIsWalked(table: seq<Asset>, tab: Tab, named: string -> bool, limit: nat, h: Host)
    requires SoundHost(h) && Unique(table) && 1 <= limit <= 100
    requires Walkable(Listing(table, Shown(tab, named), h), h)
    ensures |Listing(table, TabFilter(tab), h)| == CountOf(table, tab)
    ensures WalkYieldsList(table, Shown(tab, named), limit, h)
    ensures forall r :: r in Listing(table, Shown(tab, named), h) <==>
              && r in table && named(r.name)
              && (tab == Artifact ==> r.source == "artifact")
              && (tab == Image ==> "image/" <= r.mime)
              && (tab == File ==> r.source in {"upload", "direct_upload"} && !("image/" <= r.mime))
  {
    SortMembers(Filter(table, TabFilter(tab)), h);
    WalkListing(table, Shown(tab, named), limit, h);
    ListingFacts(table, Shown(tab, named), h);
  }
}
