/** Cursor pagination of the library: the listing query (src/db/library-queries.ts) and the
    paging of `GET /` (src/routes/library-router.ts). */
module LibraryPaging {
  import opened Text
  import opened Wrappers

  /** A row of the view; `createdAt` counts microseconds. */
  datatype Asset = Asset(source: string, id: string, createdAt: int, mime: string, name: string)

  /** What the database and the date functions supply: the string order, and the printing
      and reading of time stamps. */
  datatype Host = Host(lt: (string, string) -> bool, iso: int -> string, read: string -> int)

  ghost predicate TotalOrder(lt: (string, string) -> bool) {
    && (forall a :: !lt(a, a))
    && (forall a, b, c :: lt(a, b) && lt(b, c) ==> lt(a, c))
    && (forall a, b :: a == b || lt(a, b) || lt(b, a))
  }

  /** Printed time stamps read back, are not empty and hold no bar. */
  ghost predicate SoundHost(h: Host) {
    && TotalOrder(h.lt)
    && forall t :: h.iso(t) != "" && '|' !in h.iso(t) && (t % 1000 == 0 ==> h.read(h.iso(t)) == t)
  }

  // ----- The listing query -----

  datatype Tab = All | Artifact | Image | File

  function TabFilter(tab: Tab): Asset -> bool {
    match tab
    case All => (r: Asset) => true
    case Artifact => (r: Asset) => r.source == "artifact"
    case Image => (r: Asset) => "image/" <= r.mime
    case File => (r: Asset) => r.source in {"upload", "direct_upload"} && !("image/" <= r.mime)
  }

  datatype Cursor = Cursor(createdAt: int, source: string, id: string)

  predicate KeyLess(s: string, i: string, t: string, j: string, h: Host) {
    h.lt(s, t) || (s == t && h.lt(i, j))
  }

  /** `(created_at, source, asset_id) < cursor` */
  predicate Below(r: Asset, c: Cursor, h: Host) {
    r.createdAt < c.createdAt || (r.createdAt == c.createdAt && KeyLess(r.source, r.id, c.source, c.id, h))
  }

  /** `ORDER BY created_at DESC, source ASC, asset_id ASC` */
  predicate Before(a: Asset, b: Asset, h: Host) {
    a.createdAt > b.createdAt || (a.createdAt == b.createdAt && KeyLess(a.source, a.id, b.source, b.id, h))
  }

  function Filter(rows: seq<Asset>, p: Asset -> bool): (kept: seq<Asset>)
    ensures forall r | r in kept :: r in rows && p(r)
    ensures forall r | r in rows && p(r) :: r in kept
  {
    if rows == [] then []
    else if p(rows[0]) then [rows[0]] + Filter(rows[1..], p)
    else Filter(rows[1..], p)
  }

  function Insert(r: Asset, rows: seq<Asset>, h: Host): seq<Asset> {
    if rows == [] || Before(r, rows[0], h) then [r] + rows else [rows[0]] + Insert(r, rows[1..], h)
  }

  function Sort(rows: seq<Asset>, h: Host): seq<Asset> {
    if rows == [] then [] else Insert(rows[0], Sort(rows[1..], h), h)
  }

  function Take(rows: seq<Asset>, n: nat): seq<Asset> {
    if |rows| <= n then rows else rows[..n]
  }

  function Past(show: Asset -> bool, c: Option<Cursor>, h: Host): Asset -> bool {
    (r: Asset) => show(r) && (c.Some? ==> Below(r, c.value, h))
  }

  function ListAssets(table: seq<Asset>, show: Asset -> bool, c: Option<Cursor>, limit: nat, h: Host): seq<Asset> {
    Take(Sort(Filter(table, Past(show, c, h)), h), limit)
  }

  // ----- Cursors as text -----

  /** Time stamps are printed with milliseconds only. */
  function Millis(t: int): int {
    t - t % 1000
  }

  function Print(r: Asset, h: Host): string {
    h.iso(Millis(r.createdAt)) + "|" + r.source + "|" + r.id
  }

  /** A text that is not three parts, none of them empty, counts as no cursor at all. */
  function Parse(text: string, h: Host): Option<Cursor> {
    var parts := SplitOn(text, '|');
    if |parts| == 3 && parts[0] != "" && parts[1] != "" && parts[2] != ""
    then Some(Cursor(h.read(parts[0]), parts[1], parts[2]))
    else None
  }

  // ----- Pages -----

  datatype Page = Page(items: seq<Asset>, next: Option<string>)

  /** One row more than asked for tells that there is a next page. */
  function Cut(rows: seq<Asset>, limit: nat, h: Host): Page {
    var hasMore := |rows| > limit;
    var items := if hasMore then rows[..limit] else rows;
    Page(items, if hasMore && items != [] then Some(Print(items[|items| - 1], h)) else None)
  }

  function GetPage(table: seq<Asset>, show: Asset -> bool, cursor: Option<string>, limit: nat, h: Host): Page {
    var c := match cursor case None => None case Some(text) => Parse(text, h);
    Cut(ListAssets(table, show, c, limit + 1, h), limit, h)
  }

  type Source = Option<string> -> Page

  /** The pages of one list as a client sees them: a page for every cursor. */
  function Pages(table: seq<Asset>, show: Asset -> bool, limit: nat, h: Host): Source {
    (cursor: Option<string>) => GetPage(table, show, cursor, limit, h)
  }

  /** Follow `nextCursor` for at most `fuel` pages; the flag tells that it ran out. */
  function Walk(get: Source, cursor: Option<string>, fuel: nat): (seq<Asset>, bool)
    decreases fuel
  {
    if fuel == 0 then ([], false)
    else
      var page := get(cursor);
      if page.next.None? then (page.items, true)
      else
        var rest := Walk(get, page.next, fuel - 1);
        (page.items + rest.0, rest.1)
  }

  /** Each cursor is the one that the page of the one before names. */
  ghost predicate Chain(get: Source, cursors: seq<Option<string>>) {
    |cursors| > 1 ==> get(cursors[0]).next.Some? && cursors[1] == get(cursors[0]).next && Chain(get, cursors[1..])
  }

  /** The items of the pages of all these cursors. */
  function ItemsOf(get: Source, cursors: seq<Option<string>>): seq<Asset> {
    if cursors == [] then [] else get(cursors[0]).items + ItemsOf(get, cursors[1..])
  }

  /** What a walk is: the pages along the chain of cursors, up to the first that names no other, and
      done exactly if it comes to that one. */
  lemma {:induction false} WalkFollows(get: Source, cursor: Option<string>, fuel: nat) returns (cursors: seq<Option<string>>)
    ensures |cursors| <= fuel && Chain(get, cursors) && (fuel > 0 ==> cursors != [] && cursors[0] == cursor)
    ensures var (items, done) := Walk(get, cursor, fuel);
            && items == ItemsOf(get, cursors)
            && (done <==> cursors != [] && get(cursors[|cursors| - 1]).next.None?)
            && (!done ==> |cursors| == fuel)
    decreases fuel
  {
    cursors := [];
    if fuel > 0 {
      var page, rest := get(cursor), [];
      if page.next.Some? {
        rest := WalkFollows(get, page.next, fuel - 1);
      }
      cursors := [cursor] + rest;
      assert cursors[1..] == rest;
    }
  }

  // ----- Sorting -----

  ghost predicate Sorted(rows: seq<Asset>, h: Host) {
    forall i, j | 0 <= i < j < |rows| :: Before(rows[i], rows[j], h)
  }

  /** No two rows have the same key. */
  ghost predicate Unique(rows: seq<Asset>) {
    forall i, j | 0 <= i < j < |rows| :: rows[i].source != rows[j].source || rows[i].id != rows[j].id
  }

  lemma {:induction false} InsertMembers(r: Asset, rows: seq<Asset>, h: Host)
    ensures |Insert(r, rows, h)| == |rows| + 1
    ensures forall x :: x in Insert(r, rows, h) <==> x == r || x in rows
  {
    if rows != [] && !Before(r, rows[0], h) {
      InsertMembers(r, rows[1..], h);
    }
  }

  lemma {:induction false} SortMembers(rows: seq<Asset>, h: Host)
    ensures |Sort(rows, h)| == |rows|
    ensures forall x :: x in Sort(rows, h) <==> x in rows
  {
    if rows != [] {
      SortMembers(rows[1..], h);
      InsertMembers(rows[0], Sort(rows[1..], h), h);
    }
  }

  lemma BeforeTransitive(a: Asset, b: Asset, c: Asset, h: Host)
    requires TotalOrder(h.lt) && Before(a, b, h) && Before(b, c, h)
    ensures Before(a, c, h)
  {
  }

  lemma {:induction false} InsertSorted(r: Asset, rows: seq<Asset>, h: Host)
    requires TotalOrder(h.lt) && Sorted(rows, h)
    requires forall x | x in rows :: x.source != r.source || x.id != r.id
    ensures Sorted(Insert(r, rows, h), h)
  {
    if rows != [] {
      if Before(r, rows[0], h) {
        forall j | 0 <= j < |rows| ensures Before(r, rows[j], h) {
          if j > 0 { BeforeTransitive(r, rows[0], rows[j], h); }
        }
      } else {
        InsertSorted(r, rows[1..], h);
        InsertMembers(r, rows[1..], h);
        forall x | x in Insert(r, rows[1..], h) ensures Before(rows[0], x, h) {
        }
      }
    }
  }

  lemma {:induction false} SortSorts(rows: seq<Asset>, h: Host)
    requires TotalOrder(h.lt) && Unique(rows)
    ensures Sorted(Sort(rows, h), h)
  {
    if rows != [] {
      SortSorts(rows[1..], h);
      SortMembers(rows[1..], h);
      InsertSorted(rows[0], Sort(rows[1..], h), h);
    }
  }

  lemma {:induction false} FilterUnique(rows: seq<Asset>, p: Asset -> bool)
    requires Unique(rows)
    ensures Unique(Filter(rows, p))
  {
    if rows != [] {
      FilterUnique(rows[1..], p);
      var kept := Filter(rows[1..], p);
      forall j | 0 <= j < |kept| ensures rows[0].source != kept[j].source || rows[0].id != kept[j].id {
        assert kept[j] in kept;
        var k :| 0 <= k < |rows[1..]| && rows[1..][k] == kept[j];
        assert rows[k + 1] == kept[j];
      }
    }
  }

  lemma FilterFirst(r: Asset, rows: seq<Asset>, p: Asset -> bool, h: Host)
    requires TotalOrder(h.lt) && Sorted(rows, h)
    requires rows != [] ==> Before(r, rows[0], h)
    ensures Insert(r, Filter(rows, p), h) == [r] + Filter(rows, p)
  {
    var kept := Filter(rows, p);
    if kept != [] {
      assert kept[0] in kept;
      var i :| 0 <= i < |rows| && rows[i] == kept[0];
      if i > 0 { BeforeTransitive(r, rows[0], rows[i], h); }
    }
  }

  lemma FilterCons(r: Asset, rows: seq<Asset>, p: Asset -> bool)
    ensures Filter([r] + rows, p) == if p(r) then [r] + Filter(rows, p) else Filter(rows, p)
  {
    assert ([r] + rows)[1..] == rows;
  }

  lemma InsertCons(r: Asset, x: Asset, rows: seq<Asset>, h: Host)
    requires !Before(r, x, h)
    ensures Insert(r, [x] + rows, h) == [x] + Insert(r, rows, h)
  {
    assert ([x] + rows)[1..] == rows;
  }

  lemma {:induction false} FilterInsert(r: Asset, rows: seq<Asset>, p: Asset -> bool, h: Host)
    requires TotalOrder(h.lt) && Sorted(rows, h)
    ensures Filter(Insert(r, rows, h), p) == if p(r) then Insert(r, Filter(rows, p), h) else Filter(rows, p)
  {
    if rows == [] || Before(r, rows[0], h) {
      FilterCons(r, rows, p);
      FilterFirst(r, rows, p, h);
    } else {
      FilterInsert(r, rows[1..], p, h);
      FilterCons(rows[0], Insert(r, rows[1..], h), p);
      if p(rows[0]) {
        InsertCons(r, rows[0], Filter(rows[1..], p), h);
      }
    }
  }

  /** Filtering before sorting is filtering after it. */
  lemma {:induction false} FilterSort(rows: seq<Asset>, p: Asset -> bool, h: Host)
    requires TotalOrder(h.lt) && Unique(rows)
    ensures Filter(Sort(rows, h), p) == Sort(Filter(rows, p), h)
  {
    if rows != [] {
      var tail := rows[1..];
      FilterSort(tail, p, h);
      SortSorts(tail, h);
      FilterInsert(rows[0], Sort(tail, h), p, h);
      SortCons(rows[0], Filter(tail, p), h);
    }
  }

  lemma SortCons(r: Asset, rows: seq<Asset>, h: Host)
    ensures Sort([r] + rows, h) == Insert(r, Sort(rows, h), h)
  {
    assert ([r] + rows)[1..] == rows;
  }
}
