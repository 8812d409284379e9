/** The cursor-paged listing of a CA view against the full listing of it. */
module ObservationPaging {
  import opened Wrappers

  /** A row of a view: the request id, its normalised status and what is
      observed of it. */
  datatype Row = Row(id: int, status: string, observation: string)

  const PAGE := 500
  const MAX_PAGES := 100

  ghost predicate Ascending(rows: seq<Row>) {
    forall i, j :: 0 <= i < j < |rows| ==> rows[i].id < rows[j].id
  }

  ghost predicate DistinctIds(rows: seq<Row>) {
    forall i, j :: 0 <= i < j < |rows| ==> rows[i].id != rows[j].id
  }

  predicate From(r: Row, cursor: Option<int>) {
    cursor.None? || r.id >= cursor.value
  }

  /** certutil restricted to ids from the cursor on: those rows, in any order. */
  ghost predicate IsAnswer(view: seq<Row>, cursor: Option<int>, rows: seq<Row>) {
    DistinctIds(rows) && forall r :: r in rows <==> r in view && From(r, cursor)
  }

  // -------------------------------------------------------------- sorting

  function Insert(x: Row, rows: seq<Row>): seq<Row> {
    if rows == [] || x.id <= rows[0].id then [x] + rows else [rows[0]] + Insert(x, rows[1..])
  }

  function SortRows(rows: seq<Row>): seq<Row> {
    if rows == [] then [] else Insert(rows[0], SortRows(rows[1..]))
  }

  lemma {:induction false} InsertExact(x: Row, rows: seq<Row>)
    requires Ascending(rows) && forall i :: 0 <= i < |rows| ==> rows[i].id != x.id
    ensures Ascending(Insert(x, rows)) && |Insert(x, rows)| == |rows| + 1
    ensures forall r :: r in Insert(x, rows) <==> r == x || r in rows
  {
    if rows != [] && x.id > rows[0].id {
      InsertExact(x, rows[1..]);
      var rest := Insert(x, rows[1..]);
      forall j | 0 <= j < |rest| ensures rows[0].id < rest[j].id {
        assert rest[j] in rest;
      }
      assert rows == [rows[0]] + rows[1..];
    }
  }

  lemma {:induction false} SortExact(rows: seq<Row>)
    requires DistinctIds(rows)
    ensures Ascending(SortRows(rows)) && |SortRows(rows)| == |rows|
    ensures forall r :: r in SortRows(rows) <==> r in rows
  {
    if rows != [] {
      SortExact(rows[1..]);
      forall i | 0 <= i < |SortRows(rows[1..])| ensures SortRows(rows[1..])[i].id != rows[0].id {
        assert SortRows(rows[1..])[i] in rows[1..];
      }
      InsertExact(rows[0], SortRows(rows[1..]));
      assert rows == [rows[0]] + rows[1..];
    }
  }

  lemma HeadIsLeast(rows: seq<Row>, r: Row)
    requires Ascending(rows) && r in rows
    ensures rows[0].id <= r.id
  {
    var i :| 0 <= i < |rows| && rows[i] == r;
  }

  /** An ascending listing is determined by what it lists. */
  lemma {:induction false} AscendingUnique(a: seq<Row>, b: seq<Row>)
    requires Ascending(a) && Ascending(b) && forall r :: r in a <==> r in b
    ensures a == b
  {
    assert a != [] ==> a[0] in b;
    assert b != [] ==> b[0] in a;
    if a != [] {
      HeadIsLeast(a, b[0]);
      HeadIsLeast(b, a[0]);
      SameHead(a, b);
      var x, y := a[1..], b[1..];
      forall r ensures r in x <==> r in y {
        TailMember(a, r);
        TailMember(b, r);
      }
      AscendingUnique(x, y);
      assert a == [a[0]] + x && b == [b[0]] + y;
    }
  }

  lemma SameHead(a: seq<Row>, b: seq<Row>)
    requires a != [] && Ascending(b) && a[0] in b && b != [] && a[0].id == b[0].id
    ensures a[0] == b[0]
  {
    var i :| 0 <= i < |b| && b[i] == a[0];
  }

  lemma TailMember(a: seq<Row>, r: Row)
    requires a != [] && Ascending(a)
    ensures r in a[1..] <==> r in a && r != a[0]
  {
    assert a == [a[0]] + a[1..];
    if r in a[1..] {
      var i :| 0 <= i < |a[1..]| && a[1..][i] == r;
      assert a[i + 1] == r;
    }
  }

  // ------------------------------------------------------------- filtering

  /** The object types that are listed: every request, or only issued or only
      revoked ones. */
  predicate Wanted(kind: string, r: Row) {
    && (kind == "issuance" ==> r.status == "issued")
    && (kind == "revocation" ==> r.status == "revoked")
  }

  function Filter(kind: string, rows: seq<Row>): seq<Row> {
    if rows == [] then []
    else (if Wanted(kind, rows[0]) then [rows[0]] else []) + Filter(kind, rows[1..])
  }

  lemma {:induction false} FilterExact(kind: string, rows: seq<Row>)
    requires Ascending(rows)
    ensures Ascending(Filter(kind, rows)) && forall r :: r in Filter(kind, rows) <==> r in rows && Wanted(kind, r)
  {
    if rows != [] {
      hide Wanted;
      FilterExact(kind, rows[1..]);
      var rest := Filter(kind, rows[1..]);
      forall j | 0 <= j < |rest| ensures rows[0].id < rest[j].id {
        assert rest[j] in rows[1..];
      }
      assert rows == [rows[0]] + rows[1..];
    }
  }

  /** The full listing of a view: its wanted rows in ascending order. */
  ghost predicate IsListing(view: seq<Row>, kind: string, listing: seq<Row>) {
    Ascending(listing) && forall r :: r in listing <==> r in view && Wanted(kind, r)
  }

  function CursorAt(listing: seq<Row>, n: nat): Option<int>
    requires n <= |listing|
  {
    if n == 0 then None else Some(listing[n - 1].id + 1)
  }

  /** The answer from just past a listed row is the rest of the listing. */
  lemma AnswerIsSuffix(view: seq<Row>, kind: string, all: seq<Row>, n: nat, rows: seq<Row>)
    requires IsListing(view, kind, all) && n <= |all| && IsAnswer(view, CursorAt(all, n), rows)
    ensures Filter(kind, SortRows(rows)) == all[n..]
  {
    SortExact(rows);
    FilterExact(kind, SortRows(rows));
    hide Wanted;
    var suffix := all[n..];
    forall r ensures r in suffix <==> r in Filter(kind, SortRows(rows)) {
      if r in suffix {
        var i :| 0 <= i < |suffix| && suffix[i] == r;
        assert all[n + i] == r;
      }
      if r in all {
        var i :| 0 <= i < |all| && all[i] == r;
        if i >= n { assert suffix[i - n] == r; }
      }
    }
    AscendingUnique(Filter(kind, SortRows(rows)), suffix);
  }

  // ------------------------------------------------------------- the code

  datatype Page = Page(records: seq<Row>, complete: bool, next: Option<int>)

  /** projectAdcsListRows: sort, filter, cut to the limit, and point past the
      last row when something was cut. */
  function ProjectRows(kind: string, rows: seq<Row>, limit: nat): Page {
    var filtered := Filter(kind, SortRows(rows));
    if |filtered| <= limit then Page(filtered, true, None)
    else
      var cut := filtered[..limit];
      Page(cut, false, if cut == [] then None else Some(cut[|cut| - 1].id + 1))
  }

  /** For every object type, each page is the next stretch of the listing. */
  lemma PageIsStretch(view: seq<Row>, kind: string, listing: seq<Row>, n: nat, rows: seq<Row>, limit: nat)
    requires IsListing(view, kind, listing) && n <= |listing| && limit > 0 && IsAnswer(view, CursorAt(listing, n), rows)
    ensures ProjectRows(kind, rows, limit) ==
            if |listing| <= n + limit then Page(listing[n..], true, None)
            else Page(listing[n..n + limit], false, CursorAt(listing, n + limit))
  {
    AnswerIsSuffix(view, kind, listing, n, rows);
    hide IsListing, IsAnswer, Filter, SortRows;
    if |listing| > n + limit {
      assert listing[n..][..limit] == listing[n..n + limit];
    }
  }

  /** What a page adds to the rows collected so far, and where it points. */
  lemma NextPage(view: seq<Row>, kind: string, listing: seq<Row>, n: nat, rows: seq<Row>, limit: nat)
    requires IsListing(view, kind, listing) && n <= |listing| && limit > 0 && IsAnswer(view, CursorAt(listing, n), rows)
    ensures var page := ProjectRows(kind, rows, limit);
            && (page.complete <==> |listing| <= n + limit)
            && listing[..n] + page.records == (if page.complete then listing else listing[..n + limit])
            && (!page.complete ==> page.next == CursorAt(listing, n + limit) && page.next.Some?
                                   && (n > 0 ==> CursorAt(listing, n).value < page.next.value))
  {
    PageIsStretch(view, kind, listing, n, rows, limit);
    hide ProjectRows, IsAnswer, Wanted;
  }

  // ------------------------------------------------------------ the scan

  datatype Listing = Listed(rows: seq<Row>) | Failed(reason: string)

  ghost predicate Increasing(cursors: seq<int>) {
    forall i, j :: 0 <= i < j < |cursors| ==> cursors[i] < cursors[j]
  }

  lemma IncreasingSnoc(cursors: seq<int>, next: int)
    requires Increasing(cursors) && (cursors != [] ==> cursors[|cursors| - 1] < next)
    ensures Increasing(cursors + [next])
  {
  }

  /** Each cursor points just past a page of the given size. */
  ghost predicate PagedBy(listing: seq<Row>, cursors: seq<int>, size: nat) {
    forall i :: 0 <= i < |cursors| ==> size * (i + 1) <= |listing| && CursorAt(listing, size * (i + 1)) == Some(cursors[i])
  }

  lemma PagedSnoc(listing: seq<Row>, cursors: seq<int>, size: nat)
    requires PagedBy(listing, cursors, size)
    ensures var n := size * (|cursors| + 1);
            n <= |listing| && CursorAt(listing, n).Some? ==> PagedBy(listing, cursors + [CursorAt(listing, n).value], size)
  {
    hide CursorAt;
  }

  lemma RequestListing(view: seq<Row>)
    requires DistinctIds(view)
    ensures IsListing(view, "request", SortRows(view)) && CursorAt(SortRows(view), 0) == None && |SortRows(view)| == |view|
  {
    SortExact(view);
  }

  lemma ListsAll(view: seq<Row>, listing: seq<Row>)
    requires IsListing(view, "request", listing)
    ensures Ascending(listing) && forall x :: x in listing <==> x in view
  {
  }

  /** collectAdcsCertutilObservationView over an unchanged view: the whole view
      in ascending order, each row once, or an error when it is over the limit
      of 50,000 rows; the cursors strictly increase. */
  method CollectView(ghost view: seq<Row>, certutil: Option<int> -> seq<Row>) returns (r: Listing, ghost cursors: seq<int>)
    requires DistinctIds(view) && forall c :: IsAnswer(view, c, certutil(c))
    ensures r.Listed? <==> |view| <= 50000
    ensures r.Listed? ==> Ascending(r.rows) && |r.rows| == |view| && forall x :: x in r.rows <==> x in view
    ensures Increasing(cursors) && |cursors| <= 100 && PagedBy(SortRows(view), cursors, 500)
  {
    ghost var listing := SortRows(view);
    RequestListing(view);
    cursors := [];
    assert Increasing(cursors) && PagedBy(listing, cursors, PAGE);
    hide PagedBy, SortRows, ProjectRows, IsAnswer, DistinctIds, Ascending, CursorAt, IsListing, Increasing;
    var all: seq<Row> := [];
    var cursor: Option<int> := None;
    ghost var n := 0;
    for page := 0 to MAX_PAGES
      invariant n == PAGE * page && n <= |listing| && (page > 0 ==> n < |listing|)
      invariant all == listing[..n] && cursor == CursorAt(listing, n) && (cursor.None? <==> n == 0)
      invariant Increasing(cursors) && (cursors != [] ==> n > 0 && cursors[|cursors| - 1] == cursor.value)
      invariant |cursors| == page && PagedBy(listing, cursors, PAGE)
    {
      assert IsAnswer(view, cursor, certutil(cursor));
      NextPage(view, "request", listing, n, certutil(cursor), PAGE);
      var result := ProjectRows("request", certutil(cursor), PAGE);
      all := all + result.records;
      if result.complete {
        ListsAll(view, listing);
        return Listed(all), cursors;
      }
      var next := result.next;
      if next.None? || next == cursor { return Failed("cursor invalid"), cursors; }
      IncreasingSnoc(cursors, next.value);
      PagedSnoc(listing, cursors, PAGE);
      cursor := next;
      cursors := cursors + [cursor.value];
      n := n + PAGE;
    }
    r := Failed("too many pages");
  }
}
