/** Following nextCursor page by page, over a table that may change between requests. */
module KeysetWalk {
  import opened Schema
  import opened Cursor
  import opened Paginate

  /** The pages of a walk: request i reads the table as it is then, with its own filter record. */
  ghost function Follow(q: Listing, tables: seq<set<Row>>, filters: seq<Filters>, cursor: Option<Wire>)
    : Option<seq<Page>>
    requires 1 <= q.limit && |filters| == |tables|
    requires forall i :: 0 <= i < |tables| ==> TableOk(tables[i])
    decreases |tables|
  {
    if tables == [] then Some([])
    else
      var page := List(q, tables[0], cursor, filters[0]);
      if page.None? then None
      else if page.value.nextCursor.None? then Some([page.value])
      else
        var rest := Follow(q, tables[1..], filters[1..], page.value.nextCursor);
        if rest.None? then None else Some([page.value] + rest.value)
  }

  function Rows(pages: seq<Page>): seq<Row> {
    if pages == [] then [] else pages[0].data + Rows(pages[1..])
  }

  /** The walk reached a page without a next cursor. */
  predicate Complete(pages: seq<Page>) {
    pages != [] && pages[|pages| - 1].nextCursor.None?
  }

  /** Every request sends the same filters, built in whatever order. */
  ghost predicate SameFilters(filters: seq<Filters>, f: Filters) {
    && DistinctKeys(f)
    && forall i :: 0 <= i < |filters| ==> DistinctKeys(filters[i]) && forall k :: Lookup(filters[i], k) == Lookup(f, k)
  }

  /** The cursor a page would carry for a position, or none at the start. */
  ghost predicate CursorFor(q: Listing, f: Filters, cursor: Option<Wire>, from: Option<Position>) {
    match from
    case None => cursor.None?
    case Some(p) =>
      && p.id != "" && -MAX_DATE_MS <= p.at <= MAX_DATE_MS
      && cursor == Some(EncodeCursor(q.sortBy, q.direction, KNumber(p.at), p.id, q.hash(Normalized(f))))
  }

  /** The kept rows strictly after a position. */
  ghost function Remaining(q: Listing, table: set<Row>, from: Option<Position>): set<Row> {
    set r | r in table && q.keep(r) && (from.Some? ==> Before(from.value, Pos(r), q.direction))
  }

  ghost function RemainingSorted(q: Listing, table: set<Row>, from: Option<Position>): seq<Row>
    requires TableOk(table)
  {
    Sorted(Remaining(q, table, from), q.direction)
  }

  // ---------- one request ----------

  /** A request with the right cursor is never refused, and its page is the next stretch of the list. */
  lemma {:induction false} ListIsNextStretch(q: Listing, table: set<Row>, f: Filters, g: Filters, cursor: Option<Wire>,
                                             from: Option<Position>)
    requires TableOk(table) && 1 <= q.limit && SameFilters([g], f) && CursorFor(q, f, cursor, from)
    ensures var page, left := List(q, table, cursor, g), RemainingSorted(q, table, from);
            && page.Some?
            && page.value.data == (if |left| > q.limit then left[..q.limit] else left)
            && (page.value.nextCursor.None? <==> |left| <= q.limit)
            && (|left| > q.limit ==> CursorFor(q, f, page.value.nextCursor, Some(Pos(left[q.limit - 1]))))
  {
    var fp := q.hash(Normalized(f));
    assert [g][0] == g;
    FingerprintIsCanonical(g, f);
    var k := ResolveListContinuation(q, cursor, g);
    ContinuationIsAfter(q, f, g, cursor, from);
    SelectsRemaining(q, table, k.value, from);
    var left := RemainingSorted(q, table, from);
    FetchTrims(q, left, fp);
    hide DecodeCursor, Matches, Before, ResolveListContinuation, SameFilters, Sorted, Normalized, Selected,
         EncodeCursor, FetchPage;
    if |left| > q.limit {
      assert left[q.limit - 1] in left && left[q.limit - 1] in Remaining(q, table, from);
    }
  }

  /** The probe row is dropped, and the cursor is that of the last row kept. */
  lemma {:induction false} FetchTrims(q: Listing, left: seq<Row>, fp: string)
    requires 1 <= q.limit
    ensures var page := FetchPage(if |left| > q.limit + 1 then left[..q.limit + 1] else left, q.limit, q.sortBy,
                                  q.direction, fp);
            && page.data == (if |left| > q.limit then left[..q.limit] else left)
            && page.nextCursor == if |left| > q.limit then Some(EncodeRowCursor(left[q.limit - 1], q.sortBy,
               q.direction, fp)) else None
  {
    hide EncodeRowCursor;
    if |left| > q.limit {
      assert left[..q.limit + 1][..q.limit] == left[..q.limit];
    }
  }

  /** The continuation a right cursor resolves to keeps exactly the rows after its position. */
  lemma {:induction false} ContinuationIsAfter(q: Listing, f: Filters, g: Filters, cursor: Option<Wire>,
                                               from: Option<Position>)
    requires CursorFor(q, f, cursor, from) && Normalized(g) == Normalized(f)
    ensures var k := ResolveListContinuation(q, cursor, g);
            k == Some(if from.Some? then Some(BuildKeysetWhere(from.value.at, from.value.id, q.direction)) else None)
  {
    hide BuildKeysetWhere, Normalized;
    var fp := q.hash(Normalized(f));
    if from.Some? {
      RoundTrip(q.sortBy, q.direction, KNumber(from.value.at), from.value.id, fp,
                Expectation(q.sortBy, q.direction, fp));
      hide DecodeCursor, EncodeCursor;
    }
  }

  lemma {:induction false} SelectsRemaining(q: Listing, table: set<Row>, k: Option<Keyset>, from: Option<Position>)
    requires k == if from.Some? then Some(BuildKeysetWhere(from.value.at, from.value.id, q.direction)) else None
    ensures Selected(q, table, k) == Remaining(q, table, from)
  {
    hide BuildKeysetWhere, Matches, Before;
    if from.Some? {
      forall r: Row
        ensures Matches(k.value, Pos(r)) <==> Before(from.value, Pos(r), q.direction)
      {
        KeysetIsAfter(from.value.at, from.value.id, q.direction, Pos(r));
      }
    }
  }

  lemma {:induction false} SameFiltersTail(filters: seq<Filters>, f: Filters)
    requires filters != [] && SameFilters(filters, f)
    ensures SameFilters([filters[0]], f) && SameFilters(filters[1..], f)
  {
  }

  // ---------- the walk under change ----------

  /** Position `p` is held by a kept row of the table. */
  ghost predicate Present(q: Listing, table: set<Row>, p: Position) {
    exists r :: r in table && q.keep(r) && Pos(r) == p
  }

  ghost predicate Returned(rows: seq<Row>, p: Position) {
    exists r :: r in rows && Pos(r) == p
  }

  ghost predicate Beyond(q: Listing, from: Option<Position>, p: Position) {
    from.Some? ==> Before(from.value, p, q.direction)
  }

  ghost predicate StrictlyMonotone(rows: seq<Row>, direction: Direction) {
    forall i, j :: 0 <= i < j < |rows| ==> Before(Pos(rows[i]), Pos(rows[j]), direction)
  }

  /** Every returned row is kept and lies beyond the starting position. */
  ghost predicate OnlyKept(q: Listing, from: Option<Position>, rows: seq<Row>) {
    forall r :: r in rows ==> q.keep(r) && Beyond(q, from, Pos(r))
  }

  /** Every position beyond the start that is held in each of the first `n` tables is returned. */
  ghost predicate MissesNothing(q: Listing, tables: seq<set<Row>>, from: Option<Position>, n: nat, rows: seq<Row>)
    requires n <= |tables|
  {
    forall p :: Beyond(q, from, p) && (forall i :: 0 <= i < n ==> Present(q, tables[i], p)) ==> Returned(rows, p)
  }

  /** What a walk from a position delivers. */
  ghost predicate WalkOk(q: Listing, tables: seq<set<Row>>, from: Option<Position>, pages: seq<Page>) {
    && |pages| <= |tables|
    && StrictlyMonotone(Rows(pages), q.direction)
    && OnlyKept(q, from, Rows(pages))
    && (Complete(pages) ==> MissesNothing(q, tables, from, |pages|, Rows(pages)))
  }

  /** Rows of a walk from a position: no request is refused, keys move strictly forward, and every
      position held throughout a completed walk is returned. */
  lemma {:induction false} WalkFrom(q: Listing, tables: seq<set<Row>>, filters: seq<Filters>, f: Filters,
                                    cursor: Option<Wire>, from: Option<Position>)
    requires 1 <= q.limit && |filters| == |tables| && SameFilters(filters, f) && CursorFor(q, f, cursor, from)
    requires forall i :: 0 <= i < |tables| ==> TableOk(tables[i])
    ensures Follow(q, tables, filters, cursor).Some?
    ensures WalkOk(q, tables, from, Follow(q, tables, filters, cursor).value)
    decreases |tables|
  {
    hide List, SameFilters, CursorFor, RemainingSorted, WalkOk;
    if tables == [] {
      NoPages(q, from);
    } else {
      SameFiltersTail(filters, f);
      ListIsNextStretch(q, tables[0], f, filters[0], cursor, from);
      var left := RemainingSorted(q, tables[0], from);
      var page := List(q, tables[0], cursor, filters[0]).value;
      if |left| <= q.limit {
        LastPage(q, tables, from, page);
      } else {
        WalkFrom(q, tables[1..], filters[1..], f, page.nextCursor, Some(Pos(left[q.limit - 1])));
        MorePages(q, tables, from, page, Follow(q, tables[1..], filters[1..], page.nextCursor).value);
      }
    }
  }

  lemma {:induction false} NoPages(q: Listing, from: Option<Position>)
    ensures WalkOk(q, [], from, [])
  {
  }

  lemma {:induction false} LastPage(q: Listing, tables: seq<set<Row>>, from: Option<Position>, page: Page)
    requires tables != [] && TableOk(tables[0]) && page.data == RemainingSorted(q, tables[0], from)
    ensures WalkOk(q, tables, from, [page])
  {
    hide Before;
    assert [page][1..] == [] && Rows([page]) == page.data;
    forall p | Beyond(q, from, p) && Present(q, tables[0], p)
      ensures Returned(page.data, p)
    {
      var r :| r in tables[0] && q.keep(r) && Pos(r) == p;
      assert r in Remaining(q, tables[0], from);
    }
    assert forall p :: (forall i :: 0 <= i < 1 ==> Present(q, tables[i], p)) ==> Present(q, tables[0], p);
  }

  /** A page of `limit` rows, then a walk that starts after its last row. */
  ghost predicate PageThenRest(q: Listing, tables: seq<set<Row>>, from: Option<Position>, page: Page, rest: seq<Page>) {
    && tables != [] && TableOk(tables[0]) && 1 <= q.limit && page.nextCursor.Some?
    && var left := RemainingSorted(q, tables[0], from);
       && |left| > q.limit && page.data == left[..q.limit]
       && WalkOk(q, tables[1..], Some(Pos(left[q.limit - 1])), rest)
  }

  lemma {:induction false} MorePages(q: Listing, tables: seq<set<Row>>, from: Option<Position>, page: Page,
                                     rest: seq<Page>)
    requires PageThenRest(q, tables, from, page, rest)
    ensures WalkOk(q, tables, from, [page] + rest)
  {
    hide Before, StrictlyMonotone, OnlyKept, MissesNothing, RemainingSorted;
    var pages := [page] + rest;
    assert pages[1..] == rest;
    assert Rows(pages) == page.data + Rows(rest);
    MonotoneAcross(q, tables, from, page, rest);
    KeptAcross(q, tables, from, page, rest);
    assert |rest| <= |tables| - 1 by { RestFits(q, tables, from, page, rest); }
    if Complete(pages) && rest != [] {
      assert pages[|pages| - 1] == rest[|rest| - 1];
      NothingMissedAcross(q, tables, from, page, rest);
    }
  }

  lemma {:induction false} RestFits(q: Listing, tables: seq<set<Row>>, from: Option<Position>, page: Page,
                                    rest: seq<Page>)
    requires PageThenRest(q, tables, from, page, rest)
    ensures |rest| <= |tables| - 1
  {
  }

  lemma {:induction false} MonotoneAcross(q: Listing, tables: seq<set<Row>>, from: Option<Position>, page: Page,
                                          rest: seq<Page>)
    requires PageThenRest(q, tables, from, page, rest)
    ensures StrictlyMonotone(page.data + Rows(rest), q.direction)
  {
    hide Before, MissesNothing, Remaining;
    var left := RemainingSorted(q, tables[0], from);
    var last, all := left[q.limit - 1], page.data + Rows(rest);
    forall i, j | 0 <= i < j < |all|
      ensures Before(Pos(all[i]), Pos(all[j]), q.direction)
    {
      if i < q.limit <= j {
        assert all[j] == Rows(rest)[j - q.limit] && all[j] in Rows(rest);
        assert Beyond(q, Some(Pos(last)), Pos(all[j]));
        if i < q.limit - 1 {
          BeforeTrans(Pos(left[i]), Pos(last), Pos(all[j]), q.direction);
        }
      } else if q.limit <= i {
        assert all[i] == Rows(rest)[i - q.limit] && all[j] == Rows(rest)[j - q.limit];
      }
    }
  }

  lemma {:induction false} KeptAcross(q: Listing, tables: seq<set<Row>>, from: Option<Position>, page: Page,
                                      rest: seq<Page>)
    requires PageThenRest(q, tables, from, page, rest)
    ensures OnlyKept(q, from, page.data + Rows(rest))
  {
    hide Before, MissesNothing, StrictlyMonotone;
    var left := RemainingSorted(q, tables[0], from);
    var last := left[q.limit - 1];
    assert last in left;
    forall r | r in page.data + Rows(rest)
      ensures q.keep(r) && Beyond(q, from, Pos(r))
    {
      if r in page.data {
        assert r in left;
      } else if from.Some? {
        BeforeTrans(from.value, Pos(last), Pos(r), q.direction);
      }
    }
  }

  lemma {:induction false} NothingMissedAcross(q: Listing, tables: seq<set<Row>>, from: Option<Position>, page: Page,
                                               rest: seq<Page>)
    requires PageThenRest(q, tables, from, page, rest) && Complete(rest)
    ensures MissesNothing(q, tables, from, 1 + |rest|, page.data + Rows(rest))
  {
    hide Before, StrictlyMonotone, OnlyKept;
    var left := RemainingSorted(q, tables[0], from);
    var last := left[q.limit - 1];
    forall p | Beyond(q, from, p) && (forall i :: 0 <= i < 1 + |rest| ==> Present(q, tables[i], p))
      ensures Returned(page.data + Rows(rest), p)
    {
      assert Present(q, tables[0], p);
      var r :| r in tables[0] && q.keep(r) && Pos(r) == p;
      assert r in Remaining(q, tables[0], from) && r in left;
      var j :| 0 <= j < |left| && left[j] == r;
      if j < q.limit {
        assert page.data[j] == r;
        assert r in page.data + Rows(rest);
      } else {
        assert Beyond(q, Some(Pos(last)), p);
        forall i | 0 <= i < |rest|
          ensures Present(q, tables[1..][i], p)
        {
          assert Present(q, tables[i + 1], p);
        }
        assert Returned(Rows(rest), p);
        var x :| x in Rows(rest) && Pos(x) == p;
        assert x in page.data + Rows(rest);
      }
    }
  }

  /** The row stands in one of the tables. */
  ghost predicate Stood(tables: seq<set<Row>>, r: Row) {
    exists i :: 0 <= i < |tables| && r in tables[i]
  }

  lemma {:induction false} PageFromTable(q: Listing, table: set<Row>, cursor: Option<Wire>, g: Filters)
    requires TableOk(table) && 1 <= q.limit && List(q, table, cursor, g).Some?
    ensures forall r :: r in List(q, table, cursor, g).value.data ==> r in table
  {
    var k, fp := ResolveListContinuation(q, cursor, g).value, q.hash(Normalized(g));
    PageFromFound(FindRows(q, table, k), q, fp);
    FoundInTable(q, table, k);
    hide Matches, ResolveListContinuation, Normalized, FetchPage, FindRows;
  }

  lemma {:induction false} PageFromFound(found: seq<Row>, q: Listing, fp: string)
    requires 1 <= q.limit
    ensures forall r :: r in FetchPage(found, q.limit, q.sortBy, q.direction, fp).data ==> r in found
  {
    hide EncodeRowCursor;
  }

  lemma {:induction false} FoundInTable(q: Listing, table: set<Row>, k: Option<Keyset>)
    requires TableOk(table)
    ensures forall r :: r in FindRows(q, table, k) ==> r in table
  {
    hide Matches;
    var sorted := Sorted(Selected(q, table, k), q.direction);
    assert forall r :: r in sorted ==> r in table;
  }

  lemma {:induction false} WalkFromTables(q: Listing, tables: seq<set<Row>>, filters: seq<Filters>,
                                          cursor: Option<Wire>)
    requires 1 <= q.limit && |filters| == |tables|
    requires forall i :: 0 <= i < |tables| ==> TableOk(tables[i])
    requires Follow(q, tables, filters, cursor).Some?
    ensures forall r :: r in Rows(Follow(q, tables, filters, cursor).value) ==> Stood(tables, r)
    decreases |tables|
  {
    hide List;
    if tables != [] {
      PageFromTable(q, tables[0], cursor, filters[0]);
      var page := List(q, tables[0], cursor, filters[0]).value;
      assert [page][1..] == [] && Rows([page]) == page.data;
      if page.nextCursor.Some? {
        WalkFromTables(q, tables[1..], filters[1..], page.nextCursor);
        var rest := Follow(q, tables[1..], filters[1..], page.nextCursor).value;
        assert ([page] + rest)[1..] == rest;
        forall r | r in Rows(rest)
          ensures Stood(tables, r)
        {
          var i :| 0 <= i < |tables[1..]| && r in tables[1..][i];
          assert r in tables[i + 1];
        }
      }
    }
  }

  /** A row's sort key never changes: its creation instant. */
  ghost predicate KeysFixed(tables: seq<set<Row>>) {
    forall r, s :: Stood(tables, r) && Stood(tables, s) && r.id == s.id ==> r.at == s.at
  }

  /** Main result under change: with arbitrary inserts and deletes between requests, a walk from the
      first page is never refused, its keys are strictly monotone, no position comes twice (and no id,
      when sort keys never change), only kept rows are returned, and every row held throughout a completed walk is
      returned. */
  lemma {:induction false} WalkUnderChange(q: Listing, tables: seq<set<Row>>, filters: seq<Filters>, f: Filters)
    requires 1 <= q.limit && |filters| == |tables| && SameFilters(filters, f)
    requires forall i :: 0 <= i < |tables| ==> TableOk(tables[i])
    ensures Follow(q, tables, filters, None).Some?
    ensures var pages := Follow(q, tables, filters, None).value;
            && |pages| <= |tables|
            && StrictlyMonotone(Rows(pages), q.direction)
            && (forall i, j :: 0 <= i < j < |Rows(pages)| ==> Pos(Rows(pages)[i]) != Pos(Rows(pages)[j]))
            && (KeysFixed(tables) ==> forall i, j :: 0 <= i < j < |Rows(pages)| ==>
                  Rows(pages)[i].id != Rows(pages)[j].id)
            && (forall r :: r in Rows(pages) ==> q.keep(r) && Stood(tables, r))
            && (Complete(pages) ==>
                  forall p :: (forall i :: 0 <= i < |pages| ==> Present(q, tables[i], p)) ==> Returned(Rows(pages), p))
  {
    hide Before, Follow, SameFilters, Stood;
    WalkFrom(q, tables, filters, f, None, None);
    WalkFromTables(q, tables, filters, None);
    var rows := Rows(Follow(q, tables, filters, None).value);
    forall i, j | 0 <= i < j < |rows|
      ensures Pos(rows[i]) != Pos(rows[j])
      ensures KeysFixed(tables) ==> rows[i].id != rows[j].id
    {
      BeforeIrreflexive(Pos(rows[i]), q.direction);
      assert rows[i] in rows && rows[j] in rows;
    }
    assert forall p :: Beyond(q, None, p);
  }

  // ---------- the walk over a fixed table ----------

  /** Cutting a list into pages. */
  function Chunks(rows: seq<Row>, limit: nat): (chunks: seq<seq<Row>>)
    requires 1 <= limit
    ensures chunks != []
    decreases |rows|
  {
    if |rows| <= limit then [rows] else [rows[..limit]] + Chunks(rows[limit..], limit)
  }

  /** max(1, ceil(n / limit)) pages. */
  function PageCount(n: nat, limit: nat): nat
    requires 1 <= limit
  {
    if n == 0 then 1 else (n + limit - 1) / limit
  }

  lemma {:induction false} ChunkCount(rows: seq<Row>, limit: nat)
    requires 1 <= limit
    ensures |Chunks(rows, limit)| == PageCount(|rows|, limit)
    decreases |rows|
  {
    var n := |rows|;
    if n > limit {
      ChunkCount(rows[limit..], limit);
      CeilStep(n, limit);
    } else if n > 0 {
      CeilOne(n, limit);
    }
  }

  lemma {:induction false} CeilOne(n: nat, limit: nat)
    requires 0 < n <= limit
    ensures (n + limit - 1) / limit == 1
  {
    QuotientUnique(n + limit - 1, limit, 1, n - 1);
  }

  lemma {:induction false} CeilStep(n: nat, limit: nat)
    requires 1 <= limit < n
    ensures (n + limit - 1) / limit == 1 + (n - limit + limit - 1) / limit
  {
    var d := (n - 1) / limit;
    assert (d + 1) * limit == d * limit + limit;
    QuotientUnique(n + limit - 1, limit, d + 1, (n - 1) % limit);
  }

  lemma {:induction false} QuotientUnique(a: int, limit: int, k: int, r: int)
    requires 1 <= limit && 0 <= r < limit && a == k * limit + r
    ensures a / limit == k
  {
    var d := a / limit;
    assert (d - k) * limit == r - a % limit;
    SmallMultiple(d - k, limit);
  }

  lemma {:induction false} SmallMultiple(x: int, y: int)
    requires 1 <= y && -y < x * y < y
    ensures x == 0
  {
    assert x >= 1 ==> x * y >= y;
    assert x <= -1 ==> x * y <= -y;
  }

  function Flatten(chunks: seq<seq<Row>>): seq<Row> {
    if chunks == [] then [] else chunks[0] + Flatten(chunks[1..])
  }

  lemma {:induction false} ChunksFlatten(rows: seq<Row>, limit: nat)
    requires 1 <= limit
    ensures Flatten(Chunks(rows, limit)) == rows
    decreases |rows|
  {
    if |rows| > limit {
      ChunksFlatten(rows[limit..], limit);
      assert rows == rows[..limit] + rows[limit..];
      assert ([rows[..limit]] + Chunks(rows[limit..], limit))[1..] == Chunks(rows[limit..], limit);
    } else {
      assert [rows][1..] == [];
    }
  }

  function Datas(pages: seq<Page>): seq<seq<Row>> {
    seq(|pages|, i requires 0 <= i < |pages| => pages[i].data)
  }

  /** A row of a sorted list comes after the list's row `m - 1` exactly when it stands at `m` or later. */
  lemma {:induction false} AfterRowIff(s: seq<Row>, m: nat, r: Row, direction: Direction)
    requires StrictlyMonotone(s, direction) && 0 < m <= |s| && r in s
    ensures Before(Pos(s[m - 1]), Pos(r), direction) <==> r in s[m..]
  {
    hide Before;
    var i :| 0 <= i < |s| && s[i] == r;
    if i >= m {
      assert s[m..][i - m] == r;
    } else {
      forall j | m <= j < |s|
        ensures s[j] != r
      {
        BeforeIrreflexive(Pos(r), direction);
      }
      NotBackwards(Pos(s[i]), Pos(s[m - 1]), direction);
    }
  }

  lemma {:induction false} NotBackwards(a: Position, b: Position, direction: Direction)
    requires a == b || Before(a, b, direction)
    ensures !Before(b, a, direction)
  {
    hide Before;
    BeforeIrreflexive(a, direction);
    if Before(a, b, direction) && Before(b, a, direction) {
      BeforeTrans(a, b, a, direction);
    }
  }

  /** After a full page the rest of the list is what remains after its last row. */
  lemma {:induction false} RestOfList(q: Listing, table: set<Row>, from: Option<Position>)
    requires TableOk(table) && 1 <= q.limit < |RemainingSorted(q, table, from)|
    ensures var left := RemainingSorted(q, table, from);
            RemainingSorted(q, table, Some(Pos(left[q.limit - 1]))) == left[q.limit..]
  {
    hide Before, Sorted;
    var left := RemainingSorted(q, table, from);
    var last, rest := left[q.limit - 1], left[q.limit..];
    var after := Remaining(q, table, Some(Pos(last)));
    assert last in left && forall r :: r in rest ==> r in left;
    forall r
      ensures r in rest <==> r in after
    {
      if r in left {
        AfterRowIff(left, q.limit, r, q.direction);
      } else if r in after && from.Some? {
        BeforeTrans(from.value, Pos(last), Pos(r), q.direction);
      }
    }
    hide Remaining;
    SortedUnique(rest, Sorted(after, q.direction), after, q.direction);
  }

  lemma {:induction false} FixedWalkFrom(q: Listing, table: set<Row>, tables: seq<set<Row>>, filters: seq<Filters>,
                                         f: Filters, cursor: Option<Wire>, from: Option<Position>)
    requires 1 <= q.limit && |filters| == |tables| && SameFilters(filters, f) && CursorFor(q, f, cursor, from)
    requires TableOk(table) && forall i :: 0 <= i < |tables| ==> tables[i] == table
    requires |Chunks(RemainingSorted(q, table, from), q.limit)| <= |tables|
    ensures var walk := Follow(q, tables, filters, cursor);
            walk.Some? && Complete(walk.value) && Datas(walk.value) == Chunks(RemainingSorted(q, table, from), q.limit)
    decreases |tables|
  {
    hide List, SameFilters, CursorFor, RemainingSorted;
    SameFiltersTail(filters, f);
    ListIsNextStretch(q, tables[0], f, filters[0], cursor, from);
    var left := RemainingSorted(q, table, from);
    var page := List(q, tables[0], cursor, filters[0]).value;
    if |left| > q.limit {
      RestOfList(q, table, from);
      FixedWalkFrom(q, table, tables[1..], filters[1..], f, page.nextCursor, Some(Pos(left[q.limit - 1])));
      var rest := Follow(q, tables[1..], filters[1..], page.nextCursor).value;
      assert Datas([page] + rest) == [page.data] + Datas(rest);
    } else {
      assert Datas([page]) == [page.data];
    }
  }

  /** Main result on a fixed table: for every limit and both directions the walk terminates after
      exactly max(1, ceil(n/limit)) requests, none of which is refused whatever order the filters are
      built in, and the concatenated pages are the sorted, filtered table. */
  lemma {:induction false} FixedWalk(q: Listing, table: set<Row>, tables: seq<set<Row>>, filters: seq<Filters>,
                                     f: Filters)
    requires 1 <= q.limit && |filters| == |tables| && SameFilters(filters, f)
    requires TableOk(table) && forall i :: 0 <= i < |tables| ==> tables[i] == table
    requires PageCount(|RemainingSorted(q, table, None)|, q.limit) <= |tables|
    ensures var walk, all := Follow(q, tables, filters, None), RemainingSorted(q, table, None);
            && walk.Some? && Complete(walk.value)
            && |walk.value| == PageCount(|all|, q.limit)
            && Flatten(Datas(walk.value)) == all
            && SortedOf(all, (set r | r in table && q.keep(r)), q.direction)
  {
    var all := RemainingSorted(q, table, None);
    ChunkCount(all, q.limit);
    ChunksFlatten(all, q.limit);
    FixedWalkFrom(q, table, tables, filters, f, None, None);
    assert Remaining(q, table, None) == set r | r in table && q.keep(r);
  }
}
