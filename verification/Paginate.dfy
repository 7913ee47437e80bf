/** The keyset building blocks: ordering, continuation predicate, one page, and the list call the
    services compose from them. */
module Paginate {
  import opened Schema
  import opened Ordering
  import opened Cursor

  /** A row of a listed table: its id and the DateTime sort column, in epoch milliseconds. */
  datatype Row = Row(id: string, at: int, payload: int)

  /** What a cursor stands for: a place in the (sort column, id) order. */
  datatype Position = Position(at: int, id: string)

  function Pos(r: Row): Position { Position(r.at, r.id) }

  const MAX_DATE_MS: int := 8640000000000000

  /** Tables have unique non-empty ids and representable dates. */
  ghost predicate TableOk(rows: set<Row>) {
    && (forall r :: r in rows ==> r.id != "" && -MAX_DATE_MS <= r.at <= MAX_DATE_MS)
    && (forall r, s :: r in rows && s in rows && r.id == s.id ==> r == s)
  }

  // ---------- order ----------

  /** orderBy: the sort column, then the id, both in the requested direction. */
  function BuildOrderBy(sortBy: string, direction: Direction): seq<(string, Direction)> {
    [(sortBy, direction), ("id", direction)]
  }

  /** How the database reads an orderBy clause over these rows. */
  predicate Precedes(orderBy: seq<(string, Direction)>, a: Position, b: Position) {
    if orderBy == [] then false
    else
      var (field, direction) := orderBy[0];
      var (x, y) := if direction == Asc then (a, b) else (b, a);
      if field == "id" then StrLess(x.id, y.id) || (a.id == b.id && Precedes(orderBy[1..], a, b))
      else x.at < y.at || (a.at == b.at && Precedes(orderBy[1..], a, b))
  }

  /** Strictly earlier in the two-key order. */
  predicate Before(a: Position, b: Position, direction: Direction) {
    var (x, y) := if direction == Asc then (a, b) else (b, a);
    x.at < y.at || (x.at == y.at && StrLess(x.id, y.id))
  }

  lemma {:induction false} OrderByIsBefore(sortBy: string, direction: Direction, a: Position, b: Position)
    requires sortBy != "id"
    ensures Precedes(BuildOrderBy(sortBy, direction), a, b) <==> Before(a, b, direction)
  {
    var tail := BuildOrderBy(sortBy, direction)[1..];
    assert tail == [("id", direction)] && tail[1..] == [];
    assert Precedes(tail, a, b) <==> if direction == Asc then StrLess(a.id, b.id) else StrLess(b.id, a.id);
  }

  // ---------- continuation predicate ----------

  datatype Op = Gt | Lt | Equals
  datatype Cond = OnPrimary(op: Op, at: int) | OnId(op: Op, id: string)

  predicate Holds(c: Cond, p: Position) {
    match c
    case OnPrimary(Gt, at) => p.at > at
    case OnPrimary(Lt, at) => p.at < at
    case OnPrimary(Equals, at) => p.at == at
    case OnId(Gt, id) => StrLess(id, p.id)
    case OnId(Lt, id) => StrLess(p.id, id)
    case OnId(Equals, id) => p.id == id
  }

  /** An OR of ANDs. */
  type Keyset = seq<seq<Cond>>

  predicate Matches(k: Keyset, p: Position) {
    exists i :: 0 <= i < |k| && forall j :: 0 <= j < |k[i]| ==> Holds(k[i][j], p)
  }

  function BuildKeysetWhere(at: int, id: string, direction: Direction): Keyset {
    var op := if direction == Asc then Gt else Lt;
    [[OnPrimary(op, at)], [OnPrimary(Equals, at), OnId(op, id)]]
  }

  /** The OR expansion selects exactly the rows strictly after the cursor in the list order. */
  lemma {:induction false} KeysetIsAfter(at: int, id: string, direction: Direction, p: Position)
    ensures Matches(BuildKeysetWhere(at, id, direction), p) <==> Before(Position(at, id), p, direction)
  {
    var k := BuildKeysetWhere(at, id, direction);
    if Before(Position(at, id), p, direction) {
      if p.at == at {
        assert Holds(k[1][0], p) && Holds(k[1][1], p);
      } else {
        assert Holds(k[0][0], p);
      }
    }
    if Matches(k, p) {
      var i :| 0 <= i < |k| && forall j :: 0 <= j < |k[i]| ==> Holds(k[i][j], p);
      if i == 0 {
        assert Holds(k[0][0], p);
      } else {
        assert Holds(k[1][0], p) && Holds(k[1][1], p);
      }
    }
  }

  // ---------- one page ----------

  datatype Page = Page(data: seq<Row>, nextCursor: Option<Wire>)

  function EncodeRowCursor(last: Row, sortBy: string, direction: Direction, fingerprint: string): Wire {
    EncodeCursor(sortBy, direction, KNumber(last.at), last.id, fingerprint)
  }

  /** Trims the probe row and writes the cursor from the last retained row. */
  function FetchPage(found: seq<Row>, limit: nat, sortBy: string, direction: Direction, fingerprint: string): Page
    requires 1 <= limit
  {
    var hasNext := |found| > limit;
    var rows := if hasNext then found[..limit] else found;
    Page(rows, if hasNext then Some(EncodeRowCursor(rows[|rows| - 1], sortBy, direction, fingerprint)) else None)
  }

  /** A listing: its fixed parameters, what its filters keep, and the two library functions. */
  datatype Listing = Listing(sortBy: string, direction: Direction, limit: nat, keep: Row -> bool,
                             hash: seq<(string, Json)> -> string, parseDate: string -> Option<int>)

  /** The Date instant a cursor key stands for, if it is one. */
  function DateKeyFromCursor(k: KeyValue, parseDate: string -> Option<int>): Option<int> {
    match k
    case KNumber(n) => if -MAX_DATE_MS <= n <= MAX_DATE_MS then Some(n) else None
    case KString(s) => parseDate(s)
  }

  /** No continuation, a continuation predicate, or the 400 answer. */
  function ResolveListContinuation(q: Listing, cursor: Option<Wire>, filters: Filters): Option<Option<Keyset>> {
    if cursor.None? then Some(None)
    else
      var decoded := DecodeCursor(cursor.value, Expectation(q.sortBy, q.direction, q.hash(Normalized(filters))));
      if decoded.None? then None
      else
        var at := DateKeyFromCursor(decoded.value.primary, q.parseDate);
        if at.None? then None
        else Some(Some(BuildKeysetWhere(at.value, decoded.value.id, q.direction)))
  }

  ghost predicate SortedOf(s: seq<Row>, rows: set<Row>, direction: Direction) {
    && (forall r :: r in s <==> r in rows)
    && (forall i, j :: 0 <= i < j < |s| ==> Before(Pos(s[i]), Pos(s[j]), direction))
  }

  lemma {:induction false} BeforeIrreflexive(a: Position, direction: Direction)
    ensures !Before(a, a, direction)
  {
    StrIrreflexive(a.id);
  }

  lemma {:induction false} BeforeTrans(a: Position, b: Position, c: Position, direction: Direction)
    requires Before(a, b, direction) && Before(b, c, direction)
    ensures Before(a, c, direction)
  {
    if a.at == b.at == c.at {
      if direction == Asc { StrTrans(a.id, b.id, c.id); } else { StrTrans(c.id, b.id, a.id); }
    }
  }

  lemma {:induction false} BeforeTotal(a: Position, b: Position, direction: Direction)
    ensures a == b || Before(a, b, direction) || Before(b, a, direction)
  {
    StrTotal(a.id, b.id);
  }

  lemma {:induction false} FirstExists(rows: set<Row>, direction: Direction) returns (m: Row)
    requires TableOk(rows) && rows != {}
    ensures m in rows && forall r :: r in rows && r != m ==> Before(Pos(m), Pos(r), direction)
    decreases |rows|
  {
    hide Before;
    var x :| x in rows;
    if rows == {x} {
      m := x;
    } else {
      var y := FirstExists(rows - {x}, direction);
      BeforeTotal(Pos(x), Pos(y), direction);
      m := if Before(Pos(x), Pos(y), direction) then x else y;
      forall r | r in rows && r != m
        ensures Before(Pos(m), Pos(r), direction)
      {
        if m == x && r != y {
          BeforeTrans(Pos(x), Pos(y), Pos(r), direction);
        }
      }
    }
  }

  /** The rows in list order. */
  ghost function Sorted(rows: set<Row>, direction: Direction): (s: seq<Row>)
    requires TableOk(rows)
    ensures SortedOf(s, rows, direction)
    decreases |rows|
  {
    if rows == {} then []
    else
      var first := FirstOf(rows, direction);
      [first] + Sorted(rows - {first}, direction)
  }

  ghost function FirstOf(rows: set<Row>, direction: Direction): (m: Row)
    requires TableOk(rows) && rows != {}
    ensures m in rows && forall r :: r in rows && r != m ==> Before(Pos(m), Pos(r), direction)
  {
    assert exists m :: m in rows && forall r :: r in rows && r != m ==> Before(Pos(m), Pos(r), direction) by {
      var m := FirstExists(rows, direction);
    }
    var m :| m in rows && forall r :: r in rows && r != m ==> Before(Pos(m), Pos(r), direction);
    m
  }

  lemma {:induction false} SortedUnique(s: seq<Row>, t: seq<Row>, rows: set<Row>, direction: Direction)
    requires SortedOf(s, rows, direction) && SortedOf(t, rows, direction)
    ensures s == t
  {
    hide Before;
    var less := (a: Row, b: Row) => Before(Pos(a), Pos(b), direction);
    forall a: Row ensures !less(a, a) { BeforeIrreflexive(Pos(a), direction); }
    forall a: Row, b: Row, c: Row | less(a, b) && less(b, c)
      ensures less(a, c)
    {
      BeforeTrans(Pos(a), Pos(b), Pos(c), direction);
    }
    AscendingUnique(s, t, less);
  }

  ghost function Selected(q: Listing, table: set<Row>, k: Option<Keyset>): set<Row> {
    set r | r in table && q.keep(r) && (k.Some? ==> Matches(k.value, Pos(r)))
  }

  /** findMany with where, orderBy and take: limit + 1. */
  ghost function FindRows(q: Listing, table: set<Row>, k: Option<Keyset>): seq<Row>
    requires TableOk(table)
  {
    var sorted := Sorted(Selected(q, table, k), q.direction);
    if |sorted| > q.limit + 1 then sorted[..q.limit + 1] else sorted
  }

  /** One list request; None is the 400 answer for a bad cursor. */
  ghost function List(q: Listing, table: set<Row>, cursor: Option<Wire>, filters: Filters): Option<Page>
    requires TableOk(table) && 1 <= q.limit
  {
    var continuation := ResolveListContinuation(q, cursor, filters);
    if continuation.None? then None
    else Some(FetchPage(FindRows(q, table, continuation.value), q.limit, q.sortBy, q.direction,
                        q.hash(Normalized(filters))))
  }
}
