/** The database behind the extension: unique and exclusion constraints, references with their delete
    actions, and what one statement makes of the tables. */
module TenantDatabase {
  import opened Schema
  import opened TenantScoping

  type Db = map<Model, Table>

  function TableOf(db: Db, m: Model): Table { if m in db then db[m] else map[] }

  // ---------- matching and writing ----------

  predicate Meets(id: Id, row: Row, key: string, c: Cond) {
    match c
    case Equals(v) => key in row && row[key] == v
    case Test(p) => p(id, row)
  }

  predicate MeetsAll(id: Id, row: Row, f: Filter) {
    forall k :: k in f ==> Meets(id, row, k, f[k])
  }

  function Matching(table: Table, f: Option<Filter>): Table {
    map id | id in table && MeetsAll(id, table[id], f.GetOr(map[])) :: table[id]
  }

  function ColumnOf(row: Row, c: string): Value { if c in row then row[c] else Null }

  function Assigned(row: Row, key: string, a: Assign): Value {
    match a
    case Put(v) => v
    case Alter(f) => f(ColumnOf(row, key))
  }

  /** A row with some fields written. */
  function Written(row: Row, fields: Fields): Row {
    map k | k in row.Keys + fields.Keys :: if k in fields then Assigned(row, k, fields[k]) else row[k]
  }

  function WrittenAll(rows: Table, fields: Fields): Table {
    map id | id in rows :: Written(rows[id], fields)
  }

  function Placed(list: seq<Fields>, ids: nat -> Id): Table {
    if list == [] then map[]
    else Placed(list[..|list| - 1], ids)[ids(|list| - 1) := Written(map[], list[|list| - 1])]
  }

  function FieldsOf(d: Option<Data>): Fields {
    match d case Some(One(f)) => f case _ => map[]
  }

  function ListOf(d: Option<Data>): seq<Fields> {
    match d case Some(One(f)) => [f] case Some(Many(list)) => list case None => []
  }

  // ---------- constraints ----------

  /** A unique index on some columns, of the rows that have the listed values in others (of all rows when
      there are none), or an exclusion constraint when the two columns of `span` must overlap as well. */
  datatype UniqueKey = UniqueKey(columns: set<string>, only: map<string, set<Value>>, span: Option<(string, string)>)

  predicate Indexed(r: Row, key: UniqueKey) {
    forall c :: c in key.only ==> ColumnOf(r, c) in key.only[c]
  }

  /** The row spans a non-empty half-open interval. */
  predicate Spans(r: Row, span: (string, string)) {
    ColumnOf(r, span.0).Num? && ColumnOf(r, span.1).Num? && ColumnOf(r, span.0).n < ColumnOf(r, span.1).n
  }

  predicate Overlap(r: Row, s: Row, span: (string, string)) {
    && Spans(r, span) && Spans(s, span)
    && ColumnOf(r, span.0).n < ColumnOf(s, span.1).n && ColumnOf(s, span.0).n < ColumnOf(r, span.1).n
  }

  /** Two indexed rows collide when they agree on all columns of the key, none of them is null, and their
      intervals overlap where the key has one. */
  predicate Collide(r: Row, s: Row, key: UniqueKey) {
    && Indexed(r, key) && Indexed(s, key)
    && (forall c :: c in key.columns ==> c in r && c in s && r[c] == s[c] && r[c] != Null)
    && (key.span.Some? ==> Overlap(r, s, key.span.value))
  }

  ghost predicate Consistent(table: Table, keys: set<UniqueKey>) {
    forall u, i, j :: u in keys && i in table && j in table && i != j ==> !Collide(table[i], table[j], u)
  }

  datatype OnDelete = Restrict | Cascade | SetNull

  /** A foreign key: the table it points to, whether it includes the tenant, and its delete action. */
  datatype Reference = Reference(target: Model, withTenant: bool, onDelete: OnDelete)

  /** What a table enforces; `valid` is whatever one row must satisfy by itself. */
  datatype Rules = Rules(keys: set<UniqueKey>, refs: map<string, Reference>, valid: Row -> bool)

  type Constraints = Model -> Rules

  predicate SameTenant(r: Row, s: Row) {
    "tenantId" in r && "tenantId" in s && r["tenantId"] == s["tenantId"]
  }

  /** The row's column points to row `id` of the reference's table. */
  predicate Points(db: Db, row: Row, c: string, ref: Reference, id: Id) {
    && c in row && row[c] == Ref(id) && id in TableOf(db, ref.target)
    && (ref.withTenant ==> SameTenant(row, TableOf(db, ref.target)[id]))
  }

  predicate Resolves(db: Db, row: Row, c: string, ref: Reference) {
    ColumnOf(row, c) == Null || (ColumnOf(row, c).Ref? && Points(db, row, c, ref, ColumnOf(row, c).id))
  }

  // ---------- putting rows ----------

  /** One of the matching rows; which one depends on the matching rows alone. */
  ghost function Pick(rows: Table): (id: Id)
    requires rows != map[]
    ensures id in rows
  {
    assert exists id :: id in rows by { NonEmpty(rows); }
    var id :| id in rows;
    id
  }

  lemma {:induction false} NonEmpty(rows: Table)
    requires rows != map[]
    ensures exists id :: id in rows
  {
    assert rows.Keys == {} ==> rows == map[];
    var id :| id in rows.Keys;
  }

  predicate Puts(op: Verb) { op in {Create, CreateMany, Update, UpdateMany, Upsert} }

  predicate Removes(op: Verb) { op in {Delete, DeleteMany} }

  /** What an operation answers: a failure (no such row, a broken constraint), or a value. */
  datatype Answer = Refused | Found(rows: seq<(Id, Row)>) | Figure(n: int) | Wrote(id: Id, row: Row) | Nothing

  /** The records an operation inserts, given what matches. */
  function Inserted(found: Table, op: Verb, a: Args): seq<Fields> {
    match op
    case Create => [FieldsOf(a.data)]
    case CreateMany => ListOf(a.data)
    case Upsert => if found == map[] then [a.create.GetOr(map[])] else []
    case _ => []
  }

  /** The rows a statement would put into its table, given what matches. Generated ids are `ids(0)`,
      `ids(1)`, ... */
  ghost function RowsPut(found: Table, op: Verb, a: Args, ids: nat -> Id): Table {
    match op
    case Update => if found == map[] then map[] else map[Pick(found) := Written(found[Pick(found)], FieldsOf(a.data))]
    case UpdateMany => WrittenAll(found, FieldsOf(a.data))
    case Upsert =>
      if found == map[] then Placed(Inserted(found, op, a), ids)
      else map[Pick(found) := Written(found[Pick(found)], a.update.GetOr(map[]))]
    case _ => Placed(Inserted(found, op, a), ids)
  }

  /** What a writing statement answers when its rows are accepted. */
  ghost function Answered(found: Table, op: Verb, a: Args, ids: nat -> Id): Answer {
    match op
    case Create => Wrote(ids(0), Written(map[], FieldsOf(a.data)))
    case CreateMany => Figure(|ListOf(a.data)|)
    case Update => if found == map[] then Refused else Wrote(Pick(found), Written(found[Pick(found)], FieldsOf(a.data)))
    case UpdateMany => Figure(|found|)
    case Upsert =>
      if found == map[] then Wrote(ids(0), Written(map[], a.create.GetOr(map[])))
      else Wrote(Pick(found), Written(found[Pick(found)], a.update.GetOr(map[])))
    case _ => Nothing
  }

  /** The tables with rows put into one of them. */
  function With(db: Db, m: Model, rows: Table): Db { db[m := TableOf(db, m) + rows] }

  /** The row that stands under the id before it is put. */
  function Stored(db: Db, m: Model, id: Id): Row { if id in TableOf(db, m) then TableOf(db, m)[id] else map[] }

  /** The put row has a new or changed value in a reference column. */
  predicate NewReference(db: Db, m: Model, rows: Table, refs: map<string, Reference>, id: Id, c: string) {
    id in rows && c in refs && ColumnOf(rows[id], c) != ColumnOf(Stored(db, m, id), c)
  }

  /** References are checked where they are new or changed. */
  ghost predicate RefsHold(db: Db, m: Model, rows: Table, refs: map<string, Reference>) {
    forall id, c :: NewReference(db, m, rows, refs, id, c) ==> Resolves(With(db, m, rows), rows[id], c, refs[c])
  }

  /** The table's constraints accept the rows. */
  ghost predicate Accepts(db: Db, m: Model, rows: Table, rules: Constraints) {
    && (forall id :: id in rows ==> rules(m).valid(rows[id]))
    && Consistent(TableOf(db, m) + rows, rules(m).keys)
    && RefsHold(db, m, rows, rules(m).refs)
  }

  // ---------- removing rows ----------

  datatype Key = Key(model: Model, id: Id)

  predicate Stands(db: Db, k: Key) { k.id in TableOf(db, k.model) }

  function RowAt(db: Db, k: Key): Row
    requires Stands(db, k)
  {
    TableOf(db, k.model)[k.id]
  }

  /** The child's column points to the parent. */
  predicate RefersBy(db: Db, rules: Constraints, child: Key, c: string, parent: Key) {
    && Stands(db, child) && c in rules(child.model).refs
    && rules(child.model).refs[c].target == parent.model
    && Points(db, RowAt(db, child), c, rules(child.model).refs[c], parent.id)
  }

  ghost predicate Refers(db: Db, rules: Constraints, child: Key, parent: Key, action: OnDelete) {
    exists c :: RefersBy(db, rules, child, c, parent) && rules(child.model).refs[c].onDelete == action
  }

  /** Each row of the path refers to the one before it and goes with it. */
  ghost predicate Chain(db: Db, rules: Constraints, path: seq<Key>) {
    forall i :: 0 < i < |path| ==> Refers(db, rules, path[i], path[i - 1], Cascade)
  }

  /** The row goes when the seed is deleted. */
  ghost predicate Doomed(db: Db, rules: Constraints, seed: set<Key>, k: Key) {
    exists path :: path != [] && path[0] in seed && path[|path| - 1] == k && Chain(db, rules, path)
  }

  /** Some row that restricts deletion still refers to a row that would go. */
  ghost predicate Restricted(db: Db, rules: Constraints, seed: set<Key>) {
    exists child, parent :: Doomed(db, rules, seed, parent) && Refers(db, rules, child, parent, Restrict)
  }

  /** The column points to a row that goes, and is emptied. */
  ghost predicate Emptied(db: Db, rules: Constraints, seed: set<Key>, k: Key, c: string) {
    exists parent :: Doomed(db, rules, seed, parent) && RefersBy(db, rules, k, c, parent)
                     && rules(k.model).refs[c].onDelete == SetNull
  }

  ghost function Remainder(db: Db, rules: Constraints, seed: set<Key>, k: Key, row: Row): Row {
    map c | c in row :: if Emptied(db, rules, seed, k, c) then Null else row[c]
  }

  ghost function Removed(db: Db, rules: Constraints, seed: set<Key>): Db {
    map m | m in db ::
      map id | id in db[m] && !Doomed(db, rules, seed, Key(m, id)) ::
        Remainder(db, rules, seed, Key(m, id), db[m][id])
  }

  /** The matching rows an operation deletes. */
  ghost function Seed(m: Model, found: Table, op: Verb): set<Key> {
    if found == map[] then {}
    else if op == Delete then {Key(m, Pick(found))}
    else set id | id in found :: Key(m, id)
  }

  // ---------- one statement ----------

  /** Any order, page, selection, count or aggregate of the matching rows. */
  type Projection = Table -> Answer

  datatype Request = Request(model: Model, op: Verb, args: Args, project: Projection)

  /** What matches the arguments a statement reaches the database with. */
  function FoundBy(db: Db, r: Request, a: Args): Table { Matching(TableOf(db, r.model), a.filter) }

  /** The primary key lets the inserted rows in. */
  ghost predicate IdsFree(db: Db, r: Request, a: Args, ids: nat -> Id) {
    forall k :: 0 <= k < |Inserted(FoundBy(db, r, a), r.op, a)| ==> ids(k) !in TableOf(db, r.model)
  }

  /** A writing statement commits when every constraint accepts its rows; then it changes one table. */
  ghost function PerformPut(db: Db, r: Request, a: Args, ids: nat -> Id, rules: Constraints): (Db, Answer) {
    var found := FoundBy(db, r, a);
    var rows, answer := RowsPut(found, r.op, a, ids), Answered(found, r.op, a, ids);
    if answer != Refused && IdsFree(db, r, a, ids) && Accepts(db, r.model, rows, rules) then
      (With(db, r.model, rows), answer)
    else (db, Refused)
  }

  /** A delete commits unless a restricting row refers to what would go; then referring rows go with it or
      lose the reference. */
  ghost function PerformRemove(db: Db, r: Request, a: Args, rules: Constraints): (Db, Answer) {
    var found := FoundBy(db, r, a);
    var seed := Seed(r.model, found, r.op);
    if (r.op == Delete && found == map[]) || Restricted(db, rules, seed) then (db, Refused)
    else (Removed(db, rules, seed), if r.op == Delete then Wrote(Pick(found), found[Pick(found)]) else Figure(|found|))
  }

  ghost function Perform(db: Db, r: Request, a: Args, ids: nat -> Id, rules: Constraints): (Db, Answer) {
    if Puts(r.op) then PerformPut(db, r, a, ids, rules)
    else if Removes(r.op) then PerformRemove(db, r, a, rules)
    else if r.op.Unnamed? then (db, r.project(TableOf(db, r.model)))
    else (db, r.project(FoundBy(db, r, a)))
  }

  /** The query hook: global models pass through, tenant-scoped ones fail closed without a tenant and
      are rewritten with one. None is the thrown error. */
  function Hook(r: Request, context: Option<Tenant>): Option<Args> {
    if r.model !in TENANT_SCOPED_MODELS then Some(r.args)
    else match context case Some(t) => Some(Scoped(r.op, r.args, t)) case None => None
  }

  ghost function Statement(db: Db, context: Option<Tenant>, r: Request, ids: nat -> Id, rules: Constraints)
    : (Db, Answer)
  {
    match Hook(r, context)
    case None => (db, Refused)
    case Some(a) => Perform(db, r, a, ids, rules)
  }
}
