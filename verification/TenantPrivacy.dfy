/** One statement, seen from the context it runs in: exactly when it answers and acts as on a database
    without the rows of other tenants, and exactly when it leaves those rows alone. */
module TenantPrivacy {
  import opened Schema
  import opened TenantScoping
  import opened TenantDatabase

  // ---------- what a context sees ----------

  predicate OwnRow(row: Row, t: Tenant) {
    "tenantId" in row && row["tenantId"] == Text(t)
  }

  /** A global row, or a row of the context's tenant. */
  predicate Mine(context: Option<Tenant>, m: Model, row: Row) {
    m in TENANT_SCOPED_MODELS ==> context.Some? && OwnRow(row, context.value)
  }

  function Seen(table: Table, context: Option<Tenant>, m: Model): Table {
    map id | id in table && Mine(context, m, table[id]) :: table[id]
  }

  /** The rows of other tenants. */
  function Unseen(table: Table, context: Option<Tenant>, m: Model): Table {
    map id | id in table && !Mine(context, m, table[id]) :: table[id]
  }

  /** The database without the rows of other tenants. */
  function Alone(db: Db, context: Option<Tenant>): Db {
    map m | m in db :: Seen(db[m], context, m)
  }

  /** The rows of other tenants are as they were. */
  ghost predicate OthersKept(db: Db, db': Db, context: Option<Tenant>) {
    forall m :: Unseen(TableOf(db', m), context, m) == Unseen(TableOf(db, m), context, m)
  }

  lemma {:induction false} AloneTable(db: Db, context: Option<Tenant>, m: Model)
    ensures TableOf(Alone(db, context), m) == Seen(TableOf(db, m), context, m)
  {
    hide Mine;
  }

  /** Only operations the extension names, on tenant-scoped models. */
  predicate NamedRequest(r: Request) {
    r.model in TENANT_SCOPED_MODELS ==> !r.op.Unnamed?
  }

  // ---------- matching and stamping ----------

  /** Fields that the extension has stamped. */
  predicate Stamped(f: Fields, t: Tenant) {
    "tenantId" in f && f["tenantId"] == TenantScoping.Put(Text(t))
  }

  lemma {:induction false} StampedIsOwn(row: Row, f: Fields, t: Tenant)
    requires Stamped(f, t)
    ensures OwnRow(Written(row, f), t)
  {
  }

  /** A scoped filter only ever matches the tenant's rows. */
  lemma {:induction false} MatchingIsOwn(table: Table, f: Option<Filter>, t: Tenant)
    ensures forall id :: id in Matching(table, ScopedFilter(f, t)) ==> id in table && OwnRow(table[id], t)
  {
    var g := ScopedFilter(f, t).value;
    forall id | id in table && MeetsAll(id, table[id], g)
      ensures OwnRow(table[id], t)
    {
      assert Meets(id, table[id], "tenantId", g["tenantId"]);
    }
  }

  /** The operation filters by its arguments. */
  predicate Filters(op: Verb) { !op.Unnamed? && op != Create && op != CreateMany }

  lemma {:induction false} FilterScoped(op: Verb, a: Args, t: Tenant)
    requires Filters(op)
    ensures Scoped(op, a, t).filter == ScopedFilter(a.filter, t)
  {
  }

  /** A hooked filter matches rows the context sees, and the same ones when there are no others. */
  lemma {:induction false} FoundIsMine(db: Db, context: Option<Tenant>, r: Request, a: Args)
    requires Hook(r, context) == Some(a) && Filters(r.op)
    ensures FoundBy(Alone(db, context), r, a) == FoundBy(db, r, a)
    ensures forall id :: id in FoundBy(db, r, a) ==>
              id in TableOf(db, r.model) && FoundBy(db, r, a)[id] == TableOf(db, r.model)[id]
              && Mine(context, r.model, TableOf(db, r.model)[id])
  {
    var table := TableOf(db, r.model);
    AloneTable(db, context, r.model);
    if r.model in TENANT_SCOPED_MODELS {
      FilterScoped(r.op, r.args, context.value);
      MatchingIsOwn(table, r.args.filter, context.value);
      hide Scoped, ScopedFilter, MeetsAll;
      SeenMatches(table, context, r.model, a.filter);
    } else {
      assert Seen(table, context, r.model) == table;
    }
  }

  lemma {:induction false} SeenMatches(table: Table, context: Option<Tenant>, m: Model, f: Option<Filter>)
    requires forall id :: id in Matching(table, f) ==> Mine(context, m, table[id])
    ensures Matching(Seen(table, context, m), f) == Matching(table, f)
  {
    hide Mine, MeetsAll;
    forall id | id in table && MeetsAll(id, table[id], f.GetOr(map[]))
      ensures id in Seen(table, context, m)
    {
      assert id in Matching(table, f);
    }
  }

  /** The field records an operation writes. */
  function WrittenFields(op: Verb, a: Args): seq<Fields> {
    match op
    case Create => [FieldsOf(a.data)]
    case CreateMany => ListOf(a.data)
    case Update => [FieldsOf(a.data)]
    case UpdateMany => [FieldsOf(a.data)]
    case Upsert => [a.create.GetOr(map[]), a.update.GetOr(map[])]
    case _ => []
  }

  /** Scoping stamps everything an operation writes. */
  lemma {:induction false} ScopedWritesStamped(op: Verb, a: Args, t: Tenant)
    ensures var written := WrittenFields(op, Scoped(op, a, t));
            forall k :: 0 <= k < |written| ==> Stamped(written[k], t)
  {
  }

  lemma {:induction false} PlacedBy(list: seq<Fields>, ids: nat -> Id, id: Id)
    requires id in Placed(list, ids)
    ensures exists k :: 0 <= k < |list| && ids(k) == id && Placed(list, ids)[id] == Written(map[], list[k])
  {
    hide Written;
    var n := |list| - 1;
    if ids(n) != id {
      PlacedBy(list[..n], ids, id);
      var k :| 0 <= k < |list[..n]| && ids(k) == id && Placed(list[..n], ids)[id] == Written(map[], list[..n][k]);
      assert list[..n][k] == list[k];
    }
  }

  /** The id is one of those the statement generates. */
  ghost predicate Generated(found: Table, op: Verb, a: Args, ids: nat -> Id, id: Id) {
    exists j :: 0 <= j < |Inserted(found, op, a)| && ids(j) == id
  }

  /** A put row is written by one of the statement's records, over a matching row or under a new id. */
  lemma {:induction false} PutIsWritten(found: Table, op: Verb, a: Args, ids: nat -> Id, id: Id) returns (k: nat)
    requires Puts(op) && id in RowsPut(found, op, a, ids)
    ensures k < |WrittenFields(op, a)|
    ensures var row, f := RowsPut(found, op, a, ids)[id], WrittenFields(op, a)[k];
            || (Filters(op) && id in found && row == Written(found[id], f))
            || (Generated(found, op, a, ids, id) && row == Written(map[], f))
  {
    hide Written, Placed;
    var list := Inserted(found, op, a);
    k := if op == Upsert && found != map[] then 1 else 0;
    if op == Create || op == CreateMany || (op == Upsert && found == map[]) {
      PlacedBy(list, ids, id);
      k :| 0 <= k < |list| && ids(k) == id && Placed(list, ids)[id] == Written(map[], list[k]);
      assert list[k] == WrittenFields(op, a)[k];
    }
  }

  /** Rows the context sees, over rows it sees or under new ids. */
  ghost predicate MineOver(db: Db, context: Option<Tenant>, m: Model, rows: Table) {
    forall id :: id in rows ==>
        Mine(context, m, rows[id]) && (id in TableOf(db, m) ==> Mine(context, m, TableOf(db, m)[id]))
  }

  /** What a hooked statement puts is the context's, over its own rows or under new ids. */
  lemma {:induction false} PutsMine(db: Db, context: Option<Tenant>, r: Request, a: Args, ids: nat -> Id)
    requires Hook(r, context) == Some(a) && Puts(r.op) && IdsFree(db, r, a, ids)
    ensures MineOver(db, context, r.model, RowsPut(FoundBy(db, r, a), r.op, a, ids))
  {
    hide Written, Stamped, Scoped, RowsPut, OwnRow, Matching;
    if r.model in TENANT_SCOPED_MODELS {
      var found, w := FoundBy(db, r, a), WrittenFields(r.op, a);
      ScopedWritesStamped(r.op, r.args, context.value);
      if Filters(r.op) { FoundIsMine(db, context, r, a); }
      forall id | id in RowsPut(found, r.op, a, ids)
        ensures OwnRow(RowsPut(found, r.op, a, ids)[id], context.value)
        ensures id in TableOf(db, r.model) ==> OwnRow(TableOf(db, r.model)[id], context.value)
      {
        var k := PutIsWritten(found, r.op, a, ids, id);
        StampedIsOwn(map[], w[k], context.value);
        if id in found { StampedIsOwn(found[id], w[k], context.value); }
      }
    }
  }

  // ---------- a statement that puts rows ----------

  /** A row the context sees collides with one it does not. */
  ghost predicate CrossCollision(changed: Table, context: Option<Tenant>, m: Model, keys: set<UniqueKey>) {
    exists u, i, j :: u in keys && i in changed && j in changed && i != j
                      && Mine(context, m, changed[i]) && !Mine(context, m, changed[j])
                      && (Collide(changed[i], changed[j], u) || Collide(changed[j], changed[i], u))
  }

  /** The column points to a row of another tenant. */
  predicate Foreign(db: Db, context: Option<Tenant>, row: Row, c: string, ref: Reference) {
    && ColumnOf(row, c).Ref? && Points(db, row, c, ref, ColumnOf(row, c).id)
    && !Mine(context, ref.target, TableOf(db, ref.target)[ColumnOf(row, c).id])
  }

  /** Only another tenant's row, on a unique or exclusion constraint, keeps the rows out. */
  ghost predicate Collides(db: Db, context: Option<Tenant>, m: Model, rows: Table, rules: Constraints) {
    Accepts(Alone(db, context), m, rows, rules) && CrossCollision(TableOf(db, m) + rows, context, m, rules(m).keys)
  }

  /** The rows are let in, with a new reference to another tenant's row. */
  ghost predicate Borrows(db: Db, context: Option<Tenant>, m: Model, rows: Table, rules: Constraints) {
    && Accepts(db, m, rows, rules)
    && exists id, c :: NewReference(db, m, rows, rules(m).refs, id, c)
                       && Foreign(With(db, m, rows), context, rows[id], c, rules(m).refs[c])
  }

  /** Writing the context's rows over its own rows or under free ids. */
  lemma {:induction false} OverwriteSplits(db: Db, context: Option<Tenant>, m: Model, rows: Table)
    requires MineOver(db, context, m, rows)
    ensures Seen(TableOf(db, m) + rows, context, m) == Seen(TableOf(db, m), context, m) + rows
    ensures Unseen(TableOf(db, m) + rows, context, m) == Unseen(TableOf(db, m), context, m)
  {
    hide Mine;
  }

  lemma {:induction false} WithSplits(db: Db, context: Option<Tenant>, m: Model, rows: Table)
    requires MineOver(db, context, m, rows)
    ensures Alone(With(db, m, rows), context) == With(Alone(db, context), m, rows)
    ensures OthersKept(db, With(db, m, rows), context)
  {
    hide Mine, Seen, Unseen;
    OverwriteSplits(db, context, m, rows);
    AloneTable(db, context, m);
  }

  /** Uniqueness of the whole table, pair by pair: the context's rows among themselves, and across. */
  lemma {:induction false} ConsistentIff(table: Table, changed: Table, context: Option<Tenant>, m: Model,
                                         keys: set<UniqueKey>)
    requires Consistent(table, keys) && Unseen(changed, context, m) == Unseen(table, context, m)
    ensures Consistent(changed, keys) <==> Consistent(Seen(changed, context, m), keys)
                                           && !CrossCollision(changed, context, m, keys)
  {
    hide Collide, Mine;
    if Consistent(Seen(changed, context, m), keys) && !CrossCollision(changed, context, m, keys) {
      forall u, i, j | u in keys && i in changed && j in changed && i != j
        ensures !Collide(changed[i], changed[j], u)
      {
        if Mine(context, m, changed[i]) && Mine(context, m, changed[j]) {
          assert i in Seen(changed, context, m) && j in Seen(changed, context, m);
        } else if !Mine(context, m, changed[i]) && !Mine(context, m, changed[j]) {
          assert i in Unseen(changed, context, m) && j in Unseen(changed, context, m);
          assert i in table && j in table;
        }
      }
    }
  }

  /** Without the other tenants' rows exactly the foreign references dangle. */
  lemma {:induction false} ResolvesSeen(db: Db, context: Option<Tenant>, row: Row, c: string, ref: Reference)
    ensures Resolves(Alone(db, context), row, c, ref)
            <==> Resolves(db, row, c, ref) && !Foreign(db, context, row, c, ref)
  {
    AloneTable(db, context, ref.target);
    hide Mine, Alone, SameTenant;
  }

  lemma {:induction false} StoredSeen(db: Db, context: Option<Tenant>, m: Model, rows: Table, id: Id)
    requires MineOver(db, context, m, rows) && id in rows
    ensures Stored(Alone(db, context), m, id) == Stored(db, m, id)
  {
    AloneTable(db, context, m);
    hide Mine, Alone;
  }

  /** References hold without the other tenants' rows exactly when they hold and none is foreign. */
  lemma {:induction false} RefsHoldIff(db: Db, context: Option<Tenant>, m: Model, rows: Table,
                                       refs: map<string, Reference>)
    requires MineOver(db, context, m, rows)
    ensures RefsHold(Alone(db, context), m, rows, refs)
            <==> RefsHold(db, m, rows, refs)
                 && !exists id, c :: NewReference(db, m, rows, refs, id, c)
                                     && Foreign(With(db, m, rows), context, rows[id], c, refs[c])
  {
    hide Foreign, Resolves, Alone, With, NewReference, MineOver;
    forall id, c
      ensures NewReference(Alone(db, context), m, rows, refs, id, c) <==> NewReference(db, m, rows, refs, id, c)
    {
      NewReferenceSeen(db, context, m, rows, refs, id, c);
    }
    WithSplits(db, context, m, rows);
    forall id, c | NewReference(db, m, rows, refs, id, c)
      ensures id in rows && c in refs
      ensures Resolves(With(Alone(db, context), m, rows), rows[id], c, refs[c])
              <==> Resolves(With(db, m, rows), rows[id], c, refs[c])
                   && !Foreign(With(db, m, rows), context, rows[id], c, refs[c])
    {
      NewReferenceIs(db, m, rows, refs, id, c);
      ResolvesSeen(With(db, m, rows), context, rows[id], c, refs[c]);
    }
  }

  lemma {:induction false} NewReferenceIs(db: Db, m: Model, rows: Table, refs: map<string, Reference>, id: Id,
                                          c: string)
    requires NewReference(db, m, rows, refs, id, c)
    ensures id in rows && c in refs
  {
  }

  lemma {:induction false} NewReferenceSeen(db: Db, context: Option<Tenant>, m: Model, rows: Table,
                                            refs: map<string, Reference>, id: Id, c: string)
    requires MineOver(db, context, m, rows)
    ensures NewReference(Alone(db, context), m, rows, refs, id, c) <==> NewReference(db, m, rows, refs, id, c)
  {
    hide MineOver, Alone, Stored;
    if id in rows { StoredSeen(db, context, m, rows, id); }
  }

  /** The constraints accept the rows with and without the other tenants' rows alike, exactly when the rows
      neither collide with one nor borrow one. */
  lemma {:induction false} AcceptsIff(db: Db, context: Option<Tenant>, m: Model, rows: Table, rules: Constraints)
    requires MineOver(db, context, m, rows) && Consistent(TableOf(db, m), rules(m).keys)
    ensures (Accepts(db, m, rows, rules) <==> Accepts(Alone(db, context), m, rows, rules))
            <==> !Collides(db, context, m, rows, rules) && !Borrows(db, context, m, rows, rules)
  {
    hide Consistent, CrossCollision, Foreign, RefsHold, Alone, With, Mine, NewReference;
    AloneTable(db, context, m);
    OverwriteSplits(db, context, m, rows);
    ConsistentIff(TableOf(db, m), TableOf(db, m) + rows, context, m, rules(m).keys);
    RefsHoldIff(db, context, m, rows, rules(m).refs);
  }

  // ---------- a statement that removes rows ----------

  predicate Outside(db: Db, context: Option<Tenant>, k: Key) {
    Stands(db, k) && !Mine(context, k.model, RowAt(db, k))
  }

  predicate Inside(db: Db, context: Option<Tenant>, k: Key) {
    Stands(db, k) && Mine(context, k.model, RowAt(db, k))
  }

  /** A row of another tenant refers to a row that would go. */
  ghost predicate Hit(db: Db, context: Option<Tenant>, rules: Constraints, seed: set<Key>) {
    exists child, c, parent :: Outside(db, context, child) && Doomed(db, rules, seed, parent)
                               && RefersBy(db, rules, child, c, parent)
  }

  /** References never include the tenant column by itself, and no key reads a column that a delete may
      empty. */
  ghost predicate Regular(rules: Constraints) {
    && (forall m :: "tenantId" !in rules(m).refs)
    && (forall m, c, u :: c in rules(m).refs && rules(m).refs[c].onDelete == SetNull && u in rules(m).keys ==>
          c !in u.columns && c !in u.only && (u.span.Some? ==> c != u.span.value.0 && c != u.span.value.1))
  }

  lemma {:induction false} StandsSeen(db: Db, context: Option<Tenant>, k: Key)
    ensures Stands(Alone(db, context), k) <==> Inside(db, context, k)
    ensures Inside(db, context, k) ==> RowAt(Alone(db, context), k) == RowAt(db, k)
  {
    AloneTable(db, context, k.model);
    hide Mine, Alone;
  }

  /** A reference is seen exactly when both of its ends are. */
  lemma {:induction false} RefersSeen(db: Db, context: Option<Tenant>, rules: Constraints, child: Key, c: string,
                                      parent: Key)
    ensures RefersBy(Alone(db, context), rules, child, c, parent)
            <==> RefersBy(db, rules, child, c, parent) && Inside(db, context, child) && Inside(db, context, parent)
  {
    StandsSeen(db, context, child);
    StandsSeen(db, context, parent);
    hide Mine, Alone, SameTenant;
  }

  lemma {:induction false} RefersIsSeen(db: Db, context: Option<Tenant>, rules: Constraints, child: Key, parent: Key,
                                        action: OnDelete)
    ensures Refers(Alone(db, context), rules, child, parent, action)
            <==> Refers(db, rules, child, parent, action) && Inside(db, context, child) && Inside(db, context, parent)
  {
    hide RefersBy, Inside, Alone;
    forall c
      ensures RefersBy(Alone(db, context), rules, child, c, parent)
              <==> RefersBy(db, rules, child, c, parent) && Inside(db, context, child) && Inside(db, context, parent)
    {
      RefersSeen(db, context, rules, child, c, parent);
    }
  }

  lemma {:induction false} PrefixDoomed(db: Db, rules: Constraints, seed: set<Key>, path: seq<Key>, i: nat)
    requires i < |path| && path[0] in seed && Chain(db, rules, path)
    ensures Doomed(db, rules, seed, path[i])
  {
    hide Refers;
    var front := path[..i + 1];
    assert Chain(db, rules, front);
    assert front[0] == path[0] && front[|front| - 1] == path[i];
  }

  /** Whoever refers, with a cascade, to a row that goes, goes too. */
  lemma {:induction false} CascadeDooms(db: Db, rules: Constraints, seed: set<Key>, child: Key, parent: Key)
    requires Doomed(db, rules, seed, parent) && Refers(db, rules, child, parent, Cascade)
    ensures Doomed(db, rules, seed, child)
  {
    hide Refers;
    var path :| path != [] && path[0] in seed && path[|path| - 1] == parent && Chain(db, rules, path);
    var longer := path + [child];
    forall i | 0 < i < |longer|
      ensures Refers(db, rules, longer[i], longer[i - 1], Cascade)
    {
      assert longer[i - 1] == path[i - 1] && (i < |path| ==> longer[i] == path[i]);
    }
    assert Chain(db, rules, longer) && longer[0] == path[0] && longer[|longer| - 1] == child;
  }

  /** A row that goes is in the seed or refers to another one that goes. */
  lemma {:induction false} DoomedBy(db: Db, rules: Constraints, seed: set<Key>, k: Key) returns (parent: Key)
    requires Doomed(db, rules, seed, k) && k !in seed
    ensures Doomed(db, rules, seed, parent) && Refers(db, rules, k, parent, Cascade)
  {
    hide Refers;
    var path :| path != [] && path[0] in seed && path[|path| - 1] == k && Chain(db, rules, path);
    parent := path[|path| - 2];
    PrefixDoomed(db, rules, seed, path, |path| - 2);
  }

  lemma {:induction false} DoomedMono(db: Db, context: Option<Tenant>, rules: Constraints, seed: set<Key>, k: Key)
    requires Doomed(Alone(db, context), rules, seed, k)
    ensures Doomed(db, rules, seed, k)
  {
    hide Refers, Alone;
    var path :| path != [] && path[0] in seed && path[|path| - 1] == k && Chain(Alone(db, context), rules, path);
    forall i | 0 < i < |path|
      ensures Refers(db, rules, path[i], path[i - 1], Cascade)
    {
      RefersIsSeen(db, context, rules, path[i], path[i - 1], Cascade);
    }
    assert Chain(db, rules, path);
  }

  /** When no other tenant's row is hit, the same rows go with and without them. */
  lemma {:induction false} UnhitPath(db: Db, context: Option<Tenant>, rules: Constraints, seed: set<Key>,
                                     path: seq<Key>)
    requires path != [] && path[0] in seed && Chain(db, rules, path) && !Hit(db, context, rules, seed)
    requires forall k :: k in seed ==> Inside(db, context, k)
    ensures Doomed(Alone(db, context), rules, seed, path[|path| - 1]) && Inside(db, context, path[|path| - 1])
    decreases |path|
  {
    hide Refers, Alone, Inside, Hit;
    var n := |path| - 1;
    if n == 0 {
      assert Chain(Alone(db, context), rules, path);
    } else {
      var front := path[..n];
      assert Chain(db, rules, front) && front[0] == path[0];
      UnhitPath(db, context, rules, seed, front);
      PrefixDoomed(db, rules, seed, path, n - 1);
      UnhitChild(db, context, rules, seed, path[n], path[n - 1]);
      RefersIsSeen(db, context, rules, path[n], path[n - 1], Cascade);
      CascadeDooms(Alone(db, context), rules, seed, path[n], path[n - 1]);
    }
  }

  lemma {:induction false} UnhitChild(db: Db, context: Option<Tenant>, rules: Constraints, seed: set<Key>, child: Key,
                                      parent: Key)
    requires Doomed(db, rules, seed, parent) && (exists action :: Refers(db, rules, child, parent, action))
    requires !Hit(db, context, rules, seed)
    ensures Inside(db, context, child)
  {
    hide Doomed, Mine, Points;
    var action :| Refers(db, rules, child, parent, action);
    var c :| RefersBy(db, rules, child, c, parent) && rules(child.model).refs[c].onDelete == action;
  }

  lemma {:induction false} UnhitDoomed(db: Db, context: Option<Tenant>, rules: Constraints, seed: set<Key>, k: Key)
    requires !Hit(db, context, rules, seed) && forall s :: s in seed ==> Inside(db, context, s)
    ensures Doomed(db, rules, seed, k) <==> Doomed(Alone(db, context), rules, seed, k)
    ensures Doomed(db, rules, seed, k) ==> Inside(db, context, k)
  {
    if Doomed(db, rules, seed, k) {
      var path :| path != [] && path[0] in seed && path[|path| - 1] == k && Chain(db, rules, path);
      hide Hit, Inside, Doomed;
      UnhitPath(db, context, rules, seed, path);
    }
    if Doomed(Alone(db, context), rules, seed, k) {
      DoomedMono(db, context, rules, seed, k);
    }
  }

  /** Restrictions among the context's rows hold on the whole database too, and no others do unless another
      tenant's row is hit. */
  lemma {:induction false} RestrictedSeen(db: Db, context: Option<Tenant>, rules: Constraints, seed: set<Key>)
    ensures Restricted(Alone(db, context), rules, seed) ==> Restricted(db, rules, seed)
    ensures !Hit(db, context, rules, seed) && (forall s :: s in seed ==> Inside(db, context, s)) ==>
              (Restricted(db, rules, seed) ==> Restricted(Alone(db, context), rules, seed))
  {
    hide Refers, Doomed, Alone, Inside, Hit;
    if Restricted(Alone(db, context), rules, seed) {
      var child, parent :| Doomed(Alone(db, context), rules, seed, parent)
                           && Refers(Alone(db, context), rules, child, parent, Restrict);
      DoomedMono(db, context, rules, seed, parent);
      RefersIsSeen(db, context, rules, child, parent, Restrict);
    }
    if Restricted(db, rules, seed) && !Hit(db, context, rules, seed)
       && forall s :: s in seed ==> Inside(db, context, s) {
      var child, parent :| Doomed(db, rules, seed, parent) && Refers(db, rules, child, parent, Restrict);
      UnhitDoomed(db, context, rules, seed, parent);
      UnhitChild(db, context, rules, seed, child, parent);
      RefersIsSeen(db, context, rules, child, parent, Restrict);
    }
  }

  lemma {:induction false} RemovedTable(db: Db, rules: Constraints, seed: set<Key>, m: Model)
    ensures TableOf(Removed(db, rules, seed), m)
            == map id | id in TableOf(db, m) && !Doomed(db, rules, seed, Key(m, id)) ::
                 Remainder(db, rules, seed, Key(m, id), TableOf(db, m)[id])
  {
    hide Doomed, Remainder;
  }

  /** What remains of a row belongs to whom it did. */
  lemma {:induction false} RemainderMine(db: Db, context: Option<Tenant>, rules: Constraints, seed: set<Key>, k: Key,
                                         row: Row)
    requires Regular(rules)
    ensures Mine(context, k.model, Remainder(db, rules, seed, k, row)) <==> Mine(context, k.model, row)
  {
    assert !Emptied(db, rules, seed, k, "tenantId");
    hide Emptied, Regular;
  }

  lemma {:induction false} UnhitRemainder(db: Db, context: Option<Tenant>, rules: Constraints, seed: set<Key>, k: Key)
    requires !Hit(db, context, rules, seed) && (forall s :: s in seed ==> Inside(db, context, s))
    requires Inside(db, context, k)
    ensures Remainder(Alone(db, context), rules, seed, k, RowAt(db, k)) == Remainder(db, rules, seed, k, RowAt(db, k))
  {
    hide Hit, Inside, Doomed, RefersBy, Alone;
    forall c
      ensures Emptied(Alone(db, context), rules, seed, k, c) <==> Emptied(db, rules, seed, k, c)
    {
      forall parent
        ensures Doomed(Alone(db, context), rules, seed, parent) && RefersBy(Alone(db, context), rules, k, c, parent)
                <==> Doomed(db, rules, seed, parent) && RefersBy(db, rules, k, c, parent)
      {
        UnhitDoomed(db, context, rules, seed, parent);
        RefersSeen(db, context, rules, k, c, parent);
      }
    }
  }

  /** When no other tenant's row is hit, a delete does with and without them the same. */
  lemma {:induction false} UnhitRemoved(db: Db, context: Option<Tenant>, rules: Constraints, seed: set<Key>)
    requires Regular(rules) && !Hit(db, context, rules, seed) && forall s :: s in seed ==> Inside(db, context, s)
    ensures Alone(Removed(db, rules, seed), context) == Removed(Alone(db, context), rules, seed)
  {
    hide Hit, Inside, Doomed, Remainder, Mine, Regular;
    var left, right := Alone(Removed(db, rules, seed), context), Removed(Alone(db, context), rules, seed);
    forall m | m in db
      ensures left[m] == right[m]
    {
      forall id | id in db[m]
        ensures id in left[m] <==> id in right[m]
        ensures id in left[m] ==> left[m][id] == right[m][id]
      {
        var k := Key(m, id);
        RemainderMine(db, context, rules, seed, k, db[m][id]);
        UnhitDoomed(db, context, rules, seed, k);
        assert Inside(db, context, k) <==> Mine(context, m, db[m][id]) by { InsideIs(db, context, k); }
        if Inside(db, context, k) { UnhitRemainder(db, context, rules, seed, k); }
      }
    }
  }

  lemma {:induction false} InsideIs(db: Db, context: Option<Tenant>, k: Key)
    requires Stands(db, k)
    ensures Inside(db, context, k) <==> Mine(context, k.model, RowAt(db, k))
    ensures Outside(db, context, k) <==> !Inside(db, context, k)
  {
  }

  // ---------- other tenants' rows under a delete ----------

  lemma {:induction false} NotEmptied(db: Db, context: Option<Tenant>, rules: Constraints, seed: set<Key>, k: Key,
                                      c: string)
    requires !Hit(db, context, rules, seed) && Outside(db, context, k)
    ensures !Emptied(db, rules, seed, k, c)
  {
    hide Doomed, RefersBy, Outside;
  }

  lemma {:induction false} NothingEmptied(db: Db, rules: Constraints, seed: set<Key>, k: Key, row: Row)
    requires forall c :: !Emptied(db, rules, seed, k, c)
    ensures Remainder(db, rules, seed, k, row) == row
  {
    hide Emptied;
  }

  /** A row of another tenant that is not hit does not go and keeps its references. */
  lemma {:induction false} SparedRow(db: Db, context: Option<Tenant>, rules: Constraints, seed: set<Key>, k: Key)
    requires !Hit(db, context, rules, seed) && (forall s :: s in seed ==> Inside(db, context, s))
             && Outside(db, context, k)
    ensures !Doomed(db, rules, seed, k) && Remainder(db, rules, seed, k, RowAt(db, k)) == RowAt(db, k)
  {
    InsideIs(db, context, k);
    var row := RowAt(db, k);
    hide *;
    UnhitDoomed(db, context, rules, seed, k);
    forall c
      ensures !Emptied(db, rules, seed, k, c)
    {
      NotEmptied(db, context, rules, seed, k, c);
    }
    NothingEmptied(db, rules, seed, k, row);
  }

  /** A hit row is lost or loses a reference, unless the delete is refused. */
  lemma {:induction false} HitRow(db: Db, rules: Constraints, seed: set<Key>, k: Key, c: string, parent: Key)
    requires !Restricted(db, rules, seed) && Doomed(db, rules, seed, parent) && RefersBy(db, rules, k, c, parent)
    ensures Doomed(db, rules, seed, k) || Remainder(db, rules, seed, k, RowAt(db, k)) != RowAt(db, k)
  {
    var action := rules(k.model).refs[c].onDelete;
    assert RowAt(db, k)[c] == Ref(parent.id);
    assert Refers(db, rules, k, parent, action);
    hide Doomed, RefersBy, Points;
    if action == Cascade {
      CascadeDooms(db, rules, seed, k, parent);
    } else if action == SetNull {
      assert Emptied(db, rules, seed, k, c);
    }
  }

  /** A delete that is not refused leaves other tenants' rows as they were if and only if none of them
      refers to a row that goes. */
  lemma {:induction false} RemovedKeepsIff(db: Db, context: Option<Tenant>, rules: Constraints, seed: set<Key>)
    requires Regular(rules) && !Restricted(db, rules, seed) && forall s :: s in seed ==> Inside(db, context, s)
    ensures OthersKept(db, Removed(db, rules, seed), context) <==> !Hit(db, context, rules, seed)
  {
    hide Doomed, Remainder, Mine, Regular, Restricted, RefersBy;
    if Hit(db, context, rules, seed) {
      var child, c, parent :| Outside(db, context, child) && Doomed(db, rules, seed, parent)
                              && RefersBy(db, rules, child, c, parent);
      HitRow(db, rules, seed, child, c, parent);
      RemovedTable(db, rules, seed, child.model);
      var after := Unseen(TableOf(Removed(db, rules, seed), child.model), context, child.model);
      assert child.id in after ==> after[child.id] != RowAt(db, child);
      assert Unseen(TableOf(db, child.model), context, child.model)[child.id] == RowAt(db, child);
    } else {
      hide Hit;
      forall m
        ensures Unseen(TableOf(Removed(db, rules, seed), m), context, m) == Unseen(TableOf(db, m), context, m)
      {
        UnhitTable(db, context, rules, seed, m);
      }
    }
  }

  lemma {:induction false} UnhitTable(db: Db, context: Option<Tenant>, rules: Constraints, seed: set<Key>, m: Model)
    requires Regular(rules) && !Hit(db, context, rules, seed) && forall s :: s in seed ==> Inside(db, context, s)
    ensures Unseen(TableOf(Removed(db, rules, seed), m), context, m) == Unseen(TableOf(db, m), context, m)
  {
    hide Doomed, Remainder, Mine, Regular, Hit, Inside, Removed;
    RemovedTable(db, rules, seed, m);
    forall id | id in TableOf(db, m)
      ensures Mine(context, m, Remainder(db, rules, seed, Key(m, id), TableOf(db, m)[id]))
              <==> Mine(context, m, TableOf(db, m)[id])
      ensures !Mine(context, m, TableOf(db, m)[id]) ==>
                !Doomed(db, rules, seed, Key(m, id))
                && Remainder(db, rules, seed, Key(m, id), TableOf(db, m)[id]) == TableOf(db, m)[id]
    {
      RemainderMine(db, context, rules, seed, Key(m, id), TableOf(db, m)[id]);
      InsideIs(db, context, Key(m, id));
      if Outside(db, context, Key(m, id)) { SparedRow(db, context, rules, seed, Key(m, id)); }
    }
  }

  // ---------- one statement ----------

  /** The statement answers and acts as on the database without the other tenants' rows, and leaves those
      rows alone. */
  ghost predicate AsAlone(db: Db, context: Option<Tenant>, r: Request, ids: nat -> Id, rules: Constraints) {
    var out, alone := Statement(db, context, r, ids, rules), Statement(Alone(db, context), context, r, ids, rules);
    out.1 == alone.1 && Alone(out.0, context) == alone.0 && OthersKept(db, out.0, context)
  }

  /** Another tenant's row decides the statement: it collides with what is put, what is put borrows it, or it
      refers to what is removed. */
  ghost predicate Decisive(db: Db, context: Option<Tenant>, r: Request, ids: nat -> Id, rules: Constraints) {
    match Hook(r, context)
    case None => false
    case Some(a) =>
      var found := FoundBy(db, r, a);
      var rows := RowsPut(found, r.op, a, ids);
      if Puts(r.op) then
        Answered(found, r.op, a, ids) != Refused
        && (Collides(db, context, r.model, rows, rules) || Borrows(db, context, r.model, rows, rules))
      else Removes(r.op) && !Restricted(Alone(db, context), rules, Seed(r.model, found, r.op))
           && Hit(db, context, rules, Seed(r.model, found, r.op))
  }

  /** A delete that is not refused, of a row another tenant's row refers to. */
  ghost predicate Hitting(db: Db, context: Option<Tenant>, r: Request, rules: Constraints) {
    match Hook(r, context)
    case None => false
    case Some(a) =>
      var seed := Seed(r.model, FoundBy(db, r, a), r.op);
      Removes(r.op) && !Restricted(db, rules, seed) && Hit(db, context, rules, seed)
  }

  lemma {:induction false} PutsSame(db: Db, context: Option<Tenant>, r: Request, a: Args, ids: nat -> Id)
    requires Hook(r, context) == Some(a) && Puts(r.op)
    ensures var found, alone := FoundBy(db, r, a), FoundBy(Alone(db, context), r, a);
            && RowsPut(alone, r.op, a, ids) == RowsPut(found, r.op, a, ids)
            && Answered(alone, r.op, a, ids) == Answered(found, r.op, a, ids)
            && Inserted(alone, r.op, a) == Inserted(found, r.op, a)
  {
    hide FoundBy, Alone, Hook, Placed, Written, WrittenAll;
    if Filters(r.op) { FoundIsMine(db, context, r, a); }
  }

  /** A statement that puts rows is alone exactly when nothing collides and nothing is borrowed; otherwise the
      answers differ. */
  lemma {:induction false} PutAloneIff(db: Db, context: Option<Tenant>, r: Request, a: Args, ids: nat -> Id,
                                       rules: Constraints)
    requires Hook(r, context) == Some(a) && Puts(r.op) && forall k :: ids(k) !in TableOf(db, r.model)
    requires Consistent(TableOf(db, r.model), rules(r.model).keys)
    ensures var out, alone := PerformPut(db, r, a, ids, rules), PerformPut(Alone(db, context), r, a, ids, rules);
            && (out.1 == alone.1 <==> !Decisive(db, context, r, ids, rules))
            && (!Decisive(db, context, r, ids, rules) ==> Alone(out.0, context) == alone.0)
            && OthersKept(db, out.0, context)
  {
    hide Hook, FoundBy, RowsPut, Answered, Accepts, Collides, Borrows, Alone, Consistent, MineOver, With, OthersKept;
    hide IdsFree, Mine;
    AloneTable(db, context, r.model);
    NewIdsFree(db, r, a, ids);
    NewIdsFree(Alone(db, context), r, a, ids);
    PutsSame(db, context, r, a, ids);
    PutsMine(db, context, r, a, ids);
    var rows := RowsPut(FoundBy(db, r, a), r.op, a, ids);
    AcceptsIff(db, context, r.model, rows, rules);
    WithSplits(db, context, r.model, rows);
    OthersThemselves(db, context);
  }

  lemma {:induction false} NewIdsFree(db: Db, r: Request, a: Args, ids: nat -> Id)
    requires forall k :: ids(k) !in TableOf(db, r.model)
    ensures IdsFree(db, r, a, ids)
  {
  }

  lemma {:induction false} OthersThemselves(db: Db, context: Option<Tenant>)
    ensures OthersKept(db, db, context)
  {
  }

  lemma {:induction false} SeedInside(db: Db, context: Option<Tenant>, r: Request, a: Args)
    requires Hook(r, context) == Some(a) && Removes(r.op)
    ensures FoundBy(Alone(db, context), r, a) == FoundBy(db, r, a)
    ensures forall k :: k in Seed(r.model, FoundBy(db, r, a), r.op) ==> Inside(db, context, k)
  {
    hide FoundBy, Mine, Hook, Alone;
    FoundIsMine(db, context, r, a);
  }

  /** A delete is alone exactly when it is refused among the context's rows or hits nobody. */
  lemma {:induction false} RemoveAloneIff(db: Db, context: Option<Tenant>, r: Request, a: Args, ids: nat -> Id,
                                          rules: Constraints)
    requires Hook(r, context) == Some(a) && Removes(r.op) && Regular(rules)
    ensures var out, alone := PerformRemove(db, r, a, rules), PerformRemove(Alone(db, context), r, a, rules);
            && (out.1 == alone.1 && OthersKept(db, out.0, context) <==> !Decisive(db, context, r, ids, rules))
            && (!Decisive(db, context, r, ids, rules) ==> Alone(out.0, context) == alone.0)
            && (OthersKept(db, out.0, context) <==> !Hitting(db, context, r, rules))
  {
    var found := FoundBy(db, r, a);
    var seed := Seed(r.model, found, r.op);
    hide Hook, FoundBy, Restricted, Hit, Alone, Removed, Regular, OthersKept, Inside, Matching;
    SeedInside(db, context, r, a);
    RestrictedSeen(db, context, rules, seed);
    OthersThemselves(db, context);
    if !Restricted(db, rules, seed) {
      RemovedKeepsIff(db, context, rules, seed);
      if !Hit(db, context, rules, seed) { UnhitRemoved(db, context, rules, seed); }
    }
    if seed == {} { NothingHit(db, context, rules, seed); }
  }

  lemma {:induction false} NothingHit(db: Db, context: Option<Tenant>, rules: Constraints, seed: set<Key>)
    requires seed == {}
    ensures !Hit(db, context, rules, seed)
  {
    hide Chain, RefersBy;
  }

  lemma {:induction false} ReadAlone(db: Db, context: Option<Tenant>, r: Request, a: Args, ids: nat -> Id,
                                     rules: Constraints)
    requires Hook(r, context) == Some(a) && NamedRequest(r) && !Puts(r.op) && !Removes(r.op)
    ensures AsAlone(db, context, r, ids, rules)
  {
    hide FoundBy, Mine, Matching, Alone, Scoped;
    OthersThemselves(db, context);
    AloneTable(db, context, r.model);
    if r.op.Unnamed? {
      GlobalSeen(TableOf(db, r.model), context, r.model);
    } else {
      FoundIsMine(db, context, r, a);
    }
  }

  lemma {:induction false} GlobalSeen(table: Table, context: Option<Tenant>, m: Model)
    requires m !in TENANT_SCOPED_MODELS
    ensures Seen(table, context, m) == table
  {
  }

  /** A statement answers and acts as on the database without the other tenants' rows, and leaves those rows
      alone, if and only if none of them decides it; when one does, the answers or those rows differ. */
  lemma {:induction false} StatementAloneIff(db: Db, context: Option<Tenant>, r: Request, ids: nat -> Id,
                                             rules: Constraints)
    requires NamedRequest(r) && Regular(rules) && forall k :: ids(k) !in TableOf(db, r.model)
    requires Consistent(TableOf(db, r.model), rules(r.model).keys)
    ensures AsAlone(db, context, r, ids, rules) <==> !Decisive(db, context, r, ids, rules)
    ensures var out, alone := Statement(db, context, r, ids, rules),
            Statement(Alone(db, context), context, r, ids, rules);
            out.1 == alone.1 && OthersKept(db, out.0, context) <==> !Decisive(db, context, r, ids, rules)
  {
    hide Regular, OthersKept, Alone, Consistent, PerformPut, PerformRemove, Collides, Borrows, Restricted, Hit, Seed,
         FoundBy;
    hide Answered, RowsPut;
    match Hook(r, context)
    case None => OthersThemselves(db, context);
    case Some(a) =>
      hide Hook;
      if Puts(r.op) {
        PutAloneIff(db, context, r, a, ids, rules);
      } else if Removes(r.op) {
        RemoveAloneIff(db, context, r, a, ids, rules);
      } else {
        ReadAlone(db, context, r, a, ids, rules);
      }
  }

  /** A statement leaves other tenants' rows as they were if and only if it is no delete that hits one. */
  lemma {:induction false} StatementKeepsOthersIff(db: Db, context: Option<Tenant>, r: Request, ids: nat -> Id,
                                                   rules: Constraints)
    requires NamedRequest(r) && Regular(rules)
    ensures OthersKept(db, Statement(db, context, r, ids, rules).0, context) <==> !Hitting(db, context, r, rules)
  {
    hide Regular, OthersKept, Alone, PerformRemove, Restricted, Hit, Seed, FoundBy, Answered, RowsPut, Accepts, IdsFree;
    match Hook(r, context)
    case None => OthersThemselves(db, context);
    case Some(a) =>
      hide Hook, Decisive;
      OthersThemselves(db, context);
      if Puts(r.op) && IdsFree(db, r, a, ids) {
        PutsMine(db, context, r, a, ids);
        WithSplits(db, context, r.model, RowsPut(FoundBy(db, r, a), r.op, a, ids));
      } else if Removes(r.op) {
        RemoveAloneIff(db, context, r, a, ids, rules);
      }
  }
}
