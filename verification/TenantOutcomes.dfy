/** What a caller's statement does once it has been scoped, said of the conditions and fields the caller gave:
    which rows it reads, changes or deletes, and what the written rows hold. */
module TenantOutcomes {
  import opened Schema
  import opened TenantScoping
  import opened TenantDatabase
  import opened TenantPrivacy

  // ---------- the rows a caller means ----------

  predicate Holds(id: Id, row: Row, key: string, c: Cond) {
    (c.Equals? && key in row && row[key] == c.v) || (c.Test? && c.p(id, row))
  }

  /** A row of the tenant that meets every condition the caller gave, other than one on the tenant. */
  predicate Chosen(table: Table, t: Tenant, f: Option<Filter>, id: Id) {
    && id in table && "tenantId" in table[id] && table[id]["tenantId"] == Text(t)
    && (f.Some? ==> forall k :: k in f.value && k != "tenantId" ==> Holds(id, table[id], k, f.value[k]))
  }

  /** A scoped filter matches exactly these rows, as they are. */
  lemma {:induction false} MatchesChosen(table: Table, op: Verb, a: Args, t: Tenant)
    requires Filters(op)
    ensures var found := Matching(table, Scoped(op, a, t).filter);
            forall id :: (id in found <==> Chosen(table, t, a.filter, id)) && (id in found ==> found[id] == table[id])
  {
    FilterScoped(op, a, t);
    hide Scoped;
    var g := ScopedFilter(a.filter, t).value;
    forall id | id in table
      ensures MeetsAll(id, table[id], g) <==> Chosen(table, t, a.filter, id)
    {
      MeetsChosen(table, t, a.filter, id);
    }
    hide MeetsAll, Chosen;
  }

  lemma {:induction false} MeetsChosen(table: Table, t: Tenant, f: Option<Filter>, id: Id)
    requires id in table
    ensures MeetsAll(id, table[id], ScopedFilter(f, t).value) <==> Chosen(table, t, f, id)
  {
    var g, row := ScopedFilter(f, t).value, table[id];
    forall k | k in g
      ensures Meets(id, row, k, g[k]) <==> Holds(id, row, k, g[k])
    {
    }
    assert g["tenantId"] == Equals(Text(t));
    assert f.Some? ==> forall k :: k in f.value && k != "tenantId" ==> k in g && g[k] == f.value[k];
    assert forall k :: k in g && k != "tenantId" ==> f.Some? && k in f.value;
    hide Meets;
  }

  // ---------- the values a caller gives ----------

  /** What a column holds after a scoped write of these fields over the row. */
  function After(row: Row, fields: Fields, t: Tenant, c: string): Value {
    if c == "tenantId" then Text(t)
    else if c !in fields then ColumnOf(row, c)
    else match fields[c] case Put(v) => v case Alter(f) => f(ColumnOf(row, c))
  }

  /** Every field the caller gave is stored as given, the tenant is the caller's, and nothing else is written. */
  ghost predicate StoredAs(row': Row, row: Row, fields: Fields, t: Tenant) {
    && row'.Keys == row.Keys + fields.Keys + {"tenantId"}
    && forall c :: ColumnOf(row', c) == After(row, fields, t, c)
  }

  lemma {:induction false} StoredScoped(row: Row, f: Option<Fields>, t: Tenant)
    ensures StoredAs(Written(row, ScopedFields(f, t)), row, f.GetOr(map[]), t)
  {
  }

  /** What an operation writes: as many records as the caller gave, each stored as given. */
  lemma {:induction false} WritesAsGiven(op: Verb, a: Args, t: Tenant)
    requires op == CreateMany ==> a.data.Some?
    ensures var given, written := WrittenFields(op, a), WrittenFields(op, Scoped(op, a, t));
            && |written| == |given|
            && forall k, row :: 0 <= k < |given| ==> StoredAs(Written(row, written[k]), row, given[k], t)
  {
    var given, written := WrittenFields(op, a), WrittenFields(op, Scoped(op, a, t));
    assert |written| == |given|;
    forall k, row | 0 <= k < |given|
      ensures StoredAs(Written(row, written[k]), row, given[k], t)
    {
      assert written[k] == ScopedFields(Some(given[k]), t);
      StoredScoped(row, Some(given[k]), t);
    }
  }

  // ---------- whole statements ----------

  ghost function Selected(table: Table, t: Tenant, f: Option<Filter>): Table {
    map id | id in table && Chosen(table, t, f, id) :: table[id]
  }

  lemma {:induction false} FoundIsSelected(db: Db, t: Tenant, r: Request)
    requires r.model in TENANT_SCOPED_MODELS && Filters(r.op)
    ensures Hook(r, Some(t)) == Some(Scoped(r.op, r.args, t))
    ensures FoundBy(db, r, Scoped(r.op, r.args, t)) == Selected(TableOf(db, r.model), t, r.args.filter)
  {
    MatchesChosen(TableOf(db, r.model), r.op, r.args, t);
    hide Scoped, Chosen, Matching;
  }

  /** A read answers from exactly the chosen rows and changes nothing. */
  lemma {:induction false} ReadsChosen(db: Db, t: Tenant, r: Request, ids: nat -> Id, rules: Constraints)
    requires r.model in TENANT_SCOPED_MODELS && IsRead(r.op)
    ensures Statement(db, Some(t), r, ids, rules)
            == (db, r.project(Selected(TableOf(db, r.model), t, r.args.filter)))
  {
    FoundIsSelected(db, t, r);
    hide Scoped, FoundBy, Selected, PerformPut, PerformRemove;
  }

  /** Only one table changed, by rows put into it. */
  ghost predicate OnlyPut(db: Db, db': Db, m: Model, ids: set<Id>) {
    && (forall x :: x != m ==> TableOf(db', x) == TableOf(db, x))
    && forall id :: id !in ids ==>
         && (id in TableOf(db', m) <==> id in TableOf(db, m))
         && (id in TableOf(db, m) ==> TableOf(db', m)[id] == TableOf(db, m)[id])
  }

  /** A row that the statement has put, with its fields as given. */
  ghost predicate Left(db: Db, db': Db, m: Model, id: Id, fields: Fields, t: Tenant) {
    && id in TableOf(db', m) && StoredAs(TableOf(db', m)[id], Stored(db, m, id), fields, t)
  }

  /** The statement has put this one row, with its fields as given, and answers it. */
  ghost predicate WroteOne(db: Db, out: (Db, Answer), m: Model, id: Id, fields: Fields, t: Tenant) {
    && OnlyPut(db, out.0, m, {id}) && Left(db, out.0, m, id, fields, t) && out.1 == Wrote(id, TableOf(out.0, m)[id])
  }

  lemma {:induction false} WithPuts(db: Db, m: Model, rows: Table)
    ensures OnlyPut(db, With(db, m, rows), m, rows.Keys)
    ensures var table := TableOf(With(db, m, rows), m);
            forall id :: id in rows ==> id in table && table[id] == rows[id]
  {
  }

  /** A refused put changes nothing; an accepted one has put its rows. */
  lemma {:induction false} PutGoesThrough(db: Db, t: Tenant, r: Request, ids: nat -> Id, rules: Constraints)
    requires r.model in TENANT_SCOPED_MODELS && Puts(r.op)
    ensures var a, out := Scoped(r.op, r.args, t), Statement(db, Some(t), r, ids, rules);
            var rows := RowsPut(FoundBy(db, r, a), r.op, a, ids);
            if out.1 == Refused then out.0 == db
            else && out.0 == With(db, r.model, rows) && OnlyPut(db, out.0, r.model, rows.Keys)
                 && (forall id :: id in rows ==>
                       id in TableOf(out.0, r.model) && TableOf(out.0, r.model)[id] == rows[id])
                 && out.1 == Answered(FoundBy(db, r, a), r.op, a, ids) && IdsFree(db, r, a, ids)
  {
    var a := Scoped(r.op, r.args, t);
    WithPuts(db, r.model, RowsPut(FoundBy(db, r, a), r.op, a, ids));
    hide Scoped, FoundBy, RowsPut, Answered, Accepts, IdsFree, PerformRemove, With, OnlyPut, TableOf;
  }

  /** An accepted statement that puts one row leaves it as given and answers it. */
  lemma {:induction false} OneRowPut(db: Db, t: Tenant, r: Request, ids: nat -> Id, rules: Constraints, id: Id,
                                     f: Fields, given: Fields)
    requires r.model in TENANT_SCOPED_MODELS && Puts(r.op) && Statement(db, Some(t), r, ids, rules).1 != Refused
    requires var a, row := Scoped(r.op, r.args, t), Stored(db, r.model, id);
             && RowsPut(FoundBy(db, r, a), r.op, a, ids) == map[id := Written(row, f)]
             && Answered(FoundBy(db, r, a), r.op, a, ids) == Wrote(id, Written(row, f))
             && StoredAs(Written(row, f), row, given, t)
    ensures WroteOne(db, Statement(db, Some(t), r, ids, rules), r.model, id, given, t)
  {
    PutGoesThrough(db, t, r, ids, rules);
    assert (map[id := Written(Stored(db, r.model, id), f)]).Keys == {id};
    hide Statement, Scoped, FoundBy, RowsPut, Answered, Written, StoredAs, OnlyPut, IdsFree, Stored;
  }

  /** What the operations with one data record write. */
  lemma {:induction false} DataAsGiven(op: Verb, a: Args, t: Tenant, row: Row)
    requires op == Create || op == Update || op == UpdateMany
    ensures StoredAs(Written(row, FieldsOf(Scoped(op, a, t).data)), row, FieldsOf(a.data), t)
  {
    WritesAsGiven(op, a, t);
    assert FieldsOf(Scoped(op, a, t).data) == WrittenFields(op, Scoped(op, a, t))[0];
    assert FieldsOf(a.data) == WrittenFields(op, a)[0];
    hide Scoped, FieldsOf, Written, StoredAs;
  }

  lemma {:induction false} UpdateManyRows(found: Table, a: Args, ids: nat -> Id)
    ensures RowsPut(found, UpdateMany, a, ids).Keys == found.Keys
    ensures forall id :: id in found ==>
              RowsPut(found, UpdateMany, a, ids)[id] == Written(found[id], FieldsOf(a.data))
    ensures Answered(found, UpdateMany, a, ids) == Figure(|found|)
  {
    hide Written, FieldsOf;
  }

  lemma {:induction false} SelectedStored(db: Db, t: Tenant, m: Model, f: Option<Filter>, id: Id)
    requires id in Selected(TableOf(db, m), t, f)
    ensures Selected(TableOf(db, m), t, f)[id] == Stored(db, m, id)
  {
    hide Chosen;
  }

  lemma {:induction false} LeftRow(db: Db, db': Db, m: Model, id: Id, fields: Fields, t: Tenant)
    requires id in TableOf(db', m) && StoredAs(TableOf(db', m)[id], Stored(db, m, id), fields, t)
    ensures Left(db, db', m, id, fields, t)
  {
  }

  /** updateMany leaves every chosen row with the fields as given, no other row changed, and counts them. */
  lemma {:induction false} UpdateManyLeaves(db: Db, t: Tenant, r: Request, ids: nat -> Id, rules: Constraints)
    requires r.model in TENANT_SCOPED_MODELS && r.op == UpdateMany
    ensures var out, chosen := Statement(db, Some(t), r, ids, rules), Selected(TableOf(db, r.model), t, r.args.filter);
            if out.1 == Refused then out.0 == db
            else && out.1 == Figure(|chosen|) && OnlyPut(db, out.0, r.model, chosen.Keys)
                 && forall id :: id in chosen ==> Left(db, out.0, r.model, id, FieldsOf(r.args.data), t)
  {
    FoundIsSelected(db, t, r);
    PutGoesThrough(db, t, r, ids, rules);
    hide *;
    var out, chosen := Statement(db, Some(t), r, ids, rules), Selected(TableOf(db, r.model), t, r.args.filter);
    UpdateManyRows(chosen, Scoped(r.op, r.args, t), ids);
    if out.1 != Refused {
      forall id | id in chosen
        ensures Left(db, out.0, r.model, id, FieldsOf(r.args.data), t)
      {
        SelectedStored(db, t, r.model, r.args.filter, id);
        DataAsGiven(r.op, r.args, t, chosen[id]);
        LeftRow(db, out.0, r.model, id, FieldsOf(r.args.data), t);
      }
    }
  }

  lemma {:induction false} UpdateRow(found: Table, a: Args, ids: nat -> Id)
    requires found != map[]
    ensures var id, f := Pick(found), FieldsOf(a.data);
            && RowsPut(found, Update, a, ids) == map[id := Written(found[id], f)]
            && Answered(found, Update, a, ids) == Wrote(id, Written(found[id], f))
  {
    hide Written, FieldsOf;
  }

  /** update leaves one of the chosen rows with the fields as given and answers it; without a chosen row it is
      refused. */
  lemma {:induction false} UpdateLeaves(db: Db, t: Tenant, r: Request, ids: nat -> Id, rules: Constraints)
    requires r.model in TENANT_SCOPED_MODELS && r.op == Update
    ensures var out, chosen := Statement(db, Some(t), r, ids, rules), Selected(TableOf(db, r.model), t, r.args.filter);
            if out.1 == Refused then out.0 == db
            else exists id :: id in chosen && WroteOne(db, out, r.model, id, FieldsOf(r.args.data), t)
  {
    FoundIsSelected(db, t, r);
    PutGoesThrough(db, t, r, ids, rules);
    var a, chosen := Scoped(r.op, r.args, t), Selected(TableOf(db, r.model), t, r.args.filter);
    assert Answered(chosen, r.op, a, ids) != Refused ==> chosen != map[];
    hide *;
    if Statement(db, Some(t), r, ids, rules).1 != Refused {
      var id := Pick(chosen);
      UpdateRow(chosen, a, ids);
      SelectedStored(db, t, r.model, r.args.filter, id);
      DataAsGiven(r.op, r.args, t, chosen[id]);
      OneRowPut(db, t, r, ids, rules, id, FieldsOf(a.data), FieldsOf(r.args.data));
    }
  }

  lemma {:induction false} OnePlaced(f: Fields, ids: nat -> Id)
    ensures Placed([f], ids) == map[ids(0) := Written(map[], f)]
  {
    assert [f][..0] == [];
  }

  /** What an insert puts under the one generated id. */
  lemma {:induction false} InsertRow(found: Table, op: Verb, a: Args, ids: nat -> Id)
    requires op == Create || (op == Upsert && found == map[])
    ensures var f := if op == Create then FieldsOf(a.data) else a.create.GetOr(map[]);
            && Inserted(found, op, a) == [f]
            && RowsPut(found, op, a, ids) == map[ids(0) := Written(map[], f)]
            && Answered(found, op, a, ids) == Wrote(ids(0), Written(map[], f))
  {
    OnePlaced(if op == Create then FieldsOf(a.data) else a.create.GetOr(map[]), ids);
    hide Written, FieldsOf, Placed;
  }

  /** Generated ids of an accepted statement are new. */
  lemma {:induction false} NewIds(db: Db, r: Request, a: Args, ids: nat -> Id, k: nat)
    requires IdsFree(db, r, a, ids) && k < |Inserted(FoundBy(db, r, a), r.op, a)|
    ensures ids(k) !in TableOf(db, r.model) && Stored(db, r.model, ids(k)) == map[]
  {
  }

  /** create leaves one new row with the fields as given and answers it. */
  lemma {:induction false} CreateLeaves(db: Db, t: Tenant, r: Request, ids: nat -> Id, rules: Constraints)
    requires r.model in TENANT_SCOPED_MODELS && r.op == Create
    ensures var out := Statement(db, Some(t), r, ids, rules);
            if out.1 == Refused then out.0 == db
            else ids(0) !in TableOf(db, r.model) && WroteOne(db, out, r.model, ids(0), FieldsOf(r.args.data), t)
  {
    PutGoesThrough(db, t, r, ids, rules);
    hide *;
    var a := Scoped(r.op, r.args, t);
    InsertRow(FoundBy(db, r, a), r.op, a, ids);
    if Statement(db, Some(t), r, ids, rules).1 != Refused {
      NewIds(db, r, a, ids, 0);
      DataAsGiven(r.op, r.args, t, map[]);
      OneRowPut(db, t, r, ids, rules, ids(0), FieldsOf(a.data), FieldsOf(r.args.data));
    }
  }

  /** createMany leaves one new row for each record given, with its fields as given, and counts them. */
  lemma {:induction false} CreateManyLeaves(db: Db, t: Tenant, r: Request, ids: nat -> Id, rules: Constraints)
    requires r.model in TENANT_SCOPED_MODELS && r.op == CreateMany && r.args.data.Some?
    requires forall i: nat, j: nat :: i != j ==> ids(i) != ids(j)
    ensures var out, list := Statement(db, Some(t), r, ids, rules), ListOf(r.args.data);
            if out.1 == Refused then out.0 == db
            else && out.1 == Figure(|list|)
                 && OnlyPut(db, out.0, r.model, set k | 0 <= k < |list| :: ids(k))
                 && forall k :: 0 <= k < |list| ==>
                      ids(k) !in TableOf(db, r.model) && Left(db, out.0, r.model, ids(k), list[k], t)
  {
    PutGoesThrough(db, t, r, ids, rules);
    WritesAsGiven(r.op, r.args, t);
    var a := Scoped(r.op, r.args, t);
    var list, written := ListOf(r.args.data), ListOf(a.data);
    assert written == WrittenFields(r.op, a) && list == WrittenFields(r.op, r.args);
    AllPlaced(written, ids);
    hide Scoped, FoundBy, StoredAs, Written, Statement, OnlyPut, ListOf, Placed, WrittenFields;
  }

  lemma {:induction false} AllPlaced(list: seq<Fields>, ids: nat -> Id)
    requires forall i: nat, j: nat :: i != j ==> ids(i) != ids(j)
    ensures Placed(list, ids).Keys == set k | 0 <= k < |list| :: ids(k)
    ensures forall k :: 0 <= k < |list| ==>
              ids(k) in Placed(list, ids) && Placed(list, ids)[ids(k)] == Written(map[], list[k])
  {
    hide Written;
    if list != [] {
      AllPlaced(list[..|list| - 1], ids);
    }
  }

  lemma {:induction false} UpsertRow(found: Table, a: Args, ids: nat -> Id)
    requires found != map[]
    ensures var id, f := Pick(found), a.update.GetOr(map[]);
            && RowsPut(found, Upsert, a, ids) == map[id := Written(found[id], f)]
            && Answered(found, Upsert, a, ids) == Wrote(id, Written(found[id], f))
  {
    hide Written;
  }

  /** What the two sides of an upsert write. */
  lemma {:induction false} SidesAsGiven(a: Args, t: Tenant, row: Row)
    ensures StoredAs(Written(row, Scoped(Upsert, a, t).create.GetOr(map[])), row, a.create.GetOr(map[]), t)
    ensures StoredAs(Written(row, Scoped(Upsert, a, t).update.GetOr(map[])), row, a.update.GetOr(map[]), t)
  {
    var written := WrittenFields(Upsert, Scoped(Upsert, a, t));
    WritesAsGiven(Upsert, a, t);
    assert written[0] == Scoped(Upsert, a, t).create.GetOr(map[]);
    assert written[1] == Scoped(Upsert, a, t).update.GetOr(map[]);
    assert WrittenFields(Upsert, a)[0] == a.create.GetOr(map[]);
    assert WrittenFields(Upsert, a)[1] == a.update.GetOr(map[]);
    hide Scoped, Written, StoredAs;
  }

  /** upsert updates one of the chosen rows with its update side, or creates one with its create side when there
      is none. */
  lemma {:induction false} UpsertLeaves(db: Db, t: Tenant, r: Request, ids: nat -> Id, rules: Constraints)
    requires r.model in TENANT_SCOPED_MODELS && r.op == Upsert
    ensures var out, chosen := Statement(db, Some(t), r, ids, rules), Selected(TableOf(db, r.model), t, r.args.filter);
            if out.1 == Refused then out.0 == db
            else if chosen == map[] then
              ids(0) !in TableOf(db, r.model) && WroteOne(db, out, r.model, ids(0), r.args.create.GetOr(map[]), t)
            else exists id :: id in chosen && WroteOne(db, out, r.model, id, r.args.update.GetOr(map[]), t)
  {
    FoundIsSelected(db, t, r);
    PutGoesThrough(db, t, r, ids, rules);
    hide *;
    var a, chosen := Scoped(r.op, r.args, t), Selected(TableOf(db, r.model), t, r.args.filter);
    if Statement(db, Some(t), r, ids, rules).1 != Refused {
      if chosen == map[] {
        InsertRow(chosen, r.op, a, ids);
        NewIds(db, r, a, ids, 0);
        SidesAsGiven(r.args, t, map[]);
        OneRowPut(db, t, r, ids, rules, ids(0), a.create.GetOr(map[]), r.args.create.GetOr(map[]));
      } else {
        var id := Pick(chosen);
        UpsertRow(chosen, a, ids);
        SelectedStored(db, t, r.model, r.args.filter, id);
        SidesAsGiven(r.args, t, chosen[id]);
        OneRowPut(db, t, r, ids, rules, id, a.update.GetOr(map[]), r.args.update.GetOr(map[]));
      }
    }
  }

  ghost function KeysOf(m: Model, ids: set<Id>): set<Key> { set id | id in ids :: Key(m, id) }

  /** These rows are out, with whatever goes with them, and every other row stands. */
  ghost predicate TakenOut(db: Db, db': Db, rules: Constraints, m: Model, gone: set<Id>) {
    forall k :: Stands(db', k) <==> Stands(db, k) && !Doomed(db, rules, KeysOf(m, gone), k)
  }

  lemma {:induction false} RemovedIs(db: Db, rules: Constraints, m: Model, gone: set<Id>)
    ensures TakenOut(db, Removed(db, rules, KeysOf(m, gone)), rules, m, gone)
  {
    hide Doomed, Remainder;
  }

  /** A refused delete changes nothing; an accepted one has taken out its rows. */
  lemma {:induction false} RemoveGoesThrough(db: Db, t: Tenant, r: Request, ids: nat -> Id, rules: Constraints)
    requires r.model in TENANT_SCOPED_MODELS && Removes(r.op)
    ensures var found, out := FoundBy(db, r, Scoped(r.op, r.args, t)), Statement(db, Some(t), r, ids, rules);
            if out.1 == Refused then out.0 == db
            else && out.0 == Removed(db, rules, Seed(r.model, found, r.op))
                 && (r.op == DeleteMany ==> out.1 == Figure(|found|))
                 && (r.op == Delete ==> found != map[] && out.1 == Wrote(Pick(found), found[Pick(found)]))
  {
    hide Scoped, FoundBy, Removed, Seed, Restricted, PerformPut;
  }

  lemma {:induction false} SeedIs(m: Model, found: Table, op: Verb)
    ensures op == DeleteMany ==> Seed(m, found, op) == KeysOf(m, found.Keys)
    ensures op == Delete && found != map[] ==> Seed(m, found, op) == KeysOf(m, {Pick(found)})
  {
  }

  /** deleteMany takes out exactly the chosen rows, and counts them. A refused one changes nothing. */
  lemma {:induction false} DeleteManyLeaves(db: Db, t: Tenant, r: Request, ids: nat -> Id, rules: Constraints)
    requires r.model in TENANT_SCOPED_MODELS && r.op == DeleteMany
    ensures var out, chosen := Statement(db, Some(t), r, ids, rules), Selected(TableOf(db, r.model), t, r.args.filter);
            if out.1 == Refused then out.0 == db
            else out.1 == Figure(|chosen|) && TakenOut(db, out.0, rules, r.model, chosen.Keys)
  {
    FoundIsSelected(db, t, r);
    RemoveGoesThrough(db, t, r, ids, rules);
    hide *;
    var chosen := Selected(TableOf(db, r.model), t, r.args.filter);
    RemovedIs(db, rules, r.model, chosen.Keys);
    SeedIs(r.model, chosen, r.op);
  }

  /** delete takes out one of them and answers it. */
  lemma {:induction false} DeleteLeaves(db: Db, t: Tenant, r: Request, ids: nat -> Id, rules: Constraints)
    requires r.model in TENANT_SCOPED_MODELS && r.op == Delete
    ensures var out, chosen := Statement(db, Some(t), r, ids, rules), Selected(TableOf(db, r.model), t, r.args.filter);
            if out.1 == Refused then out.0 == db
            else exists id :: id in chosen && out.1 == Wrote(id, chosen[id])
                              && TakenOut(db, out.0, rules, r.model, {id})
  {
    FoundIsSelected(db, t, r);
    RemoveGoesThrough(db, t, r, ids, rules);
    hide *;
    var chosen := Selected(TableOf(db, r.model), t, r.args.filter);
    if Statement(db, Some(t), r, ids, rules).1 != Refused {
      RemovedIs(db, rules, r.model, {Pick(chosen)});
      SeedIs(r.model, chosen, r.op);
    }
  }
}
