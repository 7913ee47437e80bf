/** Two ways in which programs are isolated without looking at other tenants' rows: they refer to their own
    tenant's rows only, or they touch only tables whose constraints all contain the tenant. */
module TenantOwnership {
  import opened Schema
  import opened TenantScoping
  import opened TenantDatabase
  import opened TenantPrivacy
  import opened TenantIsolation

  // ---------- nobody refers across tenants ----------

  /** What other tenants' rows refer to is not the context's. */
  ghost predicate Apart(db: Db, context: Option<Tenant>, rules: Constraints) {
    forall child, c, parent ::
      Outside(db, context, child) && RefersBy(db, rules, child, c, parent) && parent.model in TENANT_SCOPED_MODELS ==>
        Outside(db, context, parent)
  }

  /** Global tables that others refer to refer to nothing themselves. */
  ghost predicate GlobalsAreRoots(rules: Constraints) {
    forall m, c :: c in rules(m).refs && rules(m).refs[c].target !in TENANT_SCOPED_MODELS ==>
      rules(rules(m).refs[c].target).refs == map[]
  }

  /** Rows of tenant-scoped tables that the context sees. */
  ghost predicate ScopedSeed(db: Db, context: Option<Tenant>, seed: set<Key>) {
    forall k :: k in seed ==> k.model in TENANT_SCOPED_MODELS && Inside(db, context, k)
  }

  /** Whatever is referred to and goes with a scoped row is a scoped row itself. */
  lemma {:induction false} DoomedIsScoped(db: Db, context: Option<Tenant>, rules: Constraints, seed: set<Key>, k: Key,
                                          child: Key, c: string)
    requires GlobalsAreRoots(rules) && ScopedSeed(db, context, seed)
    requires Doomed(db, rules, seed, k) && RefersBy(db, rules, child, c, k)
    ensures k.model in TENANT_SCOPED_MODELS
  {
    hide Doomed, Points, Inside;
    if k !in seed {
      var parent := DoomedBy(db, rules, seed, k);
      var c' :| RefersBy(db, rules, k, c', parent);
      assert c' in rules(k.model).refs;
    }
  }

  /** Along a path of cascades the context's rows take only its own rows along. */
  lemma {:induction false} PathInside(db: Db, context: Option<Tenant>, rules: Constraints, seed: set<Key>,
                                      path: seq<Key>)
    requires GlobalsAreRoots(rules) && ScopedSeed(db, context, seed) && Apart(db, context, rules)
    requires path != [] && path[0] in seed && Chain(db, rules, path)
    ensures Inside(db, context, path[|path| - 1])
    decreases |path|
  {
    hide GlobalsAreRoots, Inside, Outside, RefersBy;
    var n := |path| - 1;
    if n > 0 {
      var front := path[..n];
      assert Chain(db, rules, front) && front[0] == path[0] && front[|front| - 1] == path[n - 1];
      PathInside(db, context, rules, seed, front);
      assert Refers(db, rules, path[n], path[n - 1], Cascade);
      var c :| RefersBy(db, rules, path[n], c, path[n - 1]);
      PrefixDoomed(db, rules, seed, path, n - 1);
      DoomedIsScoped(db, context, rules, seed, path[n - 1], path[n], c);
      RefersStands(db, rules, path[n], c, path[n - 1]);
      InsideIs(db, context, path[n]);
      InsideIs(db, context, path[n - 1]);
    }
  }

  lemma {:induction false} RefersStands(db: Db, rules: Constraints, child: Key, c: string, parent: Key)
    requires RefersBy(db, rules, child, c, parent)
    ensures Stands(db, child) && Stands(db, parent)
  {
  }

  /** Then no delete of the context's scoped rows hits anybody. */
  lemma {:induction false} ApartNotHit(db: Db, context: Option<Tenant>, rules: Constraints, seed: set<Key>)
    requires GlobalsAreRoots(rules) && ScopedSeed(db, context, seed) && Apart(db, context, rules)
    ensures !Hit(db, context, rules, seed)
  {
    hide GlobalsAreRoots, Inside, Outside, RefersBy, ScopedSeed;
    if Hit(db, context, rules, seed) {
      var child, c, parent :| Outside(db, context, child) && Doomed(db, rules, seed, parent)
                              && RefersBy(db, rules, child, c, parent);
      DoomedIsScoped(db, context, rules, seed, parent, child, c);
      var path :| path != [] && path[0] in seed && path[|path| - 1] == parent && Chain(db, rules, path);
      PathInside(db, context, rules, seed, path);
      RefersStands(db, rules, child, c, parent);
      InsideIs(db, context, parent);
    }
  }

  lemma {:induction false} ScopedSeedOf(db: Db, context: Option<Tenant>, r: Request, a: Args)
    requires Hook(r, context) == Some(a) && Removes(r.op) && r.model in TENANT_SCOPED_MODELS
    ensures ScopedSeed(db, context, Seed(r.model, FoundBy(db, r, a), r.op))
  {
    hide Hook, Inside, FoundBy;
    SeedInside(db, context, r, a);
  }

  // ---------- tables whose constraints contain the tenant ----------

  /** Every key contains the tenant, and every reference does or leads to a global table. */
  ghost predicate TenantKeyed(touched: set<Model>, rules: Constraints) {
    && touched <= TENANT_SCOPED_MODELS
    && (forall m, u :: m in touched && u in rules(m).keys ==> "tenantId" in u.columns)
    && (forall m, c :: m in touched && c in rules(m).refs ==>
          rules(m).refs[c].withTenant || rules(m).refs[c].target !in TENANT_SCOPED_MODELS)
  }

  /** Another tenant's row holds a reference to a tenant-scoped table. */
  predicate RefersOutside(db: Db, context: Option<Tenant>, rules: Constraints, child: Key, c: string, id: Id) {
    && Outside(db, context, child) && c in rules(child.model).refs
    && rules(child.model).refs[c].target in TENANT_SCOPED_MODELS && ColumnOf(RowAt(db, child), c) == Ref(id)
  }

  /** Other tenants' rows refer to existing rows that are not the context's. */
  ghost predicate Sealed(db: Db, context: Option<Tenant>, rules: Constraints) {
    forall child, c, id :: RefersOutside(db, context, rules, child, c, id) ==>
      Outside(db, context, Key(rules(child.model).refs[c].target, id))
  }

  lemma {:induction false} SealedIsApart(db: Db, context: Option<Tenant>, rules: Constraints)
    requires Sealed(db, context, rules)
    ensures Apart(db, context, rules)
  {
    hide Outside, SameTenant;
    forall child, c, parent | Outside(db, context, child) && RefersBy(db, rules, child, c, parent)
                              && parent.model in TENANT_SCOPED_MODELS
      ensures Outside(db, context, parent)
    {
      assert RefersOutside(db, context, rules, child, c, parent.id);
    }
  }

  lemma {:induction false} OutsideKept(db: Db, db': Db, context: Option<Tenant>, k: Key)
    requires OthersKept(db, db', context)
    ensures Outside(db, context, k) <==> Outside(db', context, k)
    ensures Outside(db, context, k) ==> RowAt(db, k) == RowAt(db', k)
  {
    hide Mine, TableOf;
    assert k.id in Unseen(TableOf(db, k.model), context, k.model) <==> Outside(db, context, k);
    assert k.id in Unseen(TableOf(db', k.model), context, k.model) <==> Outside(db', context, k);
  }

  lemma {:induction false} SealedStays(db: Db, db': Db, context: Option<Tenant>, rules: Constraints)
    requires Sealed(db, context, rules) && OthersKept(db, db', context)
    ensures Sealed(db', context, rules)
  {
    hide Outside, OthersKept, RowAt;
    forall child, c, id | RefersOutside(db', context, rules, child, c, id)
      ensures Outside(db', context, Key(rules(child.model).refs[c].target, id))
    {
      OutsideKept(db, db', context, child);
      assert RefersOutside(db, context, rules, child, c, id);
      OutsideKept(db, db', context, Key(rules(child.model).refs[c].target, id));
    }
  }

  lemma {:induction false} TenantKeyNeverCollides(r: Row, s: Row, t: Tenant, u: UniqueKey)
    requires "tenantId" in u.columns && OwnRow(r, t) && !OwnRow(s, t)
    ensures !Collide(r, s, u) && !Collide(s, r, u)
  {
  }

  lemma {:induction false} KeyedPut(db: Db, t: Tenant, m: Model, rows: Table, touched: set<Model>, rules: Constraints)
    requires TenantKeyed(touched, rules) && m in touched && MineOver(db, Some(t), m, rows)
    ensures !Collides(db, Some(t), m, rows, rules) && !Borrows(db, Some(t), m, rows, rules)
  {
    hide Accepts, Collide, With, OwnRow;
    var changed := TableOf(db, m) + rows;
    forall u, i, j | u in rules(m).keys && i in changed && j in changed
                     && Mine(Some(t), m, changed[i]) && !Mine(Some(t), m, changed[j])
      ensures !Collide(changed[i], changed[j], u) && !Collide(changed[j], changed[i], u)
    {
      TenantKeyNeverCollides(changed[i], changed[j], t, u);
    }
    forall id, c | id in rows && c in rules(m).refs
      ensures !Foreign(With(db, m, rows), Some(t), rows[id], c, rules(m).refs[c])
    {
      KeyedReference(With(db, m, rows), t, rows[id], c, rules(m).refs[c]);
    }
  }

  lemma {:induction false} KeyedReference(db: Db, t: Tenant, row: Row, c: string, ref: Reference)
    requires OwnRow(row, t) && (ref.withTenant || ref.target !in TENANT_SCOPED_MODELS)
    ensures !Foreign(db, Some(t), row, c, ref)
  {
  }

  /** Named operations on the given models. */
  ghost predicate NamedOn(p: Program, touched: set<Model>) {
    forall h :: p(h).Some? ==> p(h).value.model in touched && !p(h).value.op.Unnamed?
  }

  lemma {:induction false} KeyedUndecided(db: Db, t: Tenant, r: Request, ids: nat -> Id, touched: set<Model>,
                                          rules: Constraints)
    requires TenantKeyed(touched, rules) && GlobalsAreRoots(rules) && r.model in touched && Sealed(db, Some(t), rules)
    requires forall k :: ids(k) !in TableOf(db, r.model)
    ensures !Decisive(db, Some(t), r, ids, rules)
  {
    hide Sealed, GlobalsAreRoots, Collides, Borrows, Hit, Restricted, RowsPut, Answered, FoundBy, Seed, MineOver,
         ScopedSeed;
    assert r.model in TENANT_SCOPED_MODELS;
    var a := Hook(r, Some(t)).value;
    hide TenantKeyed;
    if Puts(r.op) {
      NewIdsFree(db, r, a, ids);
      PutsMine(db, Some(t), r, a, ids);
      KeyedPut(db, t, r.model, RowsPut(FoundBy(db, r, a), r.op, a, ids), touched, rules);
    } else if Removes(r.op) {
      ScopedSeedOf(db, Some(t), r, a);
      SealedIsApart(db, Some(t), rules);
      ApartNotHit(db, Some(t), rules, Seed(r.model, FoundBy(db, r, a), r.op));
    }
  }

  lemma {:induction false} KeyedRun(db: Db, t: Tenant, p: Program, ids: IdSource, touched: set<Model>,
                                    rules: Constraints, history: seq<Answer>, steps: nat)
    requires TenantKeyed(touched, rules) && GlobalsAreRoots(rules) && Regular(rules) && NamedOn(p, touched)
    requires NeverRepeats(ids) && Ahead(db, ids, |history|) && AllConsistent(db, rules) && Sealed(db, Some(t), rules)
    ensures !DecisiveInRun(db, Some(t), p, ids, rules, history, steps)
    decreases steps
  {
    hide Statement, Decisive, TenantKeyed, GlobalsAreRoots, Regular, AllConsistent, Sealed, TableOf, OthersKept, Alone,
         NeverRepeats;
    if steps != 0 && p(history).Some? {
      var r, now := p(history).value, ids(|history|);
      var out := Statement(db, Some(t), r, now, rules);
      KeyedUndecided(db, t, r, now, touched, rules);
      StatementBeside(db, Some(t), r, now, rules);
      SealedStays(db, out.0, Some(t), rules);
      StaysAhead(db, Some(t), r, ids, |history|, rules);
      KeyedRun(out.0, t, p, ids, touched, rules, history + [out.1], steps - 1);
    }
  }

  /** Noninterference on tables whose constraints contain the tenant: whatever a program of named operations
      on them writes, two databases that show the tenant the same rows answer it alike and go on showing the
      same rows. */
  lemma {:induction false} NoninterferenceOfTenantKeys(db1: Db, db2: Db, t: Tenant, p: Program, ids: IdSource,
                                                       touched: set<Model>, rules: Constraints, steps: nat)
    requires TenantKeyed(touched, rules) && GlobalsAreRoots(rules) && Regular(rules) && NamedOn(p, touched)
             && NeverRepeats(ids)
    requires Ahead(db1, ids, 0) && AllConsistent(db1, rules) && Sealed(db1, Some(t), rules)
    requires Ahead(db2, ids, 0) && AllConsistent(db2, rules) && Sealed(db2, Some(t), rules)
    requires Alone(db1, Some(t)) == Alone(db2, Some(t))
    ensures var (db1', h1) := Run(db1, Some(t), p, ids, rules, [], steps);
            var (db2', h2) := Run(db2, Some(t), p, ids, rules, [], steps);
            h1 == h2 && Alone(db1', Some(t)) == Alone(db2', Some(t))
  {
    assert Named(p);
    hide Run, DecisiveInRun, TenantKeyed, GlobalsAreRoots, Regular, AllConsistent, Sealed, Alone, Ahead, NeverRepeats,
         NamedOn;
    hide Named;
    KeyedRun(db1, t, p, ids, touched, rules, [], steps);
    KeyedRun(db2, t, p, ids, touched, rules, [], steps);
    UndecidedRunsAgree(db1, db2, Some(t), p, ids, rules, steps);
  }

  // ---------- programs that refer to their own tenant's rows ----------

  /** Which columns hold values that belong to one tenant (its id, ids of its rows), and to whom a
      value of such a column belongs. */
  datatype Ownership = Ownership(anchors: Model -> set<string>, owner: (string, Value) -> Option<Tenant>)

  ghost predicate OwnershipOk(o: Ownership) {
    (forall m :: m in TENANT_SCOPED_MODELS ==> "tenantId" in o.anchors(m))
      && forall t :: o.owner("tenantId", Text(t)) == Some(t)
  }

  /** Every key of a tenant-scoped table has an anchored column, and every reference to one is anchored. */
  ghost predicate RulesAnchored(rules: Constraints, o: Ownership) {
    && OwnershipOk(o)
    && (forall m, u :: m in TENANT_SCOPED_MODELS && u in rules(m).keys ==>
          exists c :: c in u.columns && c in o.anchors(m))
    && (forall m, c :: c in rules(m).refs && rules(m).refs[c].target in TENANT_SCOPED_MODELS ==> c in o.anchors(m))
  }

  predicate RowAnchored(row: Row, m: Model, t: Tenant, o: Ownership) {
    forall c :: c in o.anchors(m) && c in row && row[c] != Null ==> o.owner(c, row[c]) == Some(t)
  }

  /** Every row names its tenant, and its anchored columns hold that tenant's values. */
  ghost predicate TableAnchored(table: Table, m: Model, o: Ownership) {
    forall id :: id in table ==>
      "tenantId" in table[id] && table[id]["tenantId"].Text? && RowAnchored(table[id], m, table[id]["tenantId"].s, o)
  }

  /** The row names its tenant, to whom its id belongs in every column that may hold it. */
  ghost predicate RowHoused(id: Id, row: Row, m: Model, rules: Constraints, o: Ownership) {
    && "tenantId" in row && row["tenantId"].Text?
    && forall m', c :: c in rules(m').refs && rules(m').refs[c].target == m ==>
         o.owner(c, Ref(id)) == Some(row["tenantId"].s)
  }

  ghost predicate Housed(table: Table, m: Model, rules: Constraints, o: Ownership) {
    forall id :: id in table ==> RowHoused(id, table[id], m, rules, o)
  }

  ghost predicate Sane(db: Db, rules: Constraints, o: Ownership) {
    && AllConsistent(db, rules)
    && forall m :: m in TENANT_SCOPED_MODELS ==>
         TableAnchored(TableOf(db, m), m, o) && Housed(TableOf(db, m), m, rules, o)
  }

  /** Written anchored columns hold null or the tenant's values. */
  predicate FieldsAnchored(f: Fields, m: Model, t: Tenant, o: Ownership) {
    forall c :: c in o.anchors(m) && c in f ==>
      f[c].Put? && (f[c].v == Null || o.owner(c, f[c].v) == Some(t))
  }

  /** References inside what is written belong to the tenant. */
  ghost predicate WritesAnchored(op: Verb, a: Args, m: Model, t: Tenant, o: Ownership) {
    forall k :: 0 <= k < |WrittenFields(op, a)| ==> FieldsAnchored(WrittenFields(op, a)[k], m, t, o)
  }

  /** The request writes its own tenant's references only and deletes no global row: the services resolve
      every reference through a tenant-scoped lookup first. */
  ghost predicate DisciplinedRequest(r: Request, t: Tenant, o: Ownership) {
    && (Hook(r, Some(t)).Some? ==> WritesAnchored(r.op, Hook(r, Some(t)).value, r.model, t, o))
    && (Removes(r.op) ==> r.model in TENANT_SCOPED_MODELS)
  }

  ghost predicate Disciplined(p: Program, t: Tenant, o: Ownership) {
    forall h :: p(h).Some? ==> DisciplinedRequest(p(h).value, t, o)
  }

  /** The ids generated for the program's rows are the tenant's. */
  ghost predicate Minted(ids: IdSource, t: Tenant, rules: Constraints, o: Ownership) {
    forall s, k, m, c :: c in rules(m).refs && rules(m).refs[c].target in TENANT_SCOPED_MODELS ==>
      o.owner(c, Ref(ids(s)(k))) == Some(t)
  }

  lemma {:induction false} WrittenAnchored(row: Row, f: Fields, m: Model, t: Tenant, o: Ownership)
    requires RowAnchored(row, m, t, o) && FieldsAnchored(f, m, t, o)
    ensures RowAnchored(Written(row, f), m, t, o)
  {
  }

  /** A row of one tenant never collides with a row of another on an anchored key. */
  lemma {:induction false} AnchoredNeverCollide(r: Row, s: Row, m: Model, t: Tenant, t': Tenant, u: UniqueKey,
                                                c: string, o: Ownership)
    requires RowAnchored(r, m, t, o) && RowAnchored(s, m, t', o) && t != t' && c in u.columns && c in o.anchors(m)
    ensures !Collide(r, s, u) && !Collide(s, r, u)
  {
  }

  /** A written anchored column: null, unchanged, or the tenant's. */
  lemma {:induction false} WrittenColumn(row: Row, f: Fields, m: Model, t: Tenant, o: Ownership, c: string)
    requires FieldsAnchored(f, m, t, o) && c in o.anchors(m)
    ensures var v := ColumnOf(Written(row, f), c); v == ColumnOf(row, c) || v == Null || o.owner(c, v) == Some(t)
  {
  }

  /** Put rows of a disciplined request: new references are the tenant's. */
  lemma {:induction false} NewIsOwned(db: Db, t: Tenant, r: Request, a: Args, ids: nat -> Id,
                                      refs: map<string, Reference>, o: Ownership, id: Id, c: string)
    requires Puts(r.op) && IdsFree(db, r, a, ids) && WritesAnchored(r.op, a, r.model, t, o)
    requires c in o.anchors(r.model) && NewReference(db, r.model, RowsPut(FoundBy(db, r, a), r.op, a, ids), refs, id, c)
    ensures var rows := RowsPut(FoundBy(db, r, a), r.op, a, ids);
            id in rows && (ColumnOf(rows[id], c) == Null || o.owner(c, ColumnOf(rows[id], c)) == Some(t))
  {
    hide RowsPut, Written, ColumnOf, FieldsAnchored, MeetsAll, Inserted;
    var found := FoundBy(db, r, a);
    var row, w := RowsPut(found, r.op, a, ids)[id], WrittenFields(r.op, a);
    var k := PutIsWritten(found, r.op, a, ids, id);
    EmptyColumn(c);
    if id in found && row == Written(found[id], w[k]) {
      WrittenColumn(found[id], w[k], r.model, t, o, c);
    } else {
      WrittenColumn(map[], w[k], r.model, t, o, c);
    }
  }

  lemma {:induction false} EmptyColumn(c: string)
    ensures ColumnOf(map[], c) == Null
  {
  }

  /** Put rows of a disciplined request on a tenant-scoped table are anchored. */
  lemma {:induction false} PutAnchored(db: Db, t: Tenant, r: Request, a: Args, ids: nat -> Id, o: Ownership, id: Id)
    requires Hook(r, Some(t)) == Some(a) && r.model in TENANT_SCOPED_MODELS && Puts(r.op)
             && WritesAnchored(r.op, a, r.model, t, o)
    requires TableAnchored(TableOf(db, r.model), r.model, o) && id in RowsPut(FoundBy(db, r, a), r.op, a, ids)
    ensures RowAnchored(RowsPut(FoundBy(db, r, a), r.op, a, ids)[id], r.model, t, o)
  {
    hide RowsPut, Written, FieldsAnchored, RowAnchored, FoundBy, Hook, Inserted;
    var found := FoundBy(db, r, a);
    var row, w := RowsPut(found, r.op, a, ids)[id], WrittenFields(r.op, a);
    var k := PutIsWritten(found, r.op, a, ids, id);
    if row == Written(map[], w[k]) {
      EmptyAnchored(r.model, t, o);
      WrittenAnchored(map[], w[k], r.model, t, o);
    } else {
      FoundIsMine(db, Some(t), r, a);
      WrittenAnchored(found[id], w[k], r.model, t, o);
    }
  }

  lemma {:induction false} EmptyAnchored(m: Model, t: Tenant, o: Ownership)
    ensures RowAnchored(map[], m, t, o)
  {
  }

  /** A tenant-scoped row names its tenant, who owns the values in its anchored columns. */
  lemma {:induction false} RowOwned(db: Db, rules: Constraints, o: Ownership, k: Key, c: string)
    requires Sane(db, rules, o) && k.model in TENANT_SCOPED_MODELS && Stands(db, k)
    ensures "tenantId" in RowAt(db, k) && RowAt(db, k)["tenantId"].Text?
    ensures c in o.anchors(k.model) && c in RowAt(db, k) && RowAt(db, k)[c] != Null ==>
              o.owner(c, RowAt(db, k)[c]) == Some(RowAt(db, k)["tenantId"].s)
  {
    hide AllConsistent, Housed;
    assert TableAnchored(TableOf(db, k.model), k.model, o);
  }

  /** The tenant a row names owns the row's id. */
  lemma {:induction false} IdOwned(db: Db, rules: Constraints, o: Ownership, k: Key, m: Model, c: string)
    requires Sane(db, rules, o) && k.model in TENANT_SCOPED_MODELS && Stands(db, k)
    requires c in rules(m).refs && rules(m).refs[c].target == k.model
    ensures "tenantId" in RowAt(db, k) && RowAt(db, k)["tenantId"].Text?
    ensures o.owner(c, Ref(k.id)) == Some(RowAt(db, k)["tenantId"].s)
  {
    hide AllConsistent, TableAnchored;
    assert Housed(TableOf(db, k.model), k.model, rules, o);
    assert RowHoused(k.id, RowAt(db, k), k.model, rules, o);
    hide Housed, Sane;
  }

  /** In a sane database nobody refers across tenants. */
  lemma {:induction false} SaneIsApart(db: Db, t: Tenant, rules: Constraints, o: Ownership)
    requires Sane(db, rules, o) && RulesAnchored(rules, o)
    ensures Apart(db, Some(t), rules)
  {
    hide Sane, SameTenant, TableOf;
    forall child, c, parent | Outside(db, Some(t), child) && RefersBy(db, rules, child, c, parent)
                              && parent.model in TENANT_SCOPED_MODELS
      ensures Outside(db, Some(t), parent)
    {
      RefersStands(db, rules, child, c, parent);
      RowOwned(db, rules, o, child, c);
      IdOwned(db, rules, o, parent, child.model, c);
    }
  }

  /** A row pointed to by a column whose value is the tenant's is the tenant's. */
  lemma {:induction false} OwnedNotForeign(db: Db, m: Model, rows: Table, t: Tenant, rules: Constraints, o: Ownership,
                                           row: Row, c: string)
    requires Sane(db, rules, o) && MineOver(db, Some(t), m, rows) && c in rules(m).refs
    requires ColumnOf(row, c) == Null || o.owner(c, ColumnOf(row, c)) == Some(t)
    ensures !Foreign(With(db, m, rows), Some(t), row, c, rules(m).refs[c])
  {
    hide Sane, SameTenant, With, TableOf;
    var target := rules(m).refs[c].target;
    if target in TENANT_SCOPED_MODELS && ColumnOf(row, c).Ref? {
      var k := Key(target, ColumnOf(row, c).id);
      if Stands(With(db, m, rows), k) { RowWith(db, m, rows, Some(t), k); }
      if Stands(db, k) { IdOwned(db, rules, o, k, m, c); }
    }
  }

  /** After a put a row is the context's or stands as it did. */
  lemma {:induction false} RowWith(db: Db, m: Model, rows: Table, context: Option<Tenant>, k: Key)
    requires MineOver(db, context, m, rows) && Stands(With(db, m, rows), k)
    ensures Mine(context, k.model, RowAt(With(db, m, rows), k))
            || (Stands(db, k) && RowAt(With(db, m, rows), k) == RowAt(db, k))
  {
    hide Mine;
  }

  lemma {:induction false} DisciplinedBorrowsNothing(db: Db, t: Tenant, r: Request, a: Args, ids: nat -> Id,
                                                     rules: Constraints, o: Ownership)
    requires Hook(r, Some(t)) == Some(a) && Puts(r.op) && WritesAnchored(r.op, a, r.model, t, o)
             && IdsFree(db, r, a, ids)
    requires Sane(db, rules, o) && RulesAnchored(rules, o)
    ensures !Borrows(db, Some(t), r.model, RowsPut(FoundBy(db, r, a), r.op, a, ids), rules)
  {
    var rows, refs := RowsPut(FoundBy(db, r, a), r.op, a, ids), rules(r.model).refs;
    hide Accepts, RowsPut, FoundBy, Foreign, With, Sane, Hook, WritesAnchored, IdsFree, Mine, NewReference, OwnershipOk;
    PutsMine(db, Some(t), r, a, ids);
    forall id, c | NewReference(db, r.model, rows, refs, id, c)
      ensures id in rows && c in refs && !Foreign(With(db, r.model, rows), Some(t), rows[id], c, refs[c])
    {
      NewReferenceIs(db, r.model, rows, refs, id, c);
      if refs[c].target in TENANT_SCOPED_MODELS {
        NewIsOwned(db, t, r, a, ids, refs, o, id, c);
        OwnedNotForeign(db, r.model, rows, t, rules, o, rows[id], c);
      } else {
        GlobalNotForeign(With(db, r.model, rows), t, rows[id], c, refs[c]);
      }
    }
  }

  lemma {:induction false} GlobalNotForeign(db: Db, t: Tenant, row: Row, c: string, ref: Reference)
    requires ref.target !in TENANT_SCOPED_MODELS
    ensures !Foreign(db, Some(t), row, c, ref)
  {
  }

  /** Anchored rows put by the tenant over anchored rows. */
  lemma {:induction false} PutTableAnchored(db: Db, t: Tenant, r: Request, a: Args, ids: nat -> Id, o: Ownership)
    requires Hook(r, Some(t)) == Some(a) && r.model in TENANT_SCOPED_MODELS && Puts(r.op)
             && WritesAnchored(r.op, a, r.model, t, o)
    requires TableAnchored(TableOf(db, r.model), r.model, o) && IdsFree(db, r, a, ids)
    ensures TableAnchored(TableOf(db, r.model) + RowsPut(FoundBy(db, r, a), r.op, a, ids), r.model, o)
  {
    var rows := RowsPut(FoundBy(db, r, a), r.op, a, ids);
    hide RowsPut, FoundBy, Hook, WritesAnchored, IdsFree, RowAnchored;
    PutsMine(db, Some(t), r, a, ids);
    forall id | id in rows
      ensures RowAnchored(rows[id], r.model, t, o)
    {
      PutAnchored(db, t, r, a, ids, o, id);
    }
  }

  lemma {:induction false} AnchoredNoCross(table: Table, t: Tenant, m: Model, rules: Constraints, o: Ownership)
    requires m in TENANT_SCOPED_MODELS ==> TableAnchored(table, m, o)
    requires RulesAnchored(rules, o)
    ensures !CrossCollision(table, Some(t), m, rules(m).keys)
  {
    hide Collide, RowAnchored;
    if m in TENANT_SCOPED_MODELS {
      forall u, i, j | u in rules(m).keys && i in table && j in table && OwnRow(table[i], t) && !OwnRow(table[j], t)
        ensures !Collide(table[i], table[j], u) && !Collide(table[j], table[i], u)
      {
        var c :| c in u.columns && c in o.anchors(m);
        AnchoredNeverCollide(table[i], table[j], m, t, table[j]["tenantId"].s, u, c, o);
      }
    }
  }

  /** A disciplined request on a sane database is decided by nobody else. */
  lemma {:induction false} DisciplinedUndecided(db: Db, t: Tenant, r: Request, ids: nat -> Id, rules: Constraints,
                                                o: Ownership)
    requires DisciplinedRequest(r, t, o) && RulesAnchored(rules, o) && GlobalsAreRoots(rules) && Sane(db, rules, o)
    requires forall k :: ids(k) !in TableOf(db, r.model)
    ensures !Decisive(db, Some(t), r, ids, rules)
  {
    assert r.model in TENANT_SCOPED_MODELS ==> TableAnchored(TableOf(db, r.model), r.model, o);
    var a := Hook(r, Some(t)).value;
    hide RulesAnchored, GlobalsAreRoots, Sane, WritesAnchored, Borrows, Hit, Restricted, RowsPut, Answered, FoundBy,
         Seed;
    hide CrossCollision, Accepts, TableAnchored, ScopedSeed, Hook;
    if Puts(r.op) {
      NewIdsFree(db, r, a, ids);
      DisciplinedBorrowsNothing(db, t, r, a, ids, rules, o);
      if r.model in TENANT_SCOPED_MODELS { PutTableAnchored(db, t, r, a, ids, o); }
      AnchoredNoCross(TableOf(db, r.model) + RowsPut(FoundBy(db, r, a), r.op, a, ids), t, r.model, rules, o);
    } else if Removes(r.op) {
      ScopedSeedOf(db, Some(t), r, a);
      SaneIsApart(db, t, rules, o);
      ApartNotHit(db, Some(t), rules, Seed(r.model, FoundBy(db, r, a), r.op));
    }
  }

  // ---------- sanity stays ----------

  lemma {:induction false} RemainderAnchored(db: Db, rules: Constraints, seed: set<Key>, k: Key, row: Row, t: Tenant,
                                             o: Ownership)
    requires RowAnchored(row, k.model, t, o)
    ensures RowAnchored(Remainder(db, rules, seed, k, row), k.model, t, o)
  {
    hide Emptied;
  }

  lemma {:induction false} RemainderTenant(db: Db, rules: Constraints, seed: set<Key>, k: Key, row: Row)
    requires Regular(rules)
    ensures ColumnOf(Remainder(db, rules, seed, k, row), "tenantId") == ColumnOf(row, "tenantId")
    ensures "tenantId" in Remainder(db, rules, seed, k, row) <==> "tenantId" in row
  {
    assert !Emptied(db, rules, seed, k, "tenantId");
    hide Emptied, Regular;
  }

  lemma {:induction false} RemovedSane(db: Db, rules: Constraints, seed: set<Key>, m: Model, o: Ownership)
    requires Regular(rules) && TableAnchored(TableOf(db, m), m, o) && Housed(TableOf(db, m), m, rules, o)
    ensures TableAnchored(TableOf(Removed(db, rules, seed), m), m, o)
            && Housed(TableOf(Removed(db, rules, seed), m), m, rules, o)
  {
    var before: Table, after: Table := TableOf(db, m), TableOf(Removed(db, rules, seed), m);
    hide Removed, Doomed, Remainder, RowAnchored, Regular;
    RemovedTable(db, rules, seed, m);
    forall id | id in after
      ensures id in before && "tenantId" in after[id] && after[id]["tenantId"] == before[id]["tenantId"]
      ensures RowAnchored(after[id], m, after[id]["tenantId"].s, o)
    {
      RemainderTenant(db, rules, seed, Key(m, id), before[id]);
      RemainderAnchored(db, rules, seed, Key(m, id), before[id], before[id]["tenantId"].s, o);
    }
  }

  lemma {:induction false} PutHoused(db: Db, t: Tenant, m: Model, rows: Table, rules: Constraints, o: Ownership)
    requires Housed(TableOf(db, m), m, rules, o) && m in TENANT_SCOPED_MODELS && MineOver(db, Some(t), m, rows)
    requires forall id, m', c ::
               id in rows && id !in TableOf(db, m) && c in rules(m').refs && rules(m').refs[c].target == m ==>
               o.owner(c, Ref(id)) == Some(t)
    ensures Housed(TableOf(db, m) + rows, m, rules, o)
  {
    hide TableOf;
  }

  lemma {:induction false} MintedPut(db: Db, r: Request, a: Args, ids: IdSource, s: nat, t: Tenant, rules: Constraints,
                                     o: Ownership, id: Id, m: Model, c: string)
    requires Minted(ids, t, rules, o) && Puts(r.op) && r.model in TENANT_SCOPED_MODELS
    requires id in RowsPut(FoundBy(db, r, a), r.op, a, ids(s)) && id !in TableOf(db, r.model)
    requires c in rules(m).refs && rules(m).refs[c].target == r.model
    ensures o.owner(c, Ref(id)) == Some(t)
  {
    hide RowsPut, Written, MeetsAll, Inserted;
    var k := PutIsWritten(FoundBy(db, r, a), r.op, a, ids(s), id);
  }

  lemma {:induction false} PutSane(db: Db, t: Tenant, r: Request, a: Args, ids: IdSource, s: nat, rules: Constraints,
                                   o: Ownership)
    requires Hook(r, Some(t)) == Some(a) && r.model in TENANT_SCOPED_MODELS && Puts(r.op)
             && WritesAnchored(r.op, a, r.model, t, o)
    requires TableAnchored(TableOf(db, r.model), r.model, o) && Housed(TableOf(db, r.model), r.model, rules, o)
    requires IdsFree(db, r, a, ids(s)) && Minted(ids, t, rules, o)
    ensures var table := TableOf(db, r.model) + RowsPut(FoundBy(db, r, a), r.op, a, ids(s));
            TableAnchored(table, r.model, o) && Housed(table, r.model, rules, o)
  {
    var rows := RowsPut(FoundBy(db, r, a), r.op, a, ids(s));
    hide RowsPut, FoundBy, Hook, WritesAnchored, IdsFree, TableAnchored, Housed, Minted, Mine;
    PutTableAnchored(db, t, r, a, ids(s), o);
    PutsMine(db, Some(t), r, a, ids(s));
    forall id, m, c | && id in rows && id !in TableOf(db, r.model) && c in rules(m).refs
                      && rules(m).refs[c].target == r.model
      ensures o.owner(c, Ref(id)) == Some(t)
    {
      MintedPut(db, r, a, ids, s, t, rules, o, id, m, c);
    }
    PutHoused(db, t, r.model, rows, rules, o);
  }

  /** A statement leaves a table alone, puts its rows into it, or removes from it. */
  lemma {:induction false} TableAfter(db: Db, t: Tenant, r: Request, a: Args, ids: nat -> Id, rules: Constraints,
                                      m: Model)
    requires Hook(r, Some(t)) == Some(a)
    ensures var before, after := TableOf(db, m), TableOf(Statement(db, Some(t), r, ids, rules).0, m);
            || after == before
            || (Puts(r.op) && IdsFree(db, r, a, ids) && m == r.model
                && after == before + RowsPut(FoundBy(db, r, a), r.op, a, ids))
            || (Removes(r.op) && after == TableOf(Removed(db, rules, Seed(r.model, FoundBy(db, r, a), r.op)), m))
  {
    hide Hook, RowsPut, Answered, FoundBy, Seed, Restricted, Removed, Accepts, IdsFree;
  }

  lemma {:induction false} TableStaysSane(db: Db, t: Tenant, r: Request, a: Args, ids: IdSource, s: nat,
                                          rules: Constraints, o: Ownership, m: Model)
    requires Hook(r, Some(t)) == Some(a) && WritesAnchored(r.op, a, r.model, t, o) && Regular(rules)
             && Minted(ids, t, rules, o)
    requires m in TENANT_SCOPED_MODELS && TableAnchored(TableOf(db, m), m, o) && Housed(TableOf(db, m), m, rules, o)
    ensures var after := TableOf(Statement(db, Some(t), r, ids(s), rules).0, m);
            TableAnchored(after, m, o) && Housed(after, m, rules, o)
  {
    hide *;
    TableAfter(db, t, r, a, ids(s), rules, m);
    if Puts(r.op) && m == r.model && IdsFree(db, r, a, ids(s)) { PutSane(db, t, r, a, ids, s, rules, o); }
    RemovedSane(db, rules, Seed(r.model, FoundBy(db, r, a), r.op), m, o);
  }

  lemma {:induction false} StaysSane(db: Db, t: Tenant, r: Request, ids: IdSource, s: nat, rules: Constraints,
                                     o: Ownership)
    requires DisciplinedRequest(r, t, o) && Regular(rules) && Minted(ids, t, rules, o) && Sane(db, rules, o)
    ensures Sane(Statement(db, Some(t), r, ids(s), rules).0, rules, o)
  {
    assert Hook(r, Some(t)).Some?;
    hide AllConsistent, Regular, Minted, WritesAnchored, TableAnchored, Housed, Statement, Hook, TableOf;
    StaysConsistent(db, Some(t), r, ids(s), rules);
    forall m | m in TENANT_SCOPED_MODELS
      ensures var after := TableOf(Statement(db, Some(t), r, ids(s), rules).0, m);
              TableAnchored(after, m, o) && Housed(after, m, rules, o)
    {
      TableStaysSane(db, t, r, Hook(r, Some(t)).value, ids, s, rules, o, m);
    }
  }

  lemma {:induction false} DisciplinedRun(db: Db, t: Tenant, p: Program, ids: IdSource, rules: Constraints,
                                          o: Ownership, history: seq<Answer>, steps: nat)
    requires Disciplined(p, t, o) && RulesAnchored(rules, o) && GlobalsAreRoots(rules) && Regular(rules)
    requires NeverRepeats(ids) && Minted(ids, t, rules, o) && Ahead(db, ids, |history|) && Sane(db, rules, o)
    ensures !DecisiveInRun(db, Some(t), p, ids, rules, history, steps)
    decreases steps
  {
    hide Statement, Decisive, RulesAnchored, GlobalsAreRoots, Regular, Sane, TableOf, NeverRepeats, Minted,
         DisciplinedRequest;
    if steps != 0 && p(history).Some? {
      var r, now := p(history).value, ids(|history|);
      var out := Statement(db, Some(t), r, now, rules);
      DisciplinedUndecided(db, t, r, now, rules, o);
      StaysSane(db, t, r, ids, |history|, rules, o);
      StaysAhead(db, Some(t), r, ids, |history|, rules);
      DisciplinedRun(out.0, t, p, ids, rules, o, history + [out.1], steps - 1);
    }
  }

  /** Noninterference: two databases that show the tenant the same rows answer a disciplined program alike, go
      on showing the same rows, and keep all other tenants' rows. */
  lemma {:induction false} Noninterference(db1: Db, db2: Db, t: Tenant, p: Program, ids: IdSource, rules: Constraints,
                                           o: Ownership, steps: nat)
    requires Named(p) && Disciplined(p, t, o) && RulesAnchored(rules, o) && GlobalsAreRoots(rules) && Regular(rules)
    requires NeverRepeats(ids) && Minted(ids, t, rules, o)
    requires Sane(db1, rules, o) && Ahead(db1, ids, 0) && Sane(db2, rules, o) && Ahead(db2, ids, 0)
    requires Alone(db1, Some(t)) == Alone(db2, Some(t))
    ensures var (db1', h1) := Run(db1, Some(t), p, ids, rules, [], steps);
            var (db2', h2) := Run(db2, Some(t), p, ids, rules, [], steps);
            h1 == h2 && Alone(db1', Some(t)) == Alone(db2', Some(t)) && OthersKept(db1, db1', Some(t))
  {
    assert AllConsistent(db1, rules) && AllConsistent(db2, rules);
    hide *;
    DisciplinedRun(db1, t, p, ids, rules, o, [], steps);
    DisciplinedRun(db2, t, p, ids, rules, o, [], steps);
    UndecidedRunsAgree(db1, db2, Some(t), p, ids, rules, steps);
    ProgramAloneIff(db1, Some(t), p, ids, rules, steps);
  }
}
