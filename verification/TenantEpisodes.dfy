/** Inputs at which another tenant's row decides a statement, under the schema's own constraints. */
module TenantEpisodes {
  import opened Schema
  import opened TenantScoping
  import opened TenantDatabase
  import opened TenantPrivacy
  import opened TenantSchema

  /** The schema without row-local checks. */
  function Rulebook(): Constraints { SchemaRules((m, row) => true) }

  /** Generated ids 9, 10, ... */
  function FromNine(): nat -> Id { k => 9 + k }

  /** prisma.<model>.create with literal values. */
  function Creating(m: Model, values: map<string, Value>): Request {
    Request(m, Create, Args(None, Some(One(map c | c in values :: TenantScoping.Put(values[c]))), None, None),
            found => Nothing)
  }

  /** The row a create of tenant `t` would insert. */
  function NewRow(values: map<string, Value>, t: Tenant): Row { values["tenantId" := Text(t)] }

  /** A create is accepted exactly when the constraints accept the stamped row. */
  lemma {:induction false} CreateAnswer(db: Db, t: Tenant, m: Model, values: map<string, Value>, ids: nat -> Id)
    requires m in TENANT_SCOPED_MODELS && ids(0) !in TableOf(db, m)
    ensures var row := NewRow(values, t);
            Statement(db, Some(t), Creating(m, values), ids, Rulebook()).1
            == if Accepts(db, m, map[ids(0) := row], Rulebook()) then Wrote(ids(0), row) else Refused
  {
    hide Accepts, Rulebook, TENANT_SCOPED_MODELS;
    var r := Creating(m, values);
    var a := Hook(r, Some(t)).value;
    var f := FieldsOf(a.data);
    assert Written(map[], f) == NewRow(values, t);
    assert [f][..0] == [];
    assert Placed([f], ids) == map[ids(0) := NewRow(values, t)];
  }

  /** Into an empty table a row is accepted when its references resolve. */
  lemma {:induction false} FirstRow(db: Db, m: Model, id: Id, row: Row)
    requires TableOf(db, m) == map[]
    requires forall c :: c in SchemaRefs(m) ==> Resolves(db, row, c, SchemaRefs(m)[c]) && SchemaRefs(m)[c].target != m
    ensures Accepts(db, m, map[id := row], Rulebook())
  {
    hide Collide, SchemaRefs, SchemaKeys;
    var rows: Table := map[id := row];
    assert map[] + rows == rows;
    assert Consistent(rows, SchemaKeys(m));
    forall c | c in SchemaRefs(m)
      ensures Resolves(With(db, m, rows), row, c, SchemaRefs(m)[c])
    {
      OtherTable(db, m, rows, row, c, SchemaRefs(m)[c]);
    }
  }

  lemma {:induction false} OtherTable(db: Db, m: Model, rows: Table, row: Row, c: string, ref: Reference)
    requires Resolves(db, row, c, ref) && ref.target != m
    ensures Resolves(With(db, m, rows), row, c, ref)
  {
  }

  /** A row that collides with a stored one is not accepted. */
  lemma {:induction false} SecondRow(db: Db, m: Model, i: Id, stored: Row, j: Id, row: Row, u: UniqueKey,
                                     rules: Constraints)
    requires TableOf(db, m) == map[i := stored] && i != j && u in rules(m).keys && Collide(stored, row, u)
    ensures !Accepts(db, m, map[j := row], rules)
  {
    var changed: Table := map[i := stored] + map[j := row];
    assert changed[i] == stored && changed[j] == row;
    hide Collide, RefsHold;
  }

  // ---------- an exclusion constraint ----------

  const HELD: Row :=
    map["tenantId" := Text("a"), "equipmentId" := Ref(1), "customerId" := Ref(4), "startAt" := Num(0),
        "endAt" := Num(10),
        "status" := Text("RESERVED")]

  const WANTED: map<string, Value> :=
    map["equipmentId" := Ref(1), "customerId" := Ref(2), "startAt" := Num(5), "endAt" := Num(15),
        "status" := Text("RESERVED")]

  /** Tenant a's equipment and tenant b's customer, with or without tenant a's reservation. */
  function Rental(held: Table): Db {
    map["Equipment" := map[1 := map["tenantId" := Text("a")]], "Customer" := map[2 := map["tenantId" := Text("b")]],
        "Reservation" := held]
  }

  lemma {:induction false} WindowsCollide()
    ensures var u := NoOverlap("equipmentId", {Text("RESERVED"), Text("ACTIVE")});
            u in SchemaKeys("Reservation") && Collide(HELD, NewRow(WANTED, "b"), u)
  {
  }

  lemma {:induction false} HeldWindow()
    ensures !Accepts(Rental(map[3 := HELD]), "Reservation", map[9 := NewRow(WANTED, "b")], Rulebook())
  {
    hide Accepts, Collide, SchemaKeys, SchemaRefs, NoOverlap, NewRow;
    var u := NoOverlap("equipmentId", {Text("RESERVED"), Text("ACTIVE")});
    WindowsCollide();
    SecondRow(Rental(map[3 := HELD]), "Reservation", 3, HELD, 9, NewRow(WANTED, "b"), u, Rulebook());
  }

  lemma {:induction false} FreeWindow()
    ensures Accepts(Rental(map[]), "Reservation", map[9 := NewRow(WANTED, "b")], Rulebook())
  {
    hide Accepts;
    FirstRow(Rental(map[]), "Reservation", 9, NewRow(WANTED, "b"));
  }

  lemma {:induction false} SameRentalShown(held: Table)
    requires forall id :: id in held ==> !OwnRow(held[id], "b")
    ensures Alone(Rental(held), Some("b")) == Alone(Rental(map[]), Some("b"))
  {
  }

  /** Tenant b is shown the same rows whether tenant a holds the window or not, and is refused a reservation
      of tenant a's equipment exactly when it does. */
  lemma {:induction false} ReservationIsVisible()
    ensures var free, held, booking := Rental(map[]), Rental(map[3 := HELD]), Creating("Reservation", WANTED);
            && Alone(held, Some("b")) == Alone(free, Some("b"))
            && Statement(held, Some("b"), booking, FromNine(), Rulebook()).1 == Refused
            && Statement(free, Some("b"), booking, FromNine(), Rulebook()).1 == Wrote(9, NewRow(WANTED, "b"))
  {
    SameRentalShown(map[3 := HELD]);
    HeldWindow();
    FreeWindow();
    assert FromNine()(0) == 9;
    hide Accepts, Statement, Alone, Rulebook, Creating, NewRow, FromNine;
    CreateAnswer(Rental(map[3 := HELD]), "b", "Reservation", WANTED, FromNine());
    CreateAnswer(Rental(map[]), "b", "Reservation", WANTED, FromNine());
  }

  // ---------- a foreign key ----------

  const FILED: map<string, Value> := map["categoryId" := Ref(1), "code" := Text("x")]

  /** Tenant a's categories, and no products. */
  function Shop(categories: Table): Db { map["Category" := categories, "Product" := map[]] }

  const SECTION: Table := map[1 := map["tenantId" := Text("a")]]

  lemma {:induction false} KnownCategory()
    ensures Accepts(Shop(SECTION), "Product", map[9 := NewRow(FILED, "b")], Rulebook())
    ensures !Accepts(Shop(map[]), "Product", map[9 := NewRow(FILED, "b")], Rulebook())
  {
    assert NewReference(Shop(map[]), "Product", map[9 := NewRow(FILED, "b")], SchemaRefs("Product"), 9, "categoryId");
    hide Consistent;
    FirstRow(Shop(SECTION), "Product", 9, NewRow(FILED, "b"));
  }

  lemma {:induction false} NoCategoryShown(categories: Table)
    requires forall id :: id in categories ==> !OwnRow(categories[id], "b")
    ensures Alone(Shop(categories), Some("b")) == Alone(Shop(map[]), Some("b"))
  {
  }

  /** Tenant b is shown nothing of tenant a's categories, and its product in one is accepted exactly when the
      category exists. */
  lemma {:induction false} CategoryIsVisible()
    ensures var with, without, filing := Shop(SECTION), Shop(map[]), Creating("Product", FILED);
            && Alone(with, Some("b")) == Alone(without, Some("b"))
            && Statement(with, Some("b"), filing, FromNine(), Rulebook()).1 == Wrote(9, NewRow(FILED, "b"))
            && Statement(without, Some("b"), filing, FromNine(), Rulebook()).1 == Refused
  {
    KnownCategory();
    NoCategoryShown(SECTION);
    assert FromNine()(0) == 9;
    hide Accepts, Statement, Alone, Rulebook, Creating, NewRow, FromNine;
    CreateAnswer(Shop(SECTION), "b", "Product", FILED, FromNine());
    CreateAnswer(Shop(map[]), "b", "Product", FILED, FromNine());
  }

  // ---------- a unique index ----------

  const PRICED: Row := map["tenantId" := Text("a"), "variantId" := Ref(1), "currency" := Text("EUR")]

  const PRICING: map<string, Value> := map["variantId" := Ref(1), "currency" := Text("EUR")]

  /** Tenant a's variant, with or without its price. */
  function PriceList(prices: Table): Db {
    map["ProductVariant" := map[1 := map["tenantId" := Text("a")]], "Price" := prices]
  }

  lemma {:induction false} TakenPrice()
    ensures !Accepts(PriceList(map[3 := PRICED]), "Price", map[9 := NewRow(PRICING, "b")], Rulebook())
    ensures Accepts(PriceList(map[]), "Price", map[9 := NewRow(PRICING, "b")], Rulebook())
  {
    var u := On({"variantId", "currency"});
    assert u in SchemaKeys("Price") && Collide(PRICED, NewRow(PRICING, "b"), u);
    hide Accepts, Collide, SchemaKeys;
    SecondRow(PriceList(map[3 := PRICED]), "Price", 3, PRICED, 9, NewRow(PRICING, "b"), u, Rulebook());
    FirstRow(PriceList(map[]), "Price", 9, NewRow(PRICING, "b"));
  }

  lemma {:induction false} SamePricesShown(prices: Table)
    requires forall id :: id in prices ==> !OwnRow(prices[id], "b")
    ensures Alone(PriceList(prices), Some("b")) == Alone(PriceList(map[]), Some("b"))
  {
  }

  /** A price for a variant that another tenant has already priced is refused. */
  lemma {:induction false} SharedKeyIsVisible()
    ensures var priced, unpriced, pricing := PriceList(map[3 := PRICED]), PriceList(map[]), Creating("Price", PRICING);
            && Alone(priced, Some("b")) == Alone(unpriced, Some("b"))
            && Statement(priced, Some("b"), pricing, FromNine(), Rulebook()).1 == Refused
            && Statement(unpriced, Some("b"), pricing, FromNine(), Rulebook()).1 == Wrote(9, NewRow(PRICING, "b"))
  {
    TakenPrice();
    SamePricesShown(map[3 := PRICED]);
    assert FromNine()(0) == 9;
    hide Accepts, Statement, Alone, Rulebook, Creating, NewRow, FromNine;
    CreateAnswer(PriceList(map[3 := PRICED]), "b", "Price", PRICING, FromNine());
    CreateAnswer(PriceList(map[]), "b", "Price", PRICING, FromNine());
  }

  // ---------- a delete action ----------

  const LENT: Row := map["tenantId" := Text("a"), "storeId" := Ref(1)]

  /** Tenant a's asset stands in tenant b's store. */
  function Depot(): Db { map["Store" := map[1 := map["tenantId" := Text("b")]], "Asset" := map[2 := LENT]] }

  /** prisma.store.delete of row 1. */
  function Closing(): Request {
    Request("Store", Delete, Args(Some(map["id" := Test((id, row) => id == 1)]), None, None, None), found => Nothing)
  }

  /** When tenant b deletes its store, tenant a's asset is changed. */
  lemma {:induction false} DeleteReachesOthers()
    ensures !OthersKept(Depot(), Statement(Depot(), Some("b"), Closing(), FromNine(), Rulebook()).0, Some("b"))
  {
    ClosingHits();
    SchemaRegular((m, row) => true);
    hide *;
    ClosingNamed();
    StatementKeepsOthersIff(Depot(), Some("b"), Closing(), FromNine(), Rulebook());
  }

  lemma {:induction false} ClosingNamed()
    ensures NamedRequest(Closing()) && Rulebook() == SchemaRules((m, row) => true)
  {
  }

  lemma {:induction false} ClosingFinds() returns (a: Args)
    ensures Hook(Closing(), Some("b")) == Some(a)
    ensures Seed("Store", FoundBy(Depot(), Closing(), a), Delete) == {Key("Store", 1)}
  {
    a := Hook(Closing(), Some("b")).value;
    var stores := TableOf(Depot(), "Store");
    assert a.filter == Some(map["id" := Test((id, row) => id == 1), "tenantId" := Equals(Text("b"))]);
    assert MeetsAll(1, stores[1], a.filter.value);
    assert FoundBy(Depot(), Closing(), a) == stores;
  }

  lemma {:induction false} LentRefers()
    ensures RefersBy(Depot(), Rulebook(), Key("Asset", 2), "storeId", Key("Store", 1))
    ensures Outside(Depot(), Some("b"), Key("Asset", 2))
  {
    assert SchemaRefs("Asset") == map["storeId" := To("Store", SetNull)];
    hide SchemaRefs, SchemaKeys;
  }

  lemma {:induction false} NothingRestricts(child: Key, parent: Key)
    ensures !Refers(Depot(), Rulebook(), child, parent, Restrict)
  {
    assert SchemaRefs("Asset") == map["storeId" := To("Store", SetNull)] && SchemaRefs("Store") == map[];
    hide SchemaRefs, SchemaKeys;
  }

  lemma {:induction false} ClosingHits()
    ensures Hitting(Depot(), Some("b"), Closing(), Rulebook())
  {
    var a := ClosingFinds();
    LentRefers();
    hide Hook, FoundBy, Seed, Depot, Rulebook, RefersBy, Outside, Refers;
    forall child, parent
      ensures !Refers(Depot(), Rulebook(), child, parent, Restrict)
    {
      NothingRestricts(child, parent);
    }
    var path := [Key("Store", 1)];
    assert Chain(Depot(), Rulebook(), path);
    assert Doomed(Depot(), Rulebook(), {Key("Store", 1)}, path[0]);
  }
}
