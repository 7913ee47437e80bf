/** The constraints of the schema and its migrations, isolation under them, and inputs at which another
    tenant's row decides a statement. */
module TenantSchema {
  import opened Schema
  import opened TenantScoping
  import opened TenantDatabase
  import opened TenantPrivacy
  import opened TenantIsolation
  import opened TenantOwnership

  // ---------- the constraints ----------

  function On(columns: set<string>): UniqueKey { UniqueKey(columns, map[], None) }

  /** No two rows with the same value in `column` and a holding status overlap in time. */
  function NoOverlap(column: string, holding: set<Value>): UniqueKey {
    UniqueKey({column}, map["status" := holding], Some(("startAt", "endAt")))
  }

  /** Unique indexes, partial ones included, and the two exclusion constraints. */
  function SchemaKeys(m: Model): set<UniqueKey> {
    match m
    case "Membership" => {On({"userId", "tenantId"})}
    case "Role" => {On({"tenantId", "id"}), On({"tenantId", "key"})}
    case "Store" => {On({"tenantId", "code"})}
    case "Asset" => {On({"tenantId", "code"})}
    case "Equipment" => {On({"assetId"}), On({"tenantId", "serialNumber"})}
    case "Customer" => {On({"tenantId", "code"})}
    case "Reservation" => {NoOverlap("equipmentId", {Text("RESERVED"), Text("ACTIVE")})}
    case "Category" => {On({"tenantId", "name"})}
    case "Product" => {On({"tenantId", "code"})}
    case "ProductVariant" => {On({"tenantId", "sku"})}
    case "Price" => {On({"variantId", "currency"})}
    case "Inventory" => {UniqueKey({"variantId"}, map["storeId" := {Null}], None), On({"storeId", "variantId"})}
    case "CartItem" => {On({"cartId", "variantId"})}
    case "PosDevice" => {On({"tenantId", "name"}), On({"credentialHash"})}
    case "PosSession" => {UniqueKey({"deviceId"}, map["status" := {Text("OPEN")}], None)}
    case "PosSale" => {On({"orderId"}), On({"paymentId"})}
    case "PosOperation" => {On({"deviceId", "clientUuid"}), On({"deviceId", "seq"})}
    case "PosFeedEvent" => {On({"tenantId", "feedSeq"})}
    case "Service" => {On({"tenantId", "name"})}
    case "Booking" => {On({"orderId"}), NoOverlap("serviceId", {Text("BOOKED"), Text("CONFIRMED"), Text("ACTIVE")})}
    case "User" => {On({"email"})}
    case "RefreshToken" => {On({"tokenHash"})}
    case "Tenant" => {On({"slug"})}
    case "Permission" => {On({"key"})}
    case "RolePermission" => {On({"roleId", "permissionId"})}
    case _ => {}
  }

  function To(target: Model, onDelete: OnDelete): Reference { Reference(target, false, onDelete) }

  /** Foreign keys, other than those of the tenant column to the tenant row. */
  function SchemaRefs(m: Model): map<string, Reference> {
    match m
    case "Membership" => map["userId" := To("User", Cascade), "roleId" := Reference("Role", true, Restrict)]
    case "RolePermission" => map["roleId" := To("Role", Cascade), "permissionId" := To("Permission", Cascade)]
    case "RefreshToken" => map["userId" := To("User", Cascade)]
    case "Asset" => map["storeId" := To("Store", SetNull)]
    case "Equipment" => map["assetId" := To("Asset", Cascade)]
    case "Reservation" => map["customerId" := To("Customer", Restrict), "equipmentId" := To("Equipment", Restrict)]
    case "Product" => map["categoryId" := To("Category", Restrict)]
    case "ProductVariant" => map["productId" := To("Product", Cascade)]
    case "Price" => map["variantId" := To("ProductVariant", Cascade)]
    case "Inventory" => map["variantId" := To("ProductVariant", Cascade), "storeId" := To("Store", Restrict)]
    case "Cart" => map["userId" := To("User", Cascade)]
    case "CartItem" => map["cartId" := To("Cart", Cascade), "variantId" := To("ProductVariant", Cascade)]
    case "Order" => map["userId" := To("User", Cascade), "customerId" := To("Customer", Restrict)]
    case "OrderItem" => map["orderId" := To("Order", Cascade), "variantId" := To("ProductVariant", Restrict)]
    case "Payment" => map["orderId" := To("Order", Cascade)]
    case "PosDevice" => map["storeId" := To("Store", Restrict)]
    case "PosSession" =>
      map["deviceId" := To("PosDevice", Cascade), "storeId" := To("Store", Restrict), "userId" := To("User", Cascade)]
    case "PosSale" =>
      map["orderId" := To("Order", Cascade), "paymentId" := To("Payment", Cascade),
          "sessionId" := To("PosSession", Cascade),
          "deviceId" := To("PosDevice", Cascade), "storeId" := To("Store", Restrict), "userId" := To("User", Cascade)]
    case "PosOperation" =>
      map["deviceId" := To("PosDevice", Cascade), "sessionId" := To("PosSession", Cascade),
          "storeId" := To("Store", Restrict), "userId" := To("User", Cascade),
          "resultOrderId" := To("Order", SetNull), "resultPaymentId" := To("Payment", SetNull)]
    case "PosOperationItem" => map["operationId" := To("PosOperation", Cascade)]
    case "Booking" =>
      map["serviceId" := To("Service", Restrict), "customerId" := To("Customer", Restrict),
          "orderId" := To("Order", Restrict)]
    case _ => map[]
  }

  /** The schema with any row-local checks (types, required columns, CHECK constraints). */
  function SchemaRules(valid: (Model, Row) -> bool): Constraints {
    m => Rules(SchemaKeys(m), SchemaRefs(m), row => valid(m, row))
  }

  // ---------- programs that refer to their own tenant's rows ----------

  /** The tenant column, the references to tenant-scoped tables, and the hash of a device's secret. */
  function SchemaAnchors(m: Model): set<string> {
    {"tenantId"} + (set c | c in SchemaRefs(m) && SchemaRefs(m)[c].target in TENANT_SCOPED_MODELS)
    + if m == "PosDevice" then {"credentialHash"} else {}
  }

  /** A tenant id belongs to itself, a row's id or a secret's hash to the tenant on record. */
  function SchemaOwnership(owners: Id -> Option<Tenant>, secrets: string -> Option<Tenant>): Ownership {
    Ownership(SchemaAnchors, (c, v: Value) =>
      match v
      case Ref(id) => owners(id)
      case Text(s) => if c == "tenantId" then Some(s) else secrets(s)
      case _ => None)
  }

  /** Every unique index and exclusion constraint has a column whose values belong to one tenant. */
  lemma {:induction false} SchemaKeysAnchored(m: Model, u: UniqueKey)
    requires m in TENANT_SCOPED_MODELS && u in SchemaKeys(m)
    ensures exists c :: c in u.columns && c in SchemaAnchors(m)
  {
    hide SchemaKeys, SchemaRefs;
    if "tenantId" in u.columns {
      assert "tenantId" in SchemaAnchors(m);
    } else {
      var c := AnchorColumn(m, u);
      assert c in SchemaAnchors(m);
    }
  }

  lemma {:induction false} AnchorColumn(m: Model, u: UniqueKey) returns (c: string)
    requires m in TENANT_SCOPED_MODELS && u in SchemaKeys(m) && "tenantId" !in u.columns
    ensures c in u.columns
    ensures (c in SchemaRefs(m) && SchemaRefs(m)[c].target in TENANT_SCOPED_MODELS)
            || (m == "PosDevice" && c == "credentialHash")
  {
    match m
    case "Equipment" => c := "assetId";
    case "Reservation" => c := "equipmentId";
    case "Price" => c := "variantId";
    case "Inventory" => c := "variantId";
    case "CartItem" => c := "cartId";
    case "PosDevice" => c := "credentialHash";
    case "PosSession" => c := "deviceId";
    case "PosSale" => c := if "orderId" in u.columns then "orderId" else "paymentId";
    case "PosOperation" => c := "deviceId";
    case "Booking" => c := if "orderId" in u.columns then "orderId" else "serviceId";
  }

  /** The schema meets what isolation asks of the constraints. */
  lemma {:induction false} SchemaRulesAnchored(owners: Id -> Option<Tenant>, secrets: string -> Option<Tenant>,
                                               valid: (Model, Row) -> bool)
    ensures RulesAnchored(SchemaRules(valid), SchemaOwnership(owners, secrets))
  {
    hide SchemaKeys, SchemaRefs, SchemaAnchors, SchemaRules, SchemaOwnership;
    SchemaOwners(owners, secrets);
    forall m
      ensures SchemaRules(valid)(m).keys == SchemaKeys(m) && SchemaRules(valid)(m).refs == SchemaRefs(m)
    {
      SchemaRulesOf(valid, m);
    }
    forall m, u | m in TENANT_SCOPED_MODELS && u in SchemaKeys(m)
      ensures exists c :: c in u.columns && c in SchemaAnchors(m)
    {
      SchemaKeysAnchored(m, u);
    }
    forall m, c | c == "tenantId" || (c in SchemaRefs(m) && SchemaRefs(m)[c].target in TENANT_SCOPED_MODELS)
      ensures c in SchemaAnchors(m)
    {
      SchemaAnchorsHave(m, c);
    }
  }

  lemma {:induction false} SchemaRulesOf(valid: (Model, Row) -> bool, m: Model)
    ensures SchemaRules(valid)(m).keys == SchemaKeys(m) && SchemaRules(valid)(m).refs == SchemaRefs(m)
  {
    hide SchemaKeys, SchemaRefs;
  }

  lemma {:induction false} SchemaOwners(owners: Id -> Option<Tenant>, secrets: string -> Option<Tenant>)
    ensures OwnershipOk(SchemaOwnership(owners, secrets)) && SchemaOwnership(owners, secrets).anchors == SchemaAnchors
  {
    hide SchemaAnchors;
    var o := SchemaOwnership(owners, secrets);
    forall m
      ensures "tenantId" in o.anchors(m)
    {
      SchemaAnchorsHave(m, "tenantId");
    }
    assert forall t :: o.owner("tenantId", Text(t)) == Some(t);
  }

  lemma {:induction false} SchemaAnchorsHave(m: Model, c: string)
    requires c == "tenantId" || (c in SchemaRefs(m) && SchemaRefs(m)[c].target in TENANT_SCOPED_MODELS)
    ensures c in SchemaAnchors(m)
  {
    hide SchemaRefs;
  }

  /** Tables outside the tenants refer to nothing that others refer to. */
  /** A model is scoped as soon as the tenant is part of one of its keys or it refers to a scoped model. The one
      exception has no tenant column: the link rows between roles and permissions, which belong to a role. */
  lemma {:induction false} TenantRowsAreScoped(m: Model)
    requires (exists u :: u in SchemaKeys(m) && "tenantId" in u.columns)
             || exists c :: c in SchemaRefs(m) && SchemaRefs(m)[c].target in TENANT_SCOPED_MODELS
    ensures m in TENANT_SCOPED_MODELS <==> m != "RolePermission"
  {
    if u :| u in SchemaKeys(m) && "tenantId" in u.columns {
      assert m in {"Membership", "Role", "Store", "Asset", "Equipment", "Customer", "Category", "Product",
                   "ProductVariant", "PosDevice", "PosFeedEvent", "Service"};
    }
  }

  lemma {:induction false} SchemaGlobals(valid: (Model, Row) -> bool)
    ensures GlobalsAreRoots(SchemaRules(valid))
  {
    hide SchemaRefs, SchemaKeys;
    forall m, c | c in SchemaRefs(m) && SchemaRefs(m)[c].target !in TENANT_SCOPED_MODELS
      ensures SchemaRefs(SchemaRefs(m)[c].target) == map[]
    {
      GlobalTarget(m, c);
    }
  }

  lemma {:induction false} GlobalTarget(m: Model, c: string)
    requires c in SchemaRefs(m) && SchemaRefs(m)[c].target !in TENANT_SCOPED_MODELS
    ensures SchemaRefs(SchemaRefs(m)[c].target) == map[]
  {
    assert SchemaRefs(m)[c].target in {"User", "Permission"};
  }

  /** Deletes empty only columns that no key reads. */
  lemma {:induction false} SchemaRegular(valid: (Model, Row) -> bool)
    ensures Regular(SchemaRules(valid))
  {
    hide SchemaRefs, SchemaKeys;
    forall m
      ensures "tenantId" !in SchemaRefs(m)
    {
      NoTenantReference(m);
    }
    forall m, c, u | c in SchemaRefs(m) && SchemaRefs(m)[c].onDelete == SetNull && u in SchemaKeys(m)
      ensures c !in u.columns && u.only == map[] && u.span.None?
    {
      EmptiedColumn(m, c);
      EmptiedKeys(m, u);
    }
  }

  lemma {:induction false} NoTenantReference(m: Model)
    ensures "tenantId" !in SchemaRefs(m)
  {
  }

  lemma {:induction false} EmptiedKeys(m: Model, u: UniqueKey)
    requires u in SchemaKeys(m) && (m == "Asset" || m == "PosOperation")
    ensures "storeId" !in u.columns && "resultOrderId" !in u.columns && "resultPaymentId" !in u.columns
    ensures u.only == map[] && u.span.None?
  {
  }

  lemma {:induction false} EmptiedColumn(m: Model, c: string)
    requires c in SchemaRefs(m) && SchemaRefs(m)[c].onDelete == SetNull
    ensures m == "Asset" || m == "PosOperation"
    ensures c == "storeId" || c == "resultOrderId" || c == "resultPaymentId"
  {
  }

  lemma {:induction false} SchemaMinted(ids: IdSource, t: Tenant, owners: Id -> Option<Tenant>,
                                        secrets: string -> Option<Tenant>, valid: (Model, Row) -> bool)
    requires forall s, k :: owners(ids(s)(k)) == Some(t)
    ensures Minted(ids, t, SchemaRules(valid), SchemaOwnership(owners, secrets))
  {
  }

  /** Noninterference on this schema, for programs that refer to their own tenant's rows only and delete no
      global row. */
  lemma {:induction false} SchemaNoninterference(db1: Db, db2: Db, t: Tenant, p: Program, ids: IdSource,
                                                 owners: Id -> Option<Tenant>, secrets: string -> Option<Tenant>,
                                                 valid: (Model, Row) -> bool, steps: nat)
    requires Named(p) && Disciplined(p, t, SchemaOwnership(owners, secrets)) && NeverRepeats(ids)
    requires forall s, k :: owners(ids(s)(k)) == Some(t)
    requires Sane(db1, SchemaRules(valid), SchemaOwnership(owners, secrets)) && Ahead(db1, ids, 0)
    requires Sane(db2, SchemaRules(valid), SchemaOwnership(owners, secrets)) && Ahead(db2, ids, 0)
    requires Alone(db1, Some(t)) == Alone(db2, Some(t))
    ensures var (db1', h1) := Run(db1, Some(t), p, ids, SchemaRules(valid), [], steps);
            var (db2', h2) := Run(db2, Some(t), p, ids, SchemaRules(valid), [], steps);
            h1 == h2 && Alone(db1', Some(t)) == Alone(db2', Some(t)) && OthersKept(db1, db1', Some(t))
  {
    hide *;
    SchemaMinted(ids, t, owners, secrets, valid);
    SchemaRulesAnchored(owners, secrets, valid);
    SchemaGlobals(valid);
    SchemaRegular(valid);
    Noninterference(db1, db2, t, p, ids, SchemaRules(valid), SchemaOwnership(owners, secrets), steps);
  }

  // ---------- tables whose constraints contain the tenant ----------

  /** The tables whose keys all contain the tenant and which refer to global tables or with the tenant only. */
  const TENANT_KEYED: set<Model> :=
    {"Membership", "Role", "Store", "Customer", "Category", "Cart", "PosFeedEvent", "Service"}

  lemma {:induction false} TenantKeyedExactly(m: Model)
    ensures m in TENANT_KEYED
            <==> && m in TENANT_SCOPED_MODELS && (forall u :: u in SchemaKeys(m) ==> "tenantId" in u.columns)
                 && forall c :: c in SchemaRefs(m) ==>
                      SchemaRefs(m)[c].withTenant || SchemaRefs(m)[c].target !in TENANT_SCOPED_MODELS
  {
    if m in TENANT_SCOPED_MODELS && m !in TENANT_KEYED {
      var c := SingleReference(m);
    }
  }

  lemma {:induction false} SingleReference(m: Model) returns (c: string)
    requires m in TENANT_SCOPED_MODELS && m !in TENANT_KEYED
    ensures c in SchemaRefs(m) && !SchemaRefs(m)[c].withTenant && SchemaRefs(m)[c].target in TENANT_SCOPED_MODELS
  {
    match m
    case "Asset" => c := "storeId";
    case "Equipment" => c := "assetId";
    case "Reservation" => c := "equipmentId";
    case "Product" => c := "categoryId";
    case "ProductVariant" => c := "productId";
    case "Price" => c := "variantId";
    case "Inventory" => c := "variantId";
    case "CartItem" => c := "cartId";
    case "Order" => c := "customerId";
    case "OrderItem" => c := "orderId";
    case "Payment" => c := "orderId";
    case "PosDevice" => c := "storeId";
    case "PosSession" => c := "deviceId";
    case "PosSale" => c := "orderId";
    case "PosOperation" => c := "deviceId";
    case "PosOperationItem" => c := "operationId";
    case "Booking" => c := "serviceId";
  }

  /** On those tables noninterference holds for every program of named operations, whatever it writes. */
  lemma {:induction false} TenantKeyedNoninterference(db1: Db, db2: Db, t: Tenant, p: Program, ids: IdSource,
                                                      valid: (Model, Row) -> bool, steps: nat)
    requires NamedOn(p, TENANT_KEYED) && NeverRepeats(ids)
    requires Ahead(db1, ids, 0) && AllConsistent(db1, SchemaRules(valid)) && Sealed(db1, Some(t), SchemaRules(valid))
    requires Ahead(db2, ids, 0) && AllConsistent(db2, SchemaRules(valid)) && Sealed(db2, Some(t), SchemaRules(valid))
    requires Alone(db1, Some(t)) == Alone(db2, Some(t))
    ensures var (db1', h1) := Run(db1, Some(t), p, ids, SchemaRules(valid), [], steps);
            var (db2', h2) := Run(db2, Some(t), p, ids, SchemaRules(valid), [], steps);
            h1 == h2 && Alone(db1', Some(t)) == Alone(db2', Some(t))
  {
    assert TenantKeyed(TENANT_KEYED, SchemaRules(valid)) by {
      hide SchemaKeys, SchemaRefs;
      forall m | m in TENANT_KEYED { TenantKeyedExactly(m); }
    }
    hide *;
    SchemaGlobals(valid);
    SchemaRegular(valid);
    NoninterferenceOfTenantKeys(db1, db2, t, p, ids, TENANT_KEYED, SchemaRules(valid), steps);
  }
}
