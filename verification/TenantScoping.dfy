/** Tenant scoping: the arguments of a query, and how the extension rewrites every named operation. */
module TenantScoping {
  import opened Schema

  type Tenant = string
  type Model = string
  type Id = nat

  /** A stored value; `Ref` is the id of a row of another table. */
  datatype Value = Null | Text(s: string) | Num(n: int) | Ref(id: Id)
  type Row = map<string, Value>
  type Table = map<Id, Row>

  /** A condition under one key of a where record: a literal, or any test of the row and its id (the id
      itself, operators, AND/OR/NOT). */
  datatype Cond = Equals(v: Value) | Test(p: (Id, Row) -> bool)
  type Filter = map<string, Cond>

  /** A written field: a literal, or a change of the stored value (increment, decrement). */
  datatype Assign = Put(v: Value) | Alter(f: Value -> Value)
  type Fields = map<string, Assign>
  datatype Data = One(fields: Fields) | Many(list: seq<Fields>)

  datatype Args = Args(filter: Option<Filter>, data: Option<Data>, create: Option<Fields>, update: Option<Fields>)

  datatype Verb =
    | FindUnique | FindUniqueOrThrow | FindFirst | FindFirstOrThrow | FindMany | Count | Aggregate | GroupBy
    | Create | CreateMany | Update | UpdateMany | Delete | DeleteMany | Upsert
    | Unnamed(name: string)

  const TENANT_SCOPED_MODELS: set<Model> :=
    {"Membership", "Role", "Store", "Asset", "Equipment", "Customer", "Reservation", "Category", "Product",
     "ProductVariant", "Price", "Inventory", "Cart", "CartItem", "Order", "OrderItem", "Payment", "PosDevice",
     "PosSession", "PosSale", "PosOperation", "PosOperationItem", "PosFeedEvent", "Service", "Booking"}

  predicate IsRead(op: Verb) {
    op in {FindUnique, FindUniqueOrThrow, FindFirst, FindFirstOrThrow, FindMany, Count, Aggregate, GroupBy}
  }

  // ---------- the rewriting ----------

  function ScopedFilter(f: Option<Filter>, t: Tenant): Option<Filter> {
    Some(f.GetOr(map[])["tenantId" := Equals(Text(t))])
  }

  function ScopedFields(f: Option<Fields>, t: Tenant): Fields {
    f.GetOr(map[])["tenantId" := Put(Text(t))]
  }

  /** `{ ...data, tenantId }`: one object (a list has no columns to spread). */
  function ScopedObject(d: Option<Data>, t: Tenant): Option<Data> {
    Some(One(ScopedFields(match d case Some(One(f)) => Some(f) case _ => None, t)))
  }

  /** createMany stamps every row of a list. */
  function ScopedList(d: Option<Data>, t: Tenant): Option<Data> {
    match d
    case Some(Many(list)) => Some(Many(seq(|list|, i requires 0 <= i < |list| => ScopedFields(Some(list[i]), t))))
    case _ => ScopedObject(d, t)
  }

  /** The arguments an operation reaches the database with. */
  function Scoped(op: Verb, a: Args, t: Tenant): Args {
    if IsRead(op) || op == Delete || op == DeleteMany then a.(filter := ScopedFilter(a.filter, t))
    else
      match op
      case Create => a.(data := ScopedObject(a.data, t))
      case CreateMany => a.(data := ScopedList(a.data, t))
      case Update => a.(filter := ScopedFilter(a.filter, t), data := ScopedObject(a.data, t))
      case UpdateMany => a.(filter := ScopedFilter(a.filter, t), data := ScopedObject(a.data, t))
      case Upsert =>
        a.(filter := ScopedFilter(a.filter, t), create := Some(ScopedFields(a.create, t)),
           update := Some(ScopedFields(a.update, t)))
      case _ => a
  }

  /** Everything given is kept, and the tenant is added or put in place of one that was given. */
  predicate KeptWithTenant<V(==)>(given: map<string, V>, result: map<string, V>, tenant: V) {
    && result.Keys == given.Keys + {"tenantId"} && result["tenantId"] == tenant
    && forall k :: k in given && k != "tenantId" ==> result[k] == given[k]
  }

  /** The argument object of a query, which the extension overwrites before it is sent. */
  class OperationArgs {
    var filter: Option<Filter>
    var data: Option<Data>
    var create: Option<Fields>
    var update: Option<Fields>

    constructor (a: Args)
      ensures View() == a
    {
      filter, data, create, update := a.filter, a.data, a.create, a.update;
    }

    function View(): Args
      reads this
    {
      Args(filter, data, create, update)
    }

    method ScopeArgs(op: Verb, tenantId: Tenant)
      modifies this
      ensures View() == Scoped(op, old(View()), tenantId)
      ensures !op.Unnamed? && op != Create && op != CreateMany ==>
                filter.Some? && KeptWithTenant(old(filter).GetOr(map[]), filter.value, Equals(Text(tenantId)))
      ensures (op == Create || op == Update || op == UpdateMany) && old(data).Some? && old(data).value.One? ==>
                && data.Some? && data.value.One?
                && KeptWithTenant(old(data).value.fields, data.value.fields, Put(Text(tenantId)))
      ensures op == CreateMany && old(data).Some? && old(data).value.Many? ==>
                && data.Some? && data.value.Many? && |data.value.list| == |old(data).value.list|
                && forall i :: 0 <= i < |data.value.list| ==>
                     KeptWithTenant(old(data).value.list[i], data.value.list[i], Put(Text(tenantId)))
      ensures op == Upsert ==>
                && create.Some? && KeptWithTenant(old(create).GetOr(map[]), create.value, Put(Text(tenantId)))
                && update.Some? && KeptWithTenant(old(update).GetOr(map[]), update.value, Put(Text(tenantId)))
    {
      match op
      case FindUnique => filter := ScopedFilter(filter, tenantId);
      case FindUniqueOrThrow => filter := ScopedFilter(filter, tenantId);
      case FindFirst => filter := ScopedFilter(filter, tenantId);
      case FindFirstOrThrow => filter := ScopedFilter(filter, tenantId);
      case FindMany => filter := ScopedFilter(filter, tenantId);
      case Count => filter := ScopedFilter(filter, tenantId);
      case Aggregate => filter := ScopedFilter(filter, tenantId);
      case GroupBy => filter := ScopedFilter(filter, tenantId);
      case Create => data := ScopedObject(data, tenantId);
      case CreateMany => data := ScopedList(data, tenantId);
      case Update =>
        filter := ScopedFilter(filter, tenantId);
        data := ScopedObject(data, tenantId);
      case UpdateMany =>
        filter := ScopedFilter(filter, tenantId);
        data := ScopedObject(data, tenantId);
      case Delete => filter := ScopedFilter(filter, tenantId);
      case DeleteMany => filter := ScopedFilter(filter, tenantId);
      case Upsert =>
        filter := ScopedFilter(filter, tenantId);
        create := Some(ScopedFields(create, tenantId));
        update := Some(ScopedFields(update, tenantId));
      case Unnamed(_) =>
    }
  }
}
