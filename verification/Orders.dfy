/** OrderService: creation and cancellation, in the steps the service takes. */
module Orders {
  import opened Schema
  import opened Lines
  import opened Ledger
  import opened Database

  predicate OpenFor(cart: Cart, u: UserId) { cart.userId == u && cart.status == CartOpen }

  /** First OPEN cart of a user, in creation order. */
  function FirstOpenCart(carts: seq<Cart>, u: UserId, from: nat): (c: Option<CartId>)
    requires from <= |carts|
    ensures c.Some? ==> from <= c.value < |carts| && OpenFor(carts[c.value], u)
    ensures c.Some? ==> forall k :: from <= k < c.value ==> !OpenFor(carts[k], u)
    ensures c.None? ==> forall k :: from <= k < |carts| ==> !OpenFor(carts[k], u)
    decreases |carts| - from
  {
    if from == |carts| then None
    else if OpenFor(carts[from], u) then Some(from)
    else FirstOpenCart(carts, u, from + 1)
  }

  /** A create-order call as it arrives: direct items, or none to check out the open cart. */
  datatype CreateOrderDto = CreateOrderDto(items: seq<Line>, customerId: Option<CustomerId>,
                                           bookingId: Option<BookingId>)

  /** What the calling service decides: the stock pool, and the booking to link. The body's own booking is read
      by the order endpoint, which passes it on here, and by nobody else. */
  datatype CreateOrderOptions = CreateOrderOptions(pool: Pool, bookingId: Option<BookingId>)

  /** The whole call, reads before the transaction included. */
  function PlaceOrder(b: Books, cat: Catalog, userId: UserId, dto: CreateOrderDto, options: CreateOrderOptions)
    : TxResult
  {
    var cart := FirstOpenCart(b.carts, userId, 0);
    if dto.items == [] && (cart.None? || b.carts[cart.value].items == []) then Aborted(CartEmpty)
    else if dto.customerId.Some? && dto.customerId.value !in cat.customers then Aborted(CustomerNotFound)
    else if dto.items == [] then
      CreateOrder(b, cat, OrderReq(userId, dto.customerId, b.carts[cart.value].items, options.pool, options.bookingId,
                                   cart))
    else
      CreateOrder(b, cat, OrderReq(userId, dto.customerId, dto.items, options.pool, options.bookingId, None))
  }

  /** Charging takes each listed variant's quantity from its own pool row and nothing else. */
  lemma {:induction false} ChargeAt(stock: map<StockKey, int>, pool: Pool, lines: seq<Line>, ks: seq<VariantId>,
                                    k: StockKey)
    ensures var r := Charge(stock, pool, lines, ks);
            && (k in r <==> k in stock || (k.pool == pool && k.variantId in ks))
            && OnHand(r, k) == OnHand(stock, k)
                               - if k.pool == pool && k.variantId in ks then QtyOf(lines, k.variantId) else 0
  {
    if ks != [] {
      ChargeAt(stock, pool, lines, ks[..|ks| - 1], k);
    }
  }

  /** Restocking returns each listed variant's quantity to its own pool row and nothing else. */
  lemma {:induction false} RestockAt(stock: map<StockKey, int>, pool: Pool, lines: seq<Line>, ks: seq<VariantId>,
                                     k: StockKey)
    ensures var r := Restock(stock, pool, lines, ks);
            && (k in r <==> k in stock || (k.pool == pool && k.variantId in ks))
            && OnHand(r, k) == OnHand(stock, k)
                               + if k.pool == pool && k.variantId in ks then QtyOf(lines, k.variantId) else 0
  {
    if ks != [] {
      RestockAt(stock, pool, lines, ks[..|ks| - 1], k);
    }
  }

  /** One more variant is returned to its own row. */
  lemma {:induction false} RestockNext(stock: map<StockKey, int>, pool: Pool, lines: seq<Line>, ks: seq<VariantId>,
                                       i: nat)
    requires i < |ks| && ks[i] !in ks[..i]
    ensures var k, r := StockKey(ks[i], pool), Restock(stock, pool, lines, ks[..i]);
            && Restock(stock, pool, lines, ks[..i + 1]) == r[k := OnHand(stock, k) + QtyOf(lines, ks[i])]
            && OnHand(r, k) == OnHand(stock, k)
  {
    assert ks[..i + 1] == ks[..i] + [ks[i]];
    RestockAt(stock, pool, lines, ks[..i], StockKey(ks[i], pool));
  }

  /** The cart that was sold is CONVERTED and keeps its owner and items; every other cart is as it was. */
  ghost predicate Converted(carts: seq<Cart>, carts': seq<Cart>, id: Option<CartId>) {
    && |carts'| == |carts|
    && (forall c :: 0 <= c < |carts| && id != Some(c) ==> carts'[c] == carts[c])
    && (id.Some? ==> && id.value < |carts|
                     && carts'[id.value] == Cart(carts[id.value].userId, CartConverted, carts[id.value].items))
  }

  class OrderService {
    const prisma: Prisma

    constructor (prisma: Prisma)
      ensures this.prisma == prisma
    {
      this.prisma := prisma;
    }

    /** Fills the insertion-ordered map variant -> total quantity. */
    method AggregateItems(items: seq<Line>) returns (keys: seq<VariantId>, qty: map<VariantId, Quantity>)
      ensures keys == Keys(items)
      ensures forall v :: v in qty <==> v in keys
      ensures forall v :: v in keys ==> qty[v] == QtyOf(items, v)
    {
      keys, qty := [], map[];
      for i := 0 to |items|
        invariant keys == Keys(items[..i])
        invariant forall v :: v in qty <==> v in keys
        invariant forall v :: v in keys ==> qty[v] == QtyOf(items[..i], v)
      {
        var it := items[i];
        assert items[..i + 1][..i] == items[..i];
        if it.variantId in qty {
          qty := qty[it.variantId := qty[it.variantId] + it.quantity];
        } else {
          keys, qty := keys + [it.variantId], qty[it.variantId := it.quantity];
        }
      }
      assert items[..|items|] == items;
    }

    /** Groups the price rows by variant, keeping their order. */
    static method GroupPrices(prices: seq<Price>) returns (priceMap: map<VariantId, seq<Price>>)
      ensures forall v :: (if v in priceMap then priceMap[v] else []) == RowsOf(prices, v)
    {
      priceMap := map[];
      for i := 0 to |prices|
        invariant forall v :: (if v in priceMap then priceMap[v] else []) == RowsOf(prices[..i], v)
      {
        var p := prices[i];
        assert prices[..i + 1][..i] == prices[..i];
        var arr := if p.variantId in priceMap then priceMap[p.variantId] else [];
        priceMap := priceMap[p.variantId := arr + [p]];
      }
      assert prices[..|prices|] == prices;
    }

    /** Prices every variant in the currency of the first price row met. */
    method PriceVariants(prices: seq<Price>, ks: seq<VariantId>)
      returns (refusal: Option<Error>, target: Option<Currency>, unit: map<VariantId, int>)
      ensures refusal == PriceRefusal(prices, ks, |ks|)
      ensures refusal.None? ==> target == Target(prices, ks) && (ks != [] ==> target.Some?)
      ensures refusal.None? ==> forall v :: v in ks ==> v in unit && unit[v] == Unit(prices, v, target.value)
    {
      hide RowsOf, Find, PriceRefusal, Target, PriceIn;
      var priceMap := GroupPrices(prices);
      refusal, target, unit := None, None, map[];
      NothingRefused(prices, ks);
      for i := 0 to |ks|
        invariant PriceRefusal(prices, ks, i) == None
        invariant target == if i == 0 then None else Target(prices, ks)
        invariant 0 < i ==> target.Some?
        invariant forall v :: v in ks[..i] ==> v in unit && unit[v] == Unit(prices, v, target.value)
      {
        var rows := if ks[i] in priceMap then priceMap[ks[i]] else [];
        assert rows == RowsOf(prices, ks[i]) && PriceRefusal(prices, ks, i) == None;
        NextRefusal(prices, ks, i);
        if rows == [] {
          RefusalSticks(prices, ks, i + 1);
          refusal := Some(PriceNotFound);
          return;
        }
        if target.None? {
          target := Some(rows[0].currency);
        }
        var found := Find(rows, target.value);
        if found.None? {
          RefusalSticks(prices, ks, i + 1);
          refusal := Some(CurrencyMismatch);
          return;
        }
        unit := unit[ks[i] := found.value.amountMinor];
        assert ks[..i + 1] == ks[..i] + [ks[i]];
      }
      assert ks[..|ks|] == ks;
    }

    /** The guarded decrements, one per variant; stops at the first pool that cannot cover. */
    method DecrementAll(pool: Pool, ks: seq<VariantId>, qty: map<VariantId, Quantity>, ghost lines: seq<Line>)
      returns (ok: bool)
      requires forall i, j :: 0 <= i < j < |ks| ==> ks[i] != ks[j]
      requires forall v :: v in ks ==> v in qty && qty[v] == QtyOf(lines, v)
      modifies prisma`stock
      ensures ok <==> Covers(old(prisma.stock), pool, lines, ks)
      ensures ok ==> prisma.stock == Charge(old(prisma.stock), pool, lines, ks)
    {
      hide QtyOf;
      ghost var before := prisma.stock;
      for i := 0 to |ks|
        invariant Covers(before, pool, lines, ks[..i])
        invariant prisma.stock == Charge(before, pool, lines, ks[..i])
      {
        var v := ks[i];
        var k, q: int := StockKey(v, pool), qty[v];
        assert v in ks && v !in ks[..i];
        ChargeAt(before, pool, lines, ks[..i], k);
        var count := prisma.AddToStock(k, q, -q);
        if count == 0 {
          return false;
        }
        assert ks[..i + 1] == ks[..i] + [v];
      }
      assert ks[..|ks|] == ks;
      return true;
    }

    /** The running subtotal over the aggregated entries. */
    method Subtotal(ks: seq<VariantId>, qty: map<VariantId, Quantity>, unit: map<VariantId, int>,
                    ghost lines: seq<Line>, ghost unitOf: VariantId -> int) returns (subtotal: int)
      requires forall v :: v in ks ==> v in qty && qty[v] == QtyOf(lines, v) && v in unit && unit[v] == unitOf(v)
      ensures subtotal == ValueByKey(ks, lines, unitOf)
    {
      subtotal := 0;
      for i := 0 to |ks|
        invariant subtotal == ValueByKey(ks[..i], lines, unitOf)
      {
        var v := ks[i];
        assert v in ks;
        subtotal := subtotal + unit[v] * qty[v];
        assert ks[..i + 1][..i] == ks[..i];
      }
      assert ks[..|ks|] == ks;
    }

    /** Inserts the snapshot rows of a fresh order, one per entry. */
    method SnapshotItems(o: OrderId, ks: seq<VariantId>, qty: map<VariantId, Quantity>, unit: map<VariantId, int>,
                         c: Currency, ghost lines: seq<Line>, ghost prices: seq<Price>)
      requires o in prisma.orders && prisma.orders[o].items == []
      requires forall v :: v in ks ==>
                 v in qty && qty[v] == QtyOf(lines, v) && v in unit && unit[v] == Unit(prices, v, c)
      modifies prisma`orders
      ensures prisma.orders == old(prisma.orders)[o := old(prisma.orders)[o].(items := ItemsFor(ks, lines, prices, c))]
    {
      ghost var before := prisma.orders;
      for i := 0 to |ks|
        invariant forall v :: v in ks[..i] ==> 1 <= QtyOf(lines, v)
        invariant prisma.orders == before[o := before[o].(items := ItemsFor(ks[..i], lines, prices, c))]
      {
        var v := ks[i];
        var row := OrderItem(v, qty[v], c, unit[v], unit[v] * qty[v]);
        prisma.orders := prisma.orders[o := prisma.orders[o].(items := prisma.orders[o].items + [row])];
        assert ks[..i + 1][..i] == ks[..i];
      }
      assert ks[..|ks|] == ks;
    }

    /** The reads and checks of the order transaction, before its first write. */
    method CheckOrder(items: seq<Line>)
      returns (refusal: Option<Error>, ks: seq<VariantId>, qty: map<VariantId, Quantity>,
               target: Option<Currency>, unit: map<VariantId, int>)
      ensures refusal == CatalogRefusal(prisma.catalog, items)
      ensures ks == Keys(items) && forall v :: v in ks ==> v in qty && qty[v] == QtyOf(items, v)
      ensures refusal.None? ==> target.Some? && target == Target(prisma.catalog.prices, ks)
                                && forall v :: v in ks ==>
                                     v in unit && unit[v] == Unit(prisma.catalog.prices, v, target.value)
    {
      refusal, target, unit := None, None, map[];
      var cat := prisma.catalog;
      ks, qty := AggregateItems(items);
      if exists v :: v in ks && v !in cat.variants {
        refusal := Some(VariantNotFound);
      } else if exists v :: v in ks && !cat.variants[v] {
        refusal := Some(VariantNotActive);
      } else {
        refusal, target, unit := PriceVariants(cat.prices, ks);
        if refusal.None? && target.None? {
          refusal := Some(PriceNotFound);
        }
      }
    }

    /** The writes of the order transaction, up to the first one that has to throw. */
    method WriteOrder(req: OrderReq, ks: seq<VariantId>, qty: map<VariantId, Quantity>, c: Currency,
                      unit: map<VariantId, int>) returns (refusal: Option<Error>)
      requires forall i, j :: 0 <= i < j < |ks| ==> ks[i] != ks[j]
      requires forall v :: v in ks ==> v in qty && qty[v] == QtyOf(req.items, v)
      requires forall v :: v in ks ==> v in unit && unit[v] == Unit(prisma.catalog.prices, v, c)
      requires req.cartId.Some? ==> req.cartId.value < |prisma.carts|
      modifies prisma`stock, prisma`orders, prisma`bookings, prisma`carts, prisma`nextId
      ensures refusal == WriteRefusal(old(prisma.View()), req, ks)
      ensures refusal.None? ==>
                && prisma.stock == Charge(old(prisma.stock), req.pool, req.items, ks)
                && prisma.orders == old(prisma.orders)[old(prisma.nextId) := OrderRow(prisma.catalog.prices, req, ks,
                   c)]
                && prisma.bookings == LinkBooking(old(prisma.bookings), req.bookingId, old(prisma.nextId))
                && prisma.carts == ConvertCart(old(prisma.carts), req.cartId)
                && prisma.nextId == old(prisma.nextId) + 1
      ensures refusal.None? ==> Converted(old(prisma.carts), prisma.carts, req.cartId)
    {
      var covered := DecrementAll(req.pool, ks, qty, req.items);
      if !covered {
        return Some(InsufficientStock);
      }
      var o := prisma.nextId;
      prisma.nextId := o + 1;
      var linked := LinkOrder(o, req.bookingId);
      if !linked {
        return Some(BookingTaken);
      }
      InsertOrder(o, req, ks, qty, c, unit);
      if req.cartId.Some? {
        prisma.carts := prisma.carts[req.cartId.value := prisma.carts[req.cartId.value].(status := CartConverted)];
      }
      return None;
    }

    /** The order transaction: commits all of its writes, or rolls back to none. */
    method CreateOrderTx(req: OrderReq) returns (r: Result<OrderId>)
      requires req.cartId.Some? ==> req.cartId.value < |prisma.carts|
      modifies prisma`stock, prisma`orders, prisma`payments, prisma`sales, prisma`bookings, prisma`carts, prisma`nextId
      ensures var tx := Ledger.CreateOrder(old(prisma.View()), prisma.catalog, req);
              prisma.View() == After(old(prisma.View()), tx) && r == Outcome(tx)
      ensures r.Ok? ==> Converted(old(prisma.carts), prisma.carts, req.cartId)
      ensures r.Err? ==> prisma.carts == old(prisma.carts)
    {
      hide Keys, QtyOf, ItemsFor, ValueByKey, PriceRefusal, RowsOf, Charge;
      var snapshot := prisma.View();
      var refusal, ks, qty, target, unit := CheckOrder(req.items);
      if refusal.None? {
        ghost var row := OrderRow(prisma.catalog.prices, req, ks, target.value);
        assert row == NewOrder(prisma.catalog, req);
        refusal := WriteOrder(req, ks, qty, target.value, unit);
        assert refusal == OrderRefusal(snapshot, prisma.catalog, req);
        if refusal.None? {
          return Ok(snapshot.nextId);
        }
      }
      assert refusal == OrderRefusal(snapshot, prisma.catalog, req);
      prisma.Restore(snapshot);
      return Err(refusal.value);
    }

    /** booking.updateMany where orderId is null; no booking requested always succeeds. */
    method LinkOrder(o: OrderId, bookingId: Option<BookingId>) returns (ok: bool)
      modifies prisma`bookings
      ensures ok == BookingFree(old(prisma.View()), bookingId)
      ensures ok ==> prisma.bookings == LinkBooking(old(prisma.bookings), bookingId, o)
    {
      if bookingId.None? {
        return true;
      }
      if bookingId.value in prisma.bookings && prisma.bookings[bookingId.value].None? {
        prisma.bookings := prisma.bookings[bookingId.value := Some(o)];
        return true;
      }
      return false;
    }

    /** The order row with its subtotal, then its snapshot rows. */
    method InsertOrder(o: OrderId, req: OrderReq, ks: seq<VariantId>, qty: map<VariantId, Quantity>, c: Currency,
                       unit: map<VariantId, int>)
      requires forall v :: v in ks ==> v in qty && qty[v] == QtyOf(req.items, v)
      requires forall v :: v in ks ==> v in unit && unit[v] == Unit(prisma.catalog.prices, v, c)
      modifies prisma`orders
      ensures prisma.orders == old(prisma.orders)[o := OrderRow(prisma.catalog.prices, req, ks, c)]
    {
      var subtotal := Subtotal(ks, qty, unit, req.items, UnitFn(prisma.catalog.prices, c));
      prisma.orders := prisma.orders[o := Order(req.userId, req.customerId, OrderPending, c, subtotal, [])];
      SnapshotItems(o, ks, qty, unit, c, req.items, prisma.catalog.prices);
    }

    /** The public call: resolve the lines and the customer, then run the transaction. */
    method CreateOrder(userId: UserId, dto: CreateOrderDto, options: CreateOrderOptions) returns (r: Result<OrderId>)
      modifies prisma`stock, prisma`orders, prisma`payments, prisma`sales, prisma`bookings, prisma`carts, prisma`nextId
      ensures var tx := PlaceOrder(old(prisma.View()), prisma.catalog, userId, dto, options);
              prisma.View() == After(old(prisma.View()), tx) && r == Outcome(tx)
      ensures r.Err? || dto.items != [] ==> prisma.carts == old(prisma.carts)
      ensures r.Ok? && dto.items == [] ==>
                var cart := FirstOpenCart(old(prisma.carts), userId, 0);
                cart.Some? && Converted(old(prisma.carts), prisma.carts, cart)
    {
      var items, cartToConvert := dto.items, None;
      if dto.items == [] {
        var cart := FirstOpenCart(prisma.carts, userId, 0);
        if cart.None? || prisma.carts[cart.value].items == [] {
          return Err(CartEmpty);
        }
        items, cartToConvert := prisma.carts[cart.value].items, cart;
      }
      if dto.customerId.Some? && dto.customerId.value !in prisma.catalog.customers {
        return Err(CustomerNotFound);
      }
      r := CreateOrderTx(OrderReq(userId, dto.customerId, items, options.pool, options.bookingId,
                                  cartToConvert));
    }

    /** The restock loop of a cancellation: increments, or creates the missing row. */
    method RestockAll(pool: Pool, items: seq<OrderItem>)
      modifies prisma`stock
      ensures var lines := ItemLines(items);
              prisma.stock == Restock(old(prisma.stock), pool, lines, Keys(lines))
    {
      ghost var before := prisma.stock;
      var lines := ItemLines(items);
      assert Restock(before, pool, lines, []) == before;
      hide QtyOf, Keys, Restock, ItemLines;
      var ks, qty := AggregateItems(lines);
      for i := 0 to |ks|
        invariant prisma.stock == Restock(before, pool, lines, ks[..i])
      {
        assert ks[i] in ks && ks[i] !in ks[..i];
        RestockNext(before, pool, lines, ks, i);
        RestockOne(StockKey(ks[i], pool), qty[ks[i]]);
      }
      assert ks[..|ks|] == ks;
    }

    /** Increments one row, or creates it. */
    method RestockOne(k: StockKey, q: Quantity)
      modifies prisma`stock
      ensures prisma.stock == old(prisma.stock)[k := OnHand(old(prisma.stock), k) + q]
    {
      if k !in prisma.stock {
        prisma.stock := prisma.stock[k := q];
      } else {
        var _ := prisma.AddToStock(k, prisma.stock[k], q);
      }
    }

    method CancelOrder(o: OrderId) returns (r: Result<OrderId>)
      modifies prisma`stock, prisma`orders
      ensures var tx := Ledger.CancelOrder(old(prisma.View()), o);
              prisma.View() == After(old(prisma.View()), tx) && r == Outcome(tx)
    {
      if o !in prisma.orders {
        return Err(OrderNotFound);
      }
      if prisma.orders[o].status != OrderPending {
        return Err(OrderNotPending);
      }
      var _ := prisma.MovePendingOrder(o, OrderCancelled);
      var pool := if o in prisma.sales then Store(prisma.sales[o].storeId) else Global;
      RestockAll(pool, prisma.orders[o].items);
      return Ok(o);
    }
  }

  lemma {:induction false} NothingRefused(prices: seq<Price>, ks: seq<VariantId>)
    ensures PriceRefusal(prices, ks, 0) == None
    ensures ks == [] ==> Target(prices, ks) == None
  {
  }

  /** Pricing one more variant. */
  lemma {:induction false} NextRefusal(prices: seq<Price>, ks: seq<VariantId>, i: nat)
    requires i < |ks| && PriceRefusal(prices, ks, i) == None
    ensures var rows := RowsOf(prices, ks[i]);
            && (rows == [] ==> PriceRefusal(prices, ks, i + 1) == Some(PriceNotFound))
            && (i == 0 && rows != [] ==> Target(prices, ks) == Some(rows[0].currency))
            && (rows != [] && Target(prices, ks).Some? ==>
                  PriceRefusal(prices, ks, i + 1) == if Find(rows, Target(prices, ks).value).None?
                    then Some(CurrencyMismatch) else None)
            && (Target(prices, ks).Some? && Find(rows, Target(prices, ks).value).Some? ==>
                  Unit(prices, ks[i], Target(prices, ks).value)
                    == Find(rows, Target(prices, ks).value).value.amountMinor)
  {
    hide RowsOf, Find;
  }

  /** Once pricing has been refused it stays refused for every longer prefix. */
  lemma {:induction false} RefusalSticks(prices: seq<Price>, ks: seq<VariantId>, n: nat)
    requires n <= |ks| && PriceRefusal(prices, ks, n).Some?
    ensures PriceRefusal(prices, ks, |ks|) == PriceRefusal(prices, ks, n)
    decreases |ks| - n
  {
    if n < |ks| {
      RefusalSticks(prices, ks, n + 1);
    }
  }
}
