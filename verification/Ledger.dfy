/** The commerce transactions as functions on the ledger rows: what one committed
    `$transaction` body, or one guarded Prisma call, makes of them. */
module Ledger {
  import opened Schema
  import opened Lines

  datatype Books = Books(stock: map<StockKey, int>, orders: map<OrderId, Order>,
                         payments: map<PaymentId, Payment>, sales: map<OrderId, Sale>,
                         bookings: map<BookingId, Option<OrderId>>, carts: seq<Cart>, nextId: nat)

  /** A transaction commits new books and an id, or throws and leaves the books alone. */
  datatype TxResult = Committed(books: Books, id: nat) | Aborted(error: Error)

  function Outcome(r: TxResult): Result<nat> {
    if r.Committed? then Ok(r.id) else Err(r.error)
  }

  function After(b: Books, r: TxResult): Books {
    if r.Committed? then r.books else b
  }

  // ---------- pricing ----------

  /** The price rows of one variant, in the order the database returned them. */
  function RowsOf(prices: seq<Price>, v: VariantId): seq<Price>
  {
    if prices == [] then []
    else
      var last := prices[|prices| - 1];
      RowsOf(prices[..|prices| - 1], v) + if last.variantId == v then [last] else []
  }

  /** First row in the given currency. */
  function Find(rows: seq<Price>, c: Currency): Option<Price>
  {
    if rows == [] then None
    else if rows[0].currency == c then Some(rows[0])
    else Find(rows[1..], c)
  }

  function PriceIn(prices: seq<Price>, v: VariantId, c: Currency): Option<Price> {
    Find(RowsOf(prices, v), c)
  }

  /** Unit amount of a variant in a currency (0 when it has no such price). */
  function Unit(prices: seq<Price>, v: VariantId, c: Currency): int {
    match PriceIn(prices, v, c) case Some(p) => p.amountMinor case None => 0
  }

  function UnitFn(prices: seq<Price>, c: Currency): VariantId -> int {
    (v: VariantId) => Unit(prices, v, c)
  }

  /** The engine's currency: that of the first price row of the first variant. */
  function Target(prices: seq<Price>, ks: seq<VariantId>): Option<Currency> {
    if ks == [] || RowsOf(prices, ks[0]) == [] then None
    else Some(RowsOf(prices, ks[0])[0].currency)
  }

  /** The error thrown while pricing the first `n` variants, if any. */
  function PriceRefusal(prices: seq<Price>, ks: seq<VariantId>, n: nat): Option<Error>
    requires n <= |ks|
  {
    if n == 0 then None
    else if PriceRefusal(prices, ks, n - 1).Some? then PriceRefusal(prices, ks, n - 1)
    else if RowsOf(prices, ks[n - 1]) == [] then Some(PriceNotFound)
    else if Target(prices, ks).None? || PriceIn(prices, ks[n - 1], Target(prices, ks).value).None? then
      Some(CurrencyMismatch)
    else None
  }

  // ---------- T1: order creation ----------

  datatype OrderReq = OrderReq(userId: UserId, customerId: Option<CustomerId>, items: seq<Line>, pool: Pool,
                               bookingId: Option<BookingId>, cartId: Option<CartId>)

  function OnHand(stock: map<StockKey, int>, k: StockKey): int {
    if k in stock then stock[k] else 0
  }

  /** The pool has a row for every requested variant, holding at least the requested quantity. */
  predicate Covers(stock: map<StockKey, int>, pool: Pool, lines: seq<Line>, ks: seq<VariantId>) {
    forall i :: 0 <= i < |ks| ==>
      StockKey(ks[i], pool) in stock && QtyOf(lines, ks[i]) <= stock[StockKey(ks[i], pool)]
  }

  /** The stock after every listed variant has been charged to the pool. */
  function Charge(stock: map<StockKey, int>, pool: Pool, lines: seq<Line>, ks: seq<VariantId>): map<StockKey, int>
  {
    if ks == [] then stock
    else
      var v := ks[|ks| - 1];
      var k := StockKey(v, pool);
      Charge(stock, pool, lines, ks[..|ks| - 1])[k := OnHand(stock, k) - QtyOf(lines, v)]
  }

  /** The snapshot rows of an order: one per distinct variant. */
  function ItemsFor(ks: seq<VariantId>, lines: seq<Line>, prices: seq<Price>, c: Currency): (items: seq<OrderItem>)
    requires forall v :: v in ks ==> 1 <= QtyOf(lines, v)
    ensures |items| == |ks|
    ensures forall i :: 0 <= i < |ks| ==> items[i].variantId == ks[i] && items[i].quantity == QtyOf(lines, ks[i])
  {
    if ks == [] then []
    else
      var v := ks[|ks| - 1];
      ItemsFor(ks[..|ks| - 1], lines, prices, c)
      + [OrderItem(v, QtyOf(lines, v), c, Unit(prices, v, c), Unit(prices, v, c) * QtyOf(lines, v))]
  }

  function BookingFree(b: Books, id: Option<BookingId>): bool {
    id.None? || (id.value in b.bookings && b.bookings[id.value].None?)
  }

  /** The error thrown by the order transaction's catalog checks, if any. */
  function CatalogRefusal(cat: Catalog, items: seq<Line>): Option<Error> {
    var ks := Keys(items);
    if exists v :: v in ks && v !in cat.variants then Some(VariantNotFound)
    else if exists v :: v in ks && !cat.variants[v] then Some(VariantNotActive)
    else if ks == [] then Some(PriceNotFound)
    else PriceRefusal(cat.prices, ks, |ks|)
  }

  /** The error thrown by the guarded writes of the order transaction, if any. */
  function WriteRefusal(b: Books, req: OrderReq, ks: seq<VariantId>): Option<Error> {
    if !Covers(b.stock, req.pool, req.items, ks) then Some(InsufficientStock)
    else if !BookingFree(b, req.bookingId) then Some(BookingTaken)
    else None
  }

  /** The error with which the order transaction throws, if any. */
  function OrderRefusal(b: Books, cat: Catalog, req: OrderReq): Option<Error> {
    if CatalogRefusal(cat, req.items).Some? then CatalogRefusal(cat, req.items)
    else WriteRefusal(b, req, Keys(req.items))
  }

  /** The order row with its snapshot, for the given distinct variants and currency. */
  function OrderRow(prices: seq<Price>, req: OrderReq, ks: seq<VariantId>, c: Currency): Order
    requires forall v :: v in ks ==> 1 <= QtyOf(req.items, v)
  {
    Order(req.userId, req.customerId, OrderPending, c,
          ValueByKey(ks, req.items, UnitFn(prices, c)),
          ItemsFor(ks, req.items, prices, c))
  }

  function NewOrder(cat: Catalog, req: OrderReq): Order {
    OrderRow(cat.prices, req, Keys(req.items), Target(cat.prices, Keys(req.items)).GetOr(""))
  }

  function LinkBooking(bookings: map<BookingId, Option<OrderId>>, id: Option<BookingId>, o: OrderId)
    : map<BookingId, Option<OrderId>>
  {
    if id.Some? then bookings[id.value := Some(o)] else bookings
  }

  function ConvertCart(carts: seq<Cart>, id: Option<CartId>): seq<Cart> {
    if id.Some? && id.value < |carts| then carts[id.value := carts[id.value].(status := CartConverted)] else carts
  }

  function CreateOrder(b: Books, cat: Catalog, req: OrderReq): TxResult {
    var refusal := OrderRefusal(b, cat, req);
    if refusal.Some? then Aborted(refusal.value)
    else
      Committed(b.(stock := Charge(b.stock, req.pool, req.items, Keys(req.items)),
                   orders := b.orders[b.nextId := NewOrder(cat, req)],
                   bookings := LinkBooking(b.bookings, req.bookingId, b.nextId),
                   carts := ConvertCart(b.carts, req.cartId),
                   nextId := b.nextId + 1),
                b.nextId)
  }

  // ---------- T3: cancellation ----------

  function ItemLines(items: seq<OrderItem>): seq<Line> {
    seq(|items|, i requires 0 <= i < |items| => Line(items[i].variantId, items[i].quantity))
  }

  /** Cancelling returns stock to the recorded provenance store, else to the global pool. */
  function RestockPool(b: Books, o: OrderId): Pool {
    if o in b.sales then Store(b.sales[o].storeId) else Global
  }

  /** The stock after every listed variant has been returned to the pool, creating missing rows. */
  function Restock(stock: map<StockKey, int>, pool: Pool, lines: seq<Line>, ks: seq<VariantId>): map<StockKey, int>
  {
    if ks == [] then stock
    else
      var v := ks[|ks| - 1];
      var k := StockKey(v, pool);
      Restock(stock, pool, lines, ks[..|ks| - 1])[k := OnHand(stock, k) + QtyOf(lines, v)]
  }

  function CancelOrder(b: Books, o: OrderId): TxResult {
    if o !in b.orders then Aborted(OrderNotFound)
    else if b.orders[o].status != OrderPending then Aborted(OrderNotPending)
    else
      var lines := ItemLines(b.orders[o].items);
      Committed(b.(stock := Restock(b.stock, RestockPool(b, o), lines, Keys(lines)),
                   orders := b.orders[o := b.orders[o].(status := OrderCancelled)]),
                o)
  }

  // ---------- T5, T2 and failure: payments ----------

  predicate HasCaptured(b: Books, o: OrderId) {
    exists p :: p in b.payments && b.payments[p].orderId == o && b.payments[p].status == Captured
  }

  function CreatePayment(b: Books, o: OrderId, tender: Method): TxResult {
    if o !in b.orders then Aborted(OrderNotFound)
    else if b.orders[o].status != OrderPending then Aborted(OrderNotPending)
    else if HasCaptured(b, o) then Aborted(CapturedExists)
    else
      Committed(b.(payments := b.payments[b.nextId := Payment(o, Processing, tender, b.orders[o].subtotalMinor,
                                                              b.orders[o].currency)],
                   nextId := b.nextId + 1),
                b.nextId)
  }

  function CapturePayment(b: Books, p: PaymentId): TxResult {
    if p !in b.payments then Aborted(PaymentNotFound)
    else match b.payments[p].status
      case Captured => Committed(b, p)
      case Failed => Aborted(FailedCannotCapture)
      case Processing =>
        var o := b.payments[p].orderId;
        if o !in b.orders || b.orders[o].status != OrderPending then Aborted(OrderNotPending)
        else Committed(b.(payments := b.payments[p := b.payments[p].(status := Captured)],
                          orders := b.orders[o := b.orders[o].(status := OrderPaid)]),
                       p)
  }

  function FailPayment(b: Books, p: PaymentId): TxResult {
    if p !in b.payments then Aborted(PaymentNotFound)
    else match b.payments[p].status
      case Failed => Committed(b, p)
      case Captured => Aborted(CapturedCannotFail)
      case Processing =>
        Committed(b.(payments := b.payments[p := b.payments[p].(status := Failed)]), p)
  }

  // ---------- provenance and single stock writes ----------

  /** Inserts the provenance row; order id and payment id are each unique. */
  function InsertSale(b: Books, o: OrderId, sale: Sale): TxResult {
    if o in b.sales || (exists x :: x in b.sales && b.sales[x].paymentId == sale.paymentId) then
      Aborted(UniqueViolation)
    else
      Committed(b.(sales := b.sales[o := sale]), o)
  }

  /** The guarded increment of an inventory row: one conditional write. */
  function Increment(b: Books, k: StockKey, delta: int): TxResult {
    if k in b.stock && -delta <= b.stock[k] then Committed(b.(stock := b.stock[k := b.stock[k] + delta]), 1)
    else Aborted(InsufficientStock)
  }

  /** The lazy creation of an inventory row, arbitrated by the pool's unique index. */
  function CreateStock(b: Books, k: StockKey, quantity: int): TxResult {
    if k in b.stock then Aborted(UniqueViolation)
    else Committed(b.(stock := b.stock[k := quantity]), 1)
  }
}
