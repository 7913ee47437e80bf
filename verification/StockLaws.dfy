/** Conservation of stock: what is on the shelves plus what non-cancelled orders hold changes
    only by what adjustments put in or take out. */
module StockLaws {
  import opened Schema
  import opened Lines
  import opened Ledger
  import opened OrderPayments
  import opened Sums
  import Orders

  /** Units of a variant an order holds: none once it is cancelled. */
  ghost function Held(o: Order, v: VariantId): int {
    if o.status == OrderCancelled then 0 else QtyOf(ItemLines(o.items), v)
  }

  ghost function HeldBy(orders: map<OrderId, Order>, v: VariantId): map<OrderId, int> {
    map o | o in orders :: Held(orders[o], v)
  }

  ghost function HeldTotal(orders: map<OrderId, Order>, v: VariantId): int {
    Sum(HeldBy(orders, v))
  }

  ghost function OnShelves(stock: map<StockKey, int>, v: VariantId): int {
    Sum(map k | k in stock && k.variantId == v :: stock[k])
  }

  /** Everything there is of a variant: all pools together, plus what orders hold. */
  ghost function Total(b: Books, v: VariantId): int {
    OnShelves(b.stock, v) + HeldTotal(b.orders, v)
  }

  /** What one transaction adds to pool `p`'s stock of `v` from outside: only committed adjustments do. */
  ghost function Injected(b: Books, tx: Tx, k: StockKey): int {
    if Apply(b, tx).Aborted? then 0
    else match tx
      case TxIncrement(key, delta) => if key == k then delta else 0
      case TxCreateStock(key, quantity) => if key == k then quantity else 0
      case _ => 0
  }

  ghost function InjectedOf(b: Books, tx: Tx, v: VariantId): int {
    match tx
    case TxIncrement(key, _) => if key.variantId == v then Injected(b, tx, key) else 0
    case TxCreateStock(key, _) => if key.variantId == v then Injected(b, tx, key) else 0
    case _ => 0
  }

  // ---------- one row changes ----------

  /** Two stocks that agree on a variant's rows except possibly row `k`. */
  ghost predicate SameBut(stock: map<StockKey, int>, stock': map<StockKey, int>, k: StockKey) {
    forall x: StockKey :: x.variantId == k.variantId && x != k ==>
      (x in stock <==> x in stock') && OnHand(stock, x) == OnHand(stock', x)
  }

  lemma {:induction false} ShelvesChange(stock: map<StockKey, int>, stock': map<StockKey, int>, k: StockKey)
    requires SameBut(stock, stock', k) && (k in stock ==> k in stock')
    ensures OnShelves(stock', k.variantId) == OnShelves(stock, k.variantId) + OnHand(stock', k) - OnHand(stock, k)
  {
    var m := map x | x in stock && x.variantId == k.variantId :: stock[x];
    var m' := map x | x in stock' && x.variantId == k.variantId :: stock'[x];
    forall x | x in m && x != k
      ensures x in m' && m'[x] == m[x]
    {
      assert OnHand(stock, x) == OnHand(stock', x);
    }
    forall x | x in m' && x != k
      ensures x in m && m'[x] == m[x]
    {
      assert OnHand(stock, x) == OnHand(stock', x);
    }
    if k in stock' {
      assert m' == m[k := stock'[k]];
      SumUpdate(m, k, stock'[k]);
    } else {
      assert m' == m;
    }
  }

  lemma {:induction false} HeldChange(orders: map<OrderId, Order>, o: OrderId, row: Order, v: VariantId)
    ensures HeldTotal(orders[o := row], v)
            == HeldTotal(orders, v) + Held(row, v) - if o in orders then Held(orders[o], v) else 0
  {
    assert HeldBy(orders[o := row], v) == HeldBy(orders, v)[o := Held(row, v)];
    SumUpdate(HeldBy(orders, v), o, Held(row, v));
  }

  /** An order's snapshot holds exactly what was requested. */
  lemma {:induction false} SnapshotQty(ks: seq<VariantId>, lines: seq<Line>, prices: seq<Price>, c: Currency,
                                       v: VariantId)
    requires forall k :: k in ks ==> 1 <= QtyOf(lines, k)
    requires forall i, j :: 0 <= i < j < |ks| ==> ks[i] != ks[j]
    ensures QtyOf(ItemLines(ItemsFor(ks, lines, prices, c)), v) == if v in ks then QtyOf(lines, v) else 0
  {
    if ks != [] {
      var n := |ks| - 1;
      SnapshotQty(ks[..n], lines, prices, c, v);
      var all := ItemLines(ItemsFor(ks, lines, prices, c));
      assert all[..n] == ItemLines(ItemsFor(ks[..n], lines, prices, c));
      assert ks == ks[..n] + [ks[n]];
    }
  }

  lemma {:induction false} NewOrderHolds(cat: Catalog, req: OrderReq, v: VariantId)
    ensures QtyOf(ItemLines(NewOrder(cat, req).items), v) == QtyOf(req.items, v)
  {
    var ks := Keys(req.items);
    SnapshotQty(ks, req.items, cat.prices, Target(cat.prices, ks).GetOr(""), v);
  }

  lemma {:induction false} ChargeRow(stock: map<StockKey, int>, pool: Pool, lines: seq<Line>, v: VariantId)
    requires Covers(stock, pool, lines, Keys(lines))
    ensures var stock' := Charge(stock, pool, lines, Keys(lines));
            && SameBut(stock, stock', StockKey(v, pool))
            && (StockKey(v, pool) in stock <==> StockKey(v, pool) in stock')
            && OnHand(stock', StockKey(v, pool)) == OnHand(stock, StockKey(v, pool)) - QtyOf(lines, v)
  {
    hide Charge, QtyOf;
    var ks := Keys(lines);
    forall k {
      Orders.ChargeAt(stock, pool, lines, ks, k);
    }
    if v in ks {
      var i :| 0 <= i < |ks| && ks[i] == v;
    }
  }

  lemma {:induction false} RestockRow(stock: map<StockKey, int>, pool: Pool, lines: seq<Line>, v: VariantId)
    ensures var stock' := Restock(stock, pool, lines, Keys(lines));
            && SameBut(stock, stock', StockKey(v, pool))
            && (StockKey(v, pool) in stock ==> StockKey(v, pool) in stock')
            && OnHand(stock', StockKey(v, pool)) == OnHand(stock, StockKey(v, pool)) + QtyOf(lines, v)
  {
    hide Restock, QtyOf;
    forall k {
      Orders.RestockAt(stock, pool, lines, Keys(lines), k);
    }
  }

  // ---------- total conservation ----------

  lemma {:induction false} CreateOrderTotal(b: Books, cat: Catalog, req: OrderReq, v: VariantId)
    requires Sound(b)
    ensures Total(After(b, CreateOrder(b, cat, req)), v) == Total(b, v)
  {
    hide Charge, NewOrder, Keys, QtyOf, CatalogRefusal, Sound;
    var r := CreateOrder(b, cat, req);
    if r.Committed? {
      NextIdFresh(b);
      ChargeRow(b.stock, req.pool, req.items, v);
      ShelvesChange(b.stock, r.books.stock, StockKey(v, req.pool));
      NewOrderHolds(cat, req, v);
      assert NewOrder(cat, req).status == OrderPending by { NewOrderIsPending(cat, req); }
      HeldChange(b.orders, b.nextId, NewOrder(cat, req), v);
    }
  }

  lemma {:induction false} NewOrderIsPending(cat: Catalog, req: OrderReq)
    ensures NewOrder(cat, req).status == OrderPending
  {
  }

  lemma {:induction false} CancelOrderTotal(b: Books, o: OrderId, v: VariantId)
    ensures Total(After(b, CancelOrder(b, o)), v) == Total(b, v)
  {
    hide Restock, Keys, QtyOf;
    var r := CancelOrder(b, o);
    if r.Committed? {
      var lines := ItemLines(b.orders[o].items);
      RestockRow(b.stock, RestockPool(b, o), lines, v);
      ShelvesChange(b.stock, r.books.stock, StockKey(v, RestockPool(b, o)));
      HeldChange(b.orders, o, r.books.orders[o], v);
    }
  }

  lemma {:induction false} CaptureTotal(b: Books, p: PaymentId, v: VariantId)
    ensures Total(After(b, CapturePayment(b, p)), v) == Total(b, v)
  {
    var r := CapturePayment(b, p);
    if r.Committed? && r.books != b {
      var o := b.payments[p].orderId;
      HeldChange(b.orders, o, r.books.orders[o], v);
    }
  }

  /** A single row write by an adjustment. */
  lemma {:induction false} RowWriteTotal(b: Books, b': Books, k: StockKey, v: VariantId)
    requires b'.orders == b.orders && (b'.stock == b.stock || b'.stock == b.stock[k := OnHand(b'.stock, k)])
    ensures Total(b', v) == Total(b, v) + if k.variantId == v then OnHand(b'.stock, k) - OnHand(b.stock, k) else 0
  {
    ShelvesChange(b.stock, b'.stock, if k.variantId == v then k else StockKey(v, k.pool));
  }

  lemma {:induction false} AdjustTotal(b: Books, tx: Tx, v: VariantId)
    requires tx.TxIncrement? || tx.TxCreateStock?
    ensures Total(Step(b, tx), v) == Total(b, v) + InjectedOf(b, tx, v)
  {
    hide Total;
    RowWriteTotal(b, Step(b, tx), tx.k, v);
  }

  lemma {:induction false} TotalStep(b: Books, tx: Tx, v: VariantId)
    requires Sound(b)
    ensures Total(Step(b, tx), v) == Total(b, v) + InjectedOf(b, tx, v)
  {
    hide CreateOrder, CancelOrder, CapturePayment, Sound;
    match tx
    case TxCreateOrder(cat, req) => CreateOrderTotal(b, cat, req, v);
    case TxCancelOrder(o) => CancelOrderTotal(b, o, v);
    case TxCapturePayment(p) => CaptureTotal(b, p, v);
    case TxCreatePayment(o, tender) =>
    case TxFailPayment(p) =>
    case TxInsertSale(o, sale) =>
    case TxIncrement(k, delta) => AdjustTotal(b, tx, v);
    case TxCreateStock(k, quantity) => AdjustTotal(b, tx, v);
  }

  // ---------- conservation pool by pool ----------

  /** Units of a pool's row held by the orders that were charged to that pool. */
  ghost function PoolHeldBy(orders: map<OrderId, Order>, charged: map<OrderId, Pool>, k: StockKey): map<OrderId, int> {
    map o | o in orders :: if o in charged && charged[o] == k.pool then Held(orders[o], k.variantId) else 0
  }

  /** One pool's stock of a variant plus what orders charged to that pool still hold. */
  ghost function PoolTotal(b: Books, charged: map<OrderId, Pool>, k: StockKey): int {
    OnHand(b.stock, k) + Sum(PoolHeldBy(b.orders, charged, k))
  }

  /** The history variable: which pool each committed order was charged to. */
  function Charged(b: Books, charged: map<OrderId, Pool>, tx: Tx): map<OrderId, Pool> {
    if tx.TxCreateOrder? && Apply(b, tx).Committed? then charged[b.nextId := tx.req.pool] else charged
  }

  lemma {:induction false} PoolHeldChange(orders: map<OrderId, Order>, charged: map<OrderId, Pool>, o: OrderId,
                                          row: Order, k: StockKey)
    ensures var share := (x: Order) => if o in charged && charged[o] == k.pool then Held(x, k.variantId) else 0;
            Sum(PoolHeldBy(orders[o := row], charged, k))
            == Sum(PoolHeldBy(orders, charged, k)) + share(row) - if o in orders then share(orders[o]) else 0
  {
    var share := if o in charged && charged[o] == k.pool then Held(row, k.variantId) else 0;
    assert PoolHeldBy(orders[o := row], charged, k) == PoolHeldBy(orders, charged, k)[o := share];
    SumUpdate(PoolHeldBy(orders, charged, k), o, share);
  }

  lemma {:induction false} CreateOrderPool(b: Books, charged: map<OrderId, Pool>, cat: Catalog, req: OrderReq,
                                           k: StockKey)
    requires Sound(b)
    ensures var tx := TxCreateOrder(cat, req);
            PoolTotal(Step(b, tx), Charged(b, charged, tx), k) == PoolTotal(b, charged, k)
  {
    hide Charge, NewOrder, Keys, QtyOf, CatalogRefusal, Sound;
    var r := CreateOrder(b, cat, req);
    if r.Committed? {
      var charged' := charged[b.nextId := req.pool];
      NextIdFresh(b);
      assert PoolHeldBy(b.orders, charged', k) == PoolHeldBy(b.orders, charged, k);
      ChargeRow(b.stock, req.pool, req.items, k.variantId);
      NewOrderHolds(cat, req, k.variantId);
      NewOrderIsPending(cat, req);
      PoolHeldChange(b.orders, charged', b.nextId, NewOrder(cat, req), k);
      Orders.ChargeAt(b.stock, req.pool, req.items, Keys(req.items), k);
    }
  }

  /** What cancelling an order does to one pool's total. */
  lemma {:induction false} CancelOrderPool(b: Books, charged: map<OrderId, Pool>, o: OrderId, k: StockKey)
    requires CancelOrder(b, o).Committed?
    ensures var held := Held(b.orders[o], k.variantId);
            PoolTotal(CancelOrder(b, o).books, charged, k)
            == PoolTotal(b, charged, k) + (if k.pool == RestockPool(b, o) then held else 0)
               - if o in charged && k.pool == charged[o] then held else 0
  {
    hide Restock, Keys, QtyOf;
    var lines := ItemLines(b.orders[o].items);
    RestockRow(b.stock, RestockPool(b, o), lines, k.variantId);
    Orders.RestockAt(b.stock, RestockPool(b, o), lines, Keys(lines), k);
    PoolHeldChange(b.orders, charged, o, CancelOrder(b, o).books.orders[o], k);
    assert k.variantId in Keys(lines) || QtyOf(lines, k.variantId) == 0;
  }

  /** Cancelling keeps every pool's total exactly when it restocks the pool that was charged. */
  lemma {:induction false} CancelKeepsPoolsIff(b: Books, charged: map<OrderId, Pool>, o: OrderId)
    requires Sound(b) && CancelOrder(b, o).Committed? && o in charged
    ensures (forall k :: PoolTotal(CancelOrder(b, o).books, charged, k) == PoolTotal(b, charged, k))
            <==> charged[o] == RestockPool(b, o)
  {
    forall k {
      CancelOrderPool(b, charged, o, k);
    }
    if charged[o] != RestockPool(b, o) {
      var lines := ItemLines(b.orders[o].items);
      assert OrderSound(b.orders[o]);
      var k := StockKey(lines[|lines| - 1].variantId, charged[o]);
      assert 1 <= QtyOf(lines, k.variantId);
      CancelOrderPool(b, charged, o, k);
      assert PoolTotal(CancelOrder(b, o).books, charged, k) != PoolTotal(b, charged, k);
    }
  }

  lemma {:induction false} CapturePool(b: Books, charged: map<OrderId, Pool>, p: PaymentId, k: StockKey)
    ensures PoolTotal(After(b, CapturePayment(b, p)), charged, k) == PoolTotal(b, charged, k)
  {
    var r := CapturePayment(b, p);
    if r.Committed? && r.books != b {
      var o := b.payments[p].orderId;
      PoolHeldChange(b.orders, charged, o, r.books.orders[o], k);
    }
  }

  /** Pool by pool: every committed write but a misdirected cancellation changes a pool's total
      by exactly what adjustments put into that pool. */
  lemma {:induction false} PoolStep(b: Books, charged: map<OrderId, Pool>, tx: Tx, k: StockKey)
    requires Sound(b)
    requires tx.TxCancelOrder? && tx.o in b.orders ==> tx.o in charged && charged[tx.o] == RestockPool(b, tx.o)
    ensures PoolTotal(Step(b, tx), Charged(b, charged, tx), k) == PoolTotal(b, charged, k) + Injected(b, tx, k)
  {
    hide CreateOrder, CancelOrder, CapturePayment, Sound;
    match tx
    case TxCreateOrder(cat, req) => CreateOrderPool(b, charged, cat, req, k);
    case TxCancelOrder(o) =>
      if CancelOrder(b, o).Committed? {
        CommittedCancelExists(b, o);
        CancelOrderPool(b, charged, o, k);
      }
    case TxCapturePayment(p) => CapturePool(b, charged, p, k);
    case _ =>
  }

  lemma {:induction false} CommittedCancelExists(b: Books, o: OrderId)
    requires CancelOrder(b, o).Committed?
    ensures o in b.orders
  {
  }

  /** Cancelling twice changes nothing the second time, and neither does cancelling a paid order. */
  lemma {:induction false} CancelOnce(b: Books, o: OrderId)
    ensures var b' := After(b, CancelOrder(b, o));
            After(b', CancelOrder(b', o)) == b'
    ensures o in b.orders && b.orders[o].status == OrderPaid ==> After(b, CancelOrder(b, o)) == b
  {
  }

  // ---------- no pool ever goes negative ----------

  ghost predicate NonNegative(stock: map<StockKey, int>) {
    forall k :: k in stock ==> 0 <= stock[k]
  }

  lemma {:induction false} NonNegativeStep(b: Books, tx: Tx)
    requires NonNegative(b.stock) && (tx.TxCreateStock? ==> 0 <= tx.quantity)
    ensures NonNegative(Step(b, tx).stock)
  {
    hide Charge, Restock, Keys, QtyOf, NewOrder, CatalogRefusal;
    match tx
    case TxCreateOrder(cat, req) =>
      if CreateOrder(b, cat, req).Committed? {
        var ks := Keys(req.items);
        var stock' := Charge(b.stock, req.pool, req.items, ks);
        forall k | k in stock'
          ensures 0 <= stock'[k]
        {
          Orders.ChargeAt(b.stock, req.pool, req.items, ks, k);
          if k.pool == req.pool && k.variantId in ks {
            var i :| 0 <= i < |ks| && ks[i] == k.variantId;
          }
        }
      }
    case TxCancelOrder(o) =>
      if CancelOrder(b, o).Committed? {
        var lines := ItemLines(b.orders[o].items);
        var stock' := Restock(b.stock, RestockPool(b, o), lines, Keys(lines));
        forall k | k in stock'
          ensures 0 <= stock'[k]
        {
          Orders.RestockAt(b.stock, RestockPool(b, o), lines, Keys(lines), k);
        }
      }
    case _ =>
  }
}
