/** What every sequence of ledger transactions keeps: the order/payment invariant and the
    only status moves that can happen. */
module OrderPayments {
  import opened Schema
  import opened Lines
  import opened Ledger

  /** Everything that can be committed against the books, one atomic write at a time. */
  datatype Tx =
    | TxCreateOrder(cat: Catalog, req: OrderReq)
    | TxCancelOrder(o: OrderId)
    | TxCreatePayment(o: OrderId, tender: Method)
    | TxCapturePayment(p: PaymentId)
    | TxFailPayment(p: PaymentId)
    | TxInsertSale(o: OrderId, sale: Sale)
    | TxIncrement(k: StockKey, delta: int)
    | TxCreateStock(k: StockKey, quantity: int)

  function Apply(b: Books, tx: Tx): TxResult {
    match tx
    case TxCreateOrder(cat, req) => CreateOrder(b, cat, req)
    case TxCancelOrder(o) => CancelOrder(b, o)
    case TxCreatePayment(o, tender) => CreatePayment(b, o, tender)
    case TxCapturePayment(p) => CapturePayment(b, p)
    case TxFailPayment(p) => FailPayment(b, p)
    case TxInsertSale(o, sale) => InsertSale(b, o, sale)
    case TxIncrement(k, delta) => Increment(b, k, delta)
    case TxCreateStock(k, quantity) => CreateStock(b, k, quantity)
  }

  function Step(b: Books, tx: Tx): Books { After(b, Apply(b, tx)) }

  function Run(b: Books, txs: seq<Tx>): Books
  {
    if txs == [] then b else Step(Run(b, txs[..|txs| - 1]), txs[|txs| - 1])
  }

  // ---------- the invariant ----------

  function LineTotals(items: seq<OrderItem>): int
  {
    if items == [] then 0 else LineTotals(items[..|items| - 1]) + items[|items| - 1].lineTotalMinor
  }

  /** One line per distinct variant, priced in the order's currency, adding up to the subtotal. */
  ghost predicate OrderSound(o: Order) {
    && o.items != []
    && o.subtotalMinor == LineTotals(o.items)
    && (forall i :: 0 <= i < |o.items| ==>
          && o.items[i].lineTotalMinor == o.items[i].unitAmountMinor * o.items[i].quantity
          && o.items[i].currency == o.currency)
    && (forall i, j :: 0 <= i < j < |o.items| ==> o.items[i].variantId != o.items[j].variantId)
  }

  ghost predicate PaymentMatches(b: Books, p: PaymentId)
    requires p in b.payments
  {
    var pay := b.payments[p];
    && p < b.nextId
    && pay.orderId in b.orders
    && pay.amountMinor == b.orders[pay.orderId].subtotalMinor
    && pay.currency == b.orders[pay.orderId].currency
    && (pay.status == Captured ==> b.orders[pay.orderId].status == OrderPaid)
  }

  ghost predicate Sound(b: Books) {
    && (forall o :: o in b.orders ==> o < b.nextId && OrderSound(b.orders[o]))
    && (forall p :: p in b.payments ==> PaymentMatches(b, p))
    && (forall o :: o in b.orders && b.orders[o].status == OrderPaid ==> HasCaptured(b, o))
    && (forall p, q :: p in b.payments && q in b.payments && b.payments[p].status == Captured
                       && b.payments[q].status == Captured && b.payments[p].orderId == b.payments[q].orderId
                       ==> p == q)
  }

  /** The captured payments of an order. */
  ghost function CapturedOf(b: Books, o: OrderId): set<PaymentId> {
    set p | p in b.payments && b.payments[p].orderId == o && b.payments[p].status == Captured
  }

  /** In sound books an order is PAID exactly when it has exactly one captured payment, and
      otherwise it has none. */
  lemma {:induction false} PaidIffOneCapture(b: Books, o: OrderId)
    requires Sound(b) && o in b.orders
    ensures b.orders[o].status == OrderPaid <==> |CapturedOf(b, o)| == 1
    ensures b.orders[o].status != OrderPaid <==> CapturedOf(b, o) == {}
  {
    var s := CapturedOf(b, o);
    if b.orders[o].status == OrderPaid {
      var p :| p in b.payments && b.payments[p].orderId == o && b.payments[p].status == Captured;
      assert s == {p};
    } else {
      assert forall p :: p in b.payments ==> PaymentMatches(b, p);
      assert s == {};
    }
  }

  // ---------- order creation builds sound rows ----------

  lemma {:induction false} ItemsForSound(ks: seq<VariantId>, lines: seq<Line>, prices: seq<Price>, c: Currency)
    requires forall v :: v in ks ==> 1 <= QtyOf(lines, v)
    ensures var items := ItemsFor(ks, lines, prices, c);
            && LineTotals(items) == ValueByKey(ks, lines, UnitFn(prices, c))
            && forall i :: 0 <= i < |items| ==>
                 && items[i].unitAmountMinor == Unit(prices, ks[i], c)
                 && items[i].lineTotalMinor == items[i].unitAmountMinor * items[i].quantity
                 && items[i].currency == c
  {
    if ks != [] {
      var front := ks[..|ks| - 1];
      ItemsForSound(front, lines, prices, c);
      var items := ItemsFor(ks, lines, prices, c);
      assert items[..|items| - 1] == ItemsFor(front, lines, prices, c);
    }
  }

  lemma {:induction false} OrderRowSound(prices: seq<Price>, req: OrderReq, ks: seq<VariantId>, c: Currency)
    requires forall v :: v in ks ==> 1 <= QtyOf(req.items, v)
    requires ks != [] && forall i, j :: 0 <= i < j < |ks| ==> ks[i] != ks[j]
    ensures OrderSound(OrderRow(prices, req, ks, c))
  {
    ItemsForSound(ks, req.items, prices, c);
  }

  // ---------- every transaction keeps it ----------

  lemma {:induction false} CreateOrderSound(b: Books, cat: Catalog, req: OrderReq)
    requires Sound(b)
    ensures Sound(After(b, CreateOrder(b, cat, req)))
  {
    var r := CreateOrder(b, cat, req);
    if r.Committed? {
      var ks := Keys(req.items);
      var c := Target(cat.prices, ks).GetOr("");
      OrderRowSound(cat.prices, req, ks, c);
      SoundWithNewOrder(b, r.books, OrderRow(cat.prices, req, ks, c));
    }
  }

  lemma {:induction false} SoundWithNewOrder(b: Books, b': Books, row: Order)
    requires Sound(b) && OrderSound(row) && row.status == OrderPending
    requires b'.orders == b.orders[b.nextId := row] && b'.payments == b.payments && b'.nextId == b.nextId + 1
    ensures Sound(b')
  {
    forall p | p in b'.payments
      ensures PaymentMatches(b', p)
    {
      assert PaymentMatches(b, p);
    }
    forall o | o in b'.orders && b'.orders[o].status == OrderPaid
      ensures HasCaptured(b', o)
    {
      assert HasCaptured(b, o);
    }
  }

  /** A captured payment that stays captured keeps its order covered. */
  lemma {:induction false} CapturedKept(b: Books, b': Books, o: OrderId)
    requires HasCaptured(b, o)
    requires forall p :: p in b.payments && b.payments[p].status == Captured ==>
               p in b'.payments && b'.payments[p] == b.payments[p]
    ensures HasCaptured(b', o)
  {
    var p :| p in b.payments && b.payments[p].orderId == o && b.payments[p].status == Captured;
    assert p in b'.payments && b'.payments[p] == b.payments[p];
  }

  /** A status move keeps an order row sound. */
  lemma {:induction false} OrderSoundMove(o: Order, status: OrderStatus)
    requires OrderSound(o)
    ensures OrderSound(o.(status := status))
  {
  }

  lemma {:induction false} CancelOrderSound(b: Books, o: OrderId)
    requires Sound(b)
    ensures Sound(After(b, CancelOrder(b, o)))
  {
    hide Restock, Keys, ItemLines, OrderSound, HasCaptured;
    var b' := After(b, CancelOrder(b, o));
    if o in b.orders {
      OrderSoundMove(b.orders[o], OrderCancelled);
    }
    forall p | p in b'.payments
      ensures PaymentMatches(b', p)
    {
      assert PaymentMatches(b, p);
    }
    forall x | x in b'.orders && b'.orders[x].status == OrderPaid
      ensures HasCaptured(b', x)
    {
      CapturedKept(b, b', x);
    }
  }

  lemma {:induction false} CreatedMatches(b: Books, o: OrderId, tender: Method)
    requires forall p :: p in b.payments ==> PaymentMatches(b, p)
    ensures var b' := After(b, CreatePayment(b, o, tender)); forall p :: p in b'.payments ==> PaymentMatches(b', p)
  {
    hide HasCaptured;
    var b' := After(b, CreatePayment(b, o, tender));
    forall p | p in b.payments
      ensures PaymentMatches(b', p)
    {
      assert PaymentMatches(b, p);
    }
  }

  lemma {:induction false} CreatePaymentSound(b: Books, o: OrderId, tender: Method)
    requires Sound(b)
    ensures Sound(After(b, CreatePayment(b, o, tender)))
  {
    hide OrderSound, HasCaptured;
    var b' := After(b, CreatePayment(b, o, tender));
    NextIdFresh(b);
    CreatedMatches(b, o, tender);
    hide PaymentMatches;
    forall x | x in b'.orders && b'.orders[x].status == OrderPaid
      ensures HasCaptured(b', x)
    {
      CapturedKept(b, b', x);
    }
  }

  lemma {:induction false} CapturePaymentSound(b: Books, p: PaymentId)
    requires Sound(b)
    ensures Sound(After(b, CapturePayment(b, p)))
  {
    hide OrderSound;
    var b' := After(b, CapturePayment(b, p));
    if b' != b {
      var o := b.payments[p].orderId;
      OrderSoundMove(b.orders[o], OrderPaid);
      CaptureMatches(b, p);
      forall x | x in b'.orders && b'.orders[x].status == OrderPaid
        ensures HasCaptured(b', x)
      {
        if x == o {
          assert p in b'.payments && b'.payments[p].orderId == x && b'.payments[p].status == Captured;
        } else {
          CapturedKept(b, b', x);
        }
      }
    }
  }

  /** Capturing moves the payment and its order together, and that order had no captured payment. */
  lemma {:induction false} CaptureMatches(b: Books, p: PaymentId)
    requires forall q :: q in b.payments ==> PaymentMatches(b, q)
    requires p in b.payments && b.payments[p].status == Processing && CapturePayment(b, p).Committed?
    ensures var b', o := CapturePayment(b, p).books, b.payments[p].orderId;
            && (forall q :: q in b'.payments ==> PaymentMatches(b', q))
            && (forall q :: q in b.payments && b.payments[q].status == Captured ==> b.payments[q].orderId != o)
  {
    var b' := CapturePayment(b, p).books;
    forall q | q in b'.payments
      ensures PaymentMatches(b', q)
    {
      assert PaymentMatches(b, q);
    }
    forall q | q in b.payments && b.payments[q].status == Captured
      ensures b.payments[q].orderId != b.payments[p].orderId
    {
      assert PaymentMatches(b, q);
    }
  }

  lemma {:induction false} FailPaymentSound(b: Books, p: PaymentId)
    requires Sound(b)
    ensures Sound(After(b, FailPayment(b, p)))
  {
    hide OrderSound, HasCaptured;
    var b' := After(b, FailPayment(b, p));
    forall q | q in b'.payments
      ensures PaymentMatches(b', q)
    {
      assert PaymentMatches(b, q);
    }
    forall x | x in b'.orders && b'.orders[x].status == OrderPaid
      ensures HasCaptured(b', x)
    {
      CapturedKept(b, b', x);
    }
  }

  /** Writes that touch neither orders nor payments. */
  lemma {:induction false} SoundFrame(b: Books, b': Books)
    requires Sound(b)
    requires b'.orders == b.orders && b'.payments == b.payments && b'.nextId == b.nextId
    ensures Sound(b')
  {
    forall p | p in b'.payments
      ensures PaymentMatches(b', p)
    {
      assert PaymentMatches(b, p);
    }
    forall x | x in b'.orders && b'.orders[x].status == OrderPaid
      ensures HasCaptured(b', x)
    {
      assert HasCaptured(b, x);
    }
  }

  lemma {:induction false} SoundStep(b: Books, tx: Tx)
    requires Sound(b)
    ensures Sound(Step(b, tx))
  {
    hide CreateOrder, CancelOrder, CreatePayment, CapturePayment, FailPayment;
    match tx
    case TxCreateOrder(cat, req) => CreateOrderSound(b, cat, req);
    case TxCancelOrder(o) => CancelOrderSound(b, o);
    case TxCreatePayment(o, tender) => CreatePaymentSound(b, o, tender);
    case TxCapturePayment(p) => CapturePaymentSound(b, p);
    case TxFailPayment(p) => FailPaymentSound(b, p);
    case TxInsertSale(o, sale) => SoundFrame(b, Step(b, tx));
    case TxIncrement(k, delta) => SoundFrame(b, Step(b, tx));
    case TxCreateStock(k, quantity) => SoundFrame(b, Step(b, tx));
  }

  // ---------- the only moves ----------

  /** Rows never disappear; only statuses move, and only out of PENDING and PROCESSING. */
  ghost predicate OnlyMoves(b: Books, b': Books) {
    && b.nextId <= b'.nextId
    && (forall o :: o in b.orders ==>
          && o in b'.orders
          && b'.orders[o] == b.orders[o].(status := b'.orders[o].status)
          && (b.orders[o].status != OrderPending ==> b'.orders[o].status == b.orders[o].status))
    && (forall p :: p in b.payments ==>
          && p in b'.payments
          && b'.payments[p] == b.payments[p].(status := b'.payments[p].status)
          && (b.payments[p].status != Processing ==> b'.payments[p].status == b.payments[p].status))
    && (forall o :: o in b.sales ==> o in b'.sales && b'.sales[o] == b.sales[o])
    && (forall k :: k in b.stock ==> k in b'.stock)
  }

  lemma {:induction false} MovesTrans(b0: Books, b1: Books, b2: Books)
    requires OnlyMoves(b0, b1) && OnlyMoves(b1, b2)
    ensures OnlyMoves(b0, b2)
  {
    forall o | o in b0.orders
      ensures o in b2.orders && b2.orders[o] == b0.orders[o].(status := b2.orders[o].status)
      ensures b0.orders[o].status != OrderPending ==> b2.orders[o].status == b0.orders[o].status
    {
      assert o in b1.orders && b1.orders[o] == b0.orders[o].(status := b1.orders[o].status);
    }
    forall p | p in b0.payments
      ensures p in b2.payments && b2.payments[p] == b0.payments[p].(status := b2.payments[p].status)
      ensures b0.payments[p].status != Processing ==> b2.payments[p].status == b0.payments[p].status
    {
      assert p in b1.payments && b1.payments[p] == b0.payments[p].(status := b1.payments[p].status);
    }
  }

  /** Charging and restocking never remove a stock row. */
  lemma {:induction false} ChargeKeepsRows(stock: map<StockKey, int>, pool: Pool, lines: seq<Line>, ks: seq<VariantId>)
    ensures stock.Keys <= Charge(stock, pool, lines, ks).Keys
    ensures stock.Keys <= Restock(stock, pool, lines, ks).Keys
  {
    if ks != [] {
      ChargeKeepsRows(stock, pool, lines, ks[..|ks| - 1]);
    }
  }

  lemma {:induction false} StockMoves(b: Books, b': Books)
    requires b' == b.(stock := b'.stock) || b' == b.(sales := b'.sales)
    requires b.stock.Keys <= b'.stock.Keys
    requires forall o :: o in b.sales ==> o in b'.sales && b'.sales[o] == b.sales[o]
    ensures OnlyMoves(b, b')
  {
  }

  lemma {:induction false} CreateOrderMoves(b: Books, cat: Catalog, req: OrderReq)
    requires Sound(b)
    ensures OnlyMoves(b, After(b, CreateOrder(b, cat, req)))
  {
    hide NewOrder, QtyOf, OrderSound, OrderRefusal, Charge, Keys;
    ChargeKeepsRows(b.stock, req.pool, req.items, Keys(req.items));
  }

  lemma {:induction false} CancelOrderMoves(b: Books, o: OrderId)
    requires Sound(b)
    ensures OnlyMoves(b, After(b, CancelOrder(b, o)))
  {
    hide QtyOf, OrderSound, Restock, Keys;
    if o in b.orders {
      var lines := ItemLines(b.orders[o].items);
      ChargeKeepsRows(b.stock, RestockPool(b, o), lines, Keys(lines));
    }
  }

  lemma {:induction false} PaymentMoves(b: Books, tx: Tx)
    requires b.nextId !in b.payments
    requires tx.TxCreatePayment? || tx.TxCapturePayment? || tx.TxFailPayment?
    ensures OnlyMoves(b, Step(b, tx))
  {
    hide CreateOrder, CancelOrder, HasCaptured;
  }

  lemma {:induction false} NextIdFresh(b: Books)
    requires Sound(b)
    ensures b.nextId !in b.payments && b.nextId !in b.orders
  {
    forall p | p in b.payments
      ensures p < b.nextId
    {
      assert PaymentMatches(b, p);
    }
  }

  lemma {:induction false} StepMoves(b: Books, tx: Tx)
    requires Sound(b)
    ensures OnlyMoves(b, Step(b, tx))
  {
    hide Sound, CreateOrder, CancelOrder, CreatePayment, CapturePayment, FailPayment, OnlyMoves;
    NextIdFresh(b);
    match tx
    case TxCreateOrder(cat, req) => CreateOrderMoves(b, cat, req);
    case TxCancelOrder(o) => CancelOrderMoves(b, o);
    case TxCreatePayment(o, tender) => PaymentMoves(b, tx);
    case TxCapturePayment(p) => PaymentMoves(b, tx);
    case TxFailPayment(p) => PaymentMoves(b, tx);
    case TxInsertSale(o, sale) => StockMoves(b, Step(b, tx));
    case TxIncrement(k, delta) => StockMoves(b, Step(b, tx));
    case TxCreateStock(k, quantity) => StockMoves(b, Step(b, tx));
  }

  /** Main result: over any run the invariant holds throughout, and PENDING to PAID or CANCELLED
      and PROCESSING to CAPTURED or FAILED are the only status moves. */
  lemma {:induction false} RunSound(b: Books, txs: seq<Tx>)
    requires Sound(b)
    ensures Sound(Run(b, txs)) && OnlyMoves(b, Run(b, txs))
  {
    if txs != [] {
      var front := Run(b, txs[..|txs| - 1]);
      RunSound(b, txs[..|txs| - 1]);
      SoundStep(front, txs[|txs| - 1]);
      StepMoves(front, txs[|txs| - 1]);
      MovesTrans(b, front, Run(b, txs));
    }
  }
}
