/** What one uninterrupted sync call guarantees: a validated intent is sold exactly as observed
    when, and only when, the engine prices in the intent's currency; a rejected one leaves only
    its verdict behind; a replay changes nothing. */
module PosTheorems {
  import opened Schema
  import opened Lines
  import opened Ledger
  import opened OrderPayments
  import opened Database
  import opened Orders
  import opened Platform
  import opened PosFlows

  // ---------- prices ----------

  /** One current price per (variant, currency): the unique index on price rows. */
  ghost predicate UniquePrices(prices: seq<Price>) {
    forall i, j :: 0 <= i < j < |prices| ==>
      prices[i].variantId != prices[j].variantId || prices[i].currency != prices[j].currency
  }

  lemma {:induction false} RowsOfIn(prices: seq<Price>, v: VariantId, row: Price)
    ensures row in RowsOf(prices, v) <==> row in prices && row.variantId == v
  {
    if prices != [] {
      var n := |prices| - 1;
      RowsOfIn(prices[..n], v, row);
      assert prices == prices[..n] + [prices[n]];
    }
  }

  lemma {:induction false} FindIn(rows: seq<Price>, c: Currency)
    ensures Find(rows, c).Some? ==> Find(rows, c).value in rows && Find(rows, c).value.currency == c
    ensures Find(rows, c).None? ==> forall row :: row in rows ==> row.currency != c
  {
    if rows != [] && rows[0].currency != c {
      FindIn(rows[1..], c);
      assert rows == [rows[0]] + rows[1..];
    }
  }

  lemma {:induction false} LastAmountIn(prices: seq<Price>, v: VariantId, c: Currency)
    ensures LastAmount(prices, v, c).Some? ==> Price(v, c, LastAmount(prices, v, c).value) in prices
    ensures LastAmount(prices, v, c).None? ==> forall row :: row in prices ==> row.variantId != v || row.currency != c
  {
    if prices != [] {
      var n := |prices| - 1;
      assert prices == prices[..n] + [prices[n]];
      if !(prices[n].variantId == v && prices[n].currency == c) {
        LastAmountIn(prices[..n], v, c);
      }
    }
  }

  /** With unique price rows the validator and the engine read the same amount. */
  lemma {:induction false} SameAmount(prices: seq<Price>, v: VariantId, c: Currency)
    requires UniquePrices(prices)
    ensures LastAmount(prices, v, c) == match PriceIn(prices, v, c) case Some(p) => Some(p.amountMinor)
            case None => None
  {
    var rows := RowsOf(prices, v);
    FindIn(rows, c);
    LastAmountIn(prices, v, c);
    forall row
      ensures row in rows <==> row in prices && row.variantId == v
    {
      RowsOfIn(prices, v, row);
    }
  }

  // ---------- what validation has checked ----------

  lemma {:induction false} LinesChecked(prices: seq<Price>, items: seq<IntentLine>, n: nat, i: nat)
    requires i < n <= |items| && LineRefusal(prices, items, n).None?
    ensures items[i].currency == items[0].currency
    ensures LastAmount(prices, items[i].variantId, items[i].currency) == Some(items[i].observedUnitAmountMinor)
  {
    if i < n - 1 {
      LinesChecked(prices, items, n - 1, i);
    }
  }

  /** The price the device observed, times the quantity, line by line. */
  function ObservedValue(items: seq<IntentLine>): int
  {
    if items == [] then 0
    else
      var last := items[|items| - 1];
      ObservedValue(items[..|items| - 1]) + last.observedUnitAmountMinor * last.quantity
  }

  lemma {:induction false} ObservedIsValue(items: seq<IntentLine>, unit: VariantId -> int)
    requires forall i :: 0 <= i < |items| ==> unit(items[i].variantId) == items[i].observedUnitAmountMinor
    ensures ValueOf(IntentLines(items), unit) == ObservedValue(items)
  {
    if items != [] {
      var n := |items| - 1;
      ObservedIsValue(items[..n], unit);
      assert IntentLines(items)[..n] == IntentLines(items[..n]);
    }
  }

  lemma {:induction false} FirstKey(lines: seq<Line>)
    requires lines != []
    ensures Keys(lines) != [] && Keys(lines)[0] == lines[0].variantId
  {
    if |lines| > 1 {
      FirstKey(lines[..|lines| - 1]);
    } else {
      assert lines[..0] == [];
    }
  }

  lemma {:induction false} KeyHasLine(lines: seq<Line>, v: VariantId) returns (i: nat)
    requires v in Keys(lines)
    ensures i < |lines| && lines[i].variantId == v
  {
    var n := |lines| - 1;
    if lines[n].variantId == v {
      i := n;
    } else {
      i := KeyHasLine(lines[..n], v);
    }
  }

  lemma {:induction false} KeyIsLine(lines: seq<Line>, v: VariantId)
    ensures v in Keys(lines) <==> exists i :: 0 <= i < |lines| && lines[i].variantId == v
  {
    if v in Keys(lines) { var i := KeyHasLine(lines, v); }
    forall i | 0 <= i < |lines| && lines[i].variantId == v
      ensures v in Keys(lines)
    {
      LineIsKey(lines, i);
    }
  }

  lemma {:induction false} LineIsKey(lines: seq<Line>, i: nat)
    requires i < |lines|
    ensures lines[i].variantId in Keys(lines)
  {
    if i < |lines| - 1 {
      LineIsKey(lines[..|lines| - 1], i);
      assert lines[..|lines| - 1][i] == lines[i];
    }
  }

  lemma {:induction false} Priceable(prices: seq<Price>, ks: seq<VariantId>, n: nat, c: Currency)
    requires n <= |ks| && Target(prices, ks) == Some(c)
    requires forall v :: v in ks ==> PriceIn(prices, v, c).Some?
    ensures PriceRefusal(prices, ks, n).None?
  {
    if n != 0 {
      Priceable(prices, ks, n - 1, c);
      assert ks[n - 1] in ks;
      assert PriceIn(prices, ks[n - 1], c).Some?;
    }
  }

  // ---------- the situation ----------

  /** An operation waiting for its first verdict, whose provenance is its session's. */
  predicate Waiting(op: Operation, sessions: map<SessionId, Session>) {
    && op.status == OpPending && op.processedAt.None?
    && op.resultCode.None? && op.resultOrderId.None? && op.resultPaymentId.None?
    && op.sessionId in sessions
    && sessions[op.sessionId].deviceId == op.deviceId
    && sessions[op.sessionId].storeId == op.storeId
    && sessions[op.sessionId].userId == op.userId
  }

  /** A pending, unclaimed operation over sound books with unique prices, an authorised caller and a
      known customer, if any. */
  ghost predicate Situation(b: Books, cat: Catalog, sessions: map<SessionId, Session>, devices: map<DeviceId, Device>,
                            ops: map<OpId, Operation>, id: OpId, caller: Caller)
  {
    && id in ops && Waiting(ops[id], sessions)
    && Entitled(devices, ops[id], caller)
    && (ops[id].customerId.Some? ==> ops[id].customerId.value in cat.customers)
    && Sound(b)
    && (forall o :: o in b.sales ==> o in b.orders && b.sales[o].paymentId in b.payments)
    && UniquePrices(cat.prices)
  }

  /** The guard of the branch that decides: the first price row of the first variant is in the
      intent's currency. */
  predicate PricedInIntentCurrency(cat: Catalog, op: Operation) {
    op.items != [] &&
    var rows := RowsOf(cat.prices, op.items[0].variantId);
    rows != [] && rows[0].currency == op.items[0].currency
  }

  /** Sold exactly as the device recorded it. */
  ghost predicate SoldAsObserved(out: SyncOutcome, op: Operation) {
    && op.items != []
    && out.result.Ok? && out.result.value.status == OpAccepted && out.result.value.orderId.Some?
    && out.result.value.orderId.value in out.books.orders
    && out.books.orders[out.result.value.orderId.value].currency == op.items[0].currency
    && out.books.orders[out.result.value.orderId.value].subtotalMinor == ObservedValue(op.items)
  }

  /** The call returned ACCEPTED with this order and payment; the order is paid and recorded with the
      operation's provenance, and of the operations only this row changed. */
  ghost predicate AcceptedWith(out: SyncOutcome, ops: map<OpId, Operation>, id: OpId, o: OrderId, p: PaymentId,
                               now: Instant)
    requires id in ops
  {
    && out.result == Ok(SyncResult(OpAccepted, None, Some(o), Some(p)))
    && o in out.books.orders && out.books.orders[o].status == OrderPaid
    && o in out.books.sales
    && out.books.sales[o] == Sale(p, ops[id].sessionId, ops[id].deviceId, ops[id].storeId, ops[id].userId)
    && out.ops == ops[id := ops[id].(status := OpAccepted, resultOrderId := Some(o), resultPaymentId := Some(p),
                                     processedAt := Some(now))]
  }

  /** Only the operation's store pool dropped, by exactly the recorded quantities. */
  ghost predicate StoreCharged(stock: map<StockKey, int>, stock': map<StockKey, int>, op: Operation) {
    forall k :: OnHand(stock', k)
                == OnHand(stock, k) - if k.pool == Store(op.storeId) then QtyOf(IntentLines(op.items), k.variantId)
                   else 0
  }

  // ---------- the engine cannot refuse ----------

  function IntentOrder(op: Operation): OrderReq {
    OrderReq(op.userId, op.customerId, IntentLines(op.items), Store(op.storeId), None, None)
  }

  /** A validated intent is priced by the engine in its own currency at the observed amounts. */
  lemma {:induction false} ValidatedIsPriceable(b: Books, cat: Catalog, op: Operation)
    requires UniquePrices(cat.prices) && IntentRefusal(b.stock, cat, op).None? && PricedInIntentCurrency(cat, op)
    ensures OrderRefusal(b, cat, IntentOrder(op)).None?
    ensures NewOrder(cat, IntentOrder(op)).currency == op.items[0].currency
    ensures NewOrder(cat, IntentOrder(op)).subtotalMinor == ObservedValue(op.items)
  {
    hide QtyOf, Covers;
    var lines, c := IntentLines(op.items), op.items[0].currency;
    var ks := Keys(lines);
    FirstKey(lines);
    forall i | 0 <= i < |op.items|
      ensures PriceIn(cat.prices, op.items[i].variantId, c).Some?
      ensures UnitFn(cat.prices, c)(op.items[i].variantId) == op.items[i].observedUnitAmountMinor
    {
      LinesChecked(cat.prices, op.items, |op.items|, i);
      SameAmount(cat.prices, op.items[i].variantId, c);
    }
    forall v | v in ks
      ensures PriceIn(cat.prices, v, c).Some?
    {
      var i := KeyHasLine(lines, v);
    }
    Priceable(cat.prices, ks, |ks|, c);
    AggregationPreservesValue(lines, UnitFn(cat.prices, c));
    ObservedIsValue(op.items, UnitFn(cat.prices, c));
  }

  lemma {:induction false} PricedEarlier(prices: seq<Price>, ks: seq<VariantId>, m: nat, n: nat)
    requires m <= n <= |ks| && PriceRefusal(prices, ks, n).None?
    ensures PriceRefusal(prices, ks, m).None?
    decreases n
  {
    hide RowsOf, Find, Target, PriceIn;
    if m < n {
      PricedEarlier(prices, ks, m, n - 1);
    }
  }

  /** The engine's currency is decided by the first price row alone. */
  lemma {:induction false} EngineCurrency(b: Books, cat: Catalog, op: Operation)
    requires op.items != [] && OrderRefusal(b, cat, IntentOrder(op)).None?
    ensures NewOrder(cat, IntentOrder(op)).currency == op.items[0].currency <==> PricedInIntentCurrency(cat, op)
  {
    hide QtyOf, Covers, RowsOf;
    var lines := IntentLines(op.items);
    FirstKey(lines);
    PricedEarlier(cat.prices, Keys(lines), 1, |Keys(lines)|);
  }

  // ---------- from the order to the provenance row ----------

  /** An order nobody has paid or recorded yet goes through payment, capture and provenance. */
  lemma {:induction false} FreshOrderIsSold(b: Books, req: SaleRequest, session: Session, o: OrderId)
    requires req.tender == Cash
    requires o in b.orders && b.orders[o].status == OrderPending
    requires forall p :: p in b.payments ==> b.payments[p].orderId != o && p < b.nextId
    requires o !in b.sales && forall x :: x in b.sales ==> b.sales[x].paymentId < b.nextId
    ensures var out, p := PayAndRecord(b, req, session, o), b.nextId;
            var row := b.orders[o];
            && out.result == Ok((o, p))
            && out.books == b.(orders := b.orders[o := row.(status := OrderPaid)],
                               payments := b.payments[p := Payment(o, Captured, Cash, row.subtotalMinor, row.currency)],
                               sales := b.sales[o := Sale(p, req.sessionId, session.deviceId, session.storeId,
                                                          session.userId)],
                               nextId := b.nextId + 1)
  {
    var b1 := CreatePayment(b, o, Cash).books;
    var p := b.nextId;
    assert b1.payments[p] == Payment(o, Processing, Cash, b.orders[o].subtotalMinor, b.orders[o].currency);
    var b2 := CapturePayment(b1, p).books;
    assert b2.payments == b.payments[p := Payment(o, Captured, Cash, b.orders[o].subtotalMinor, b.orders[o].currency)];
  }

  /** The books after an intent's sale: one paid order, its captured payment, its provenance row,
      and the store pool charged. */
  function SoldBooks(b: Books, cat: Catalog, op: Operation): Books {
    var req, o, p := IntentOrder(op), b.nextId, b.nextId + 1;
    var row := NewOrder(cat, req).(status := OrderPaid);
    b.(stock := Charge(b.stock, req.pool, req.items, Keys(req.items)),
       orders := b.orders[o := row],
       payments := b.payments[p := Payment(o, Captured, Cash, row.subtotalMinor, row.currency)],
       sales := b.sales[o := Sale(p, op.sessionId, op.deviceId, op.storeId, op.userId)],
       nextId := b.nextId + 2)
  }

  lemma {:induction false} ConfirmedIsSold(b: Books, cat: Catalog, sessions: map<SessionId, Session>,
                                           devices: map<DeviceId, Device>, ops: map<OpId, Operation>, id: OpId,
                                           caller: Caller)
    requires Situation(b, cat, sessions, devices, ops, id, caller)
    requires ops[id].items != [] && OrderRefusal(b, cat, IntentOrder(ops[id])).None?
    ensures CreateSale(b, cat, sessions, devices, RequestOf(ops[id]), true)
            == SaleOutcome(SoldBooks(b, cat, ops[id]), Ok((b.nextId, b.nextId + 1)))
  {
    hide OrderRefusal, NewOrder, Charge, Keys, PayAndRecord, OrderSound, UniquePrices;
    var op := ops[id];
    var b1 := CreateOrder(b, cat, IntentOrder(op)).books;
    NewOrderPending(cat, IntentOrder(op));
    assert forall p :: p in b.payments ==> PaymentMatches(b, p);
    FreshOrderIsSold(b1, RequestOf(op), sessions[op.sessionId], b.nextId);
    assert PlaceOrder(b, cat, op.userId, CreateOrderDto(IntentLines(op.items), op.customerId, None),
                      CreateOrderOptions(Store(op.storeId), None))
           == CreateOrder(b, cat, IntentOrder(op));
  }

  lemma {:induction false} NewOrderPending(cat: Catalog, req: OrderReq)
    ensures NewOrder(cat, req).status == OrderPending
  {
  }

  // ---------- the results ----------

  /** A validated intent priced in its own currency is accepted: the order's subtotal is the
      observed value, and only the operation's store pool drops, by exactly what was recorded. */
  lemma {:induction false} ValidatedIntentIsSold(b: Books, cat: Catalog, sessions: map<SessionId, Session>,
                                                 devices: map<DeviceId, Device>, ops: map<OpId, Operation>, id: OpId,
                                                 caller: Caller, now: Instant, clock: nat -> Instant)
    requires Situation(b, cat, sessions, devices, ops, id, caller)
    requires IntentRefusal(b.stock, cat, ops[id]).None? && PricedInIntentCurrency(cat, ops[id])
    ensures var out := SyncOperation(b, cat, sessions, devices, ops, id, caller, now, clock);
            && AcceptedWith(out, ops, id, b.nextId, b.nextId + 1, now)
            && SoldAsObserved(out, ops[id])
            && StoreCharged(b.stock, out.books.stock, ops[id])
  {
    var op := ops[id];
    NonEmpty(b, cat, op);
    ValidatedIsPriceable(b, cat, op);
    SoldOutcome(b, cat, sessions, devices, ops, id, caller, now, clock);
    hide *;
    SoldFacts(b, cat, ops, id, now);
  }

  /** The outcome of a validated, priceable intent. */
  function SaleOf(b: Books, cat: Catalog, ops: map<OpId, Operation>, id: OpId, now: Instant): SyncOutcome
    requires id in ops
  {
    SyncOutcome(SoldBooks(b, cat, ops[id]),
                ops[id := ops[id].(status := OpAccepted, resultOrderId := Some(b.nextId),
                                   resultPaymentId := Some(b.nextId + 1), processedAt := Some(now))],
                Ok(SyncResult(OpAccepted, None, Some(b.nextId), Some(b.nextId + 1))))
  }

  lemma {:induction false} SoldFacts(b: Books, cat: Catalog, ops: map<OpId, Operation>, id: OpId, now: Instant)
    requires id in ops && ops[id].items != []
    requires NewOrder(cat, IntentOrder(ops[id])).currency == ops[id].items[0].currency
    requires NewOrder(cat, IntentOrder(ops[id])).subtotalMinor == ObservedValue(ops[id].items)
    ensures var out := SaleOf(b, cat, ops, id, now);
            && AcceptedWith(out, ops, id, b.nextId, b.nextId + 1, now)
            && SoldAsObserved(out, ops[id])
            && StoreCharged(b.stock, out.books.stock, ops[id])
  {
    hide NewOrder, Charge, QtyOf, ObservedValue;
    var op := ops[id];
    var lines := IntentLines(op.items);
    forall k {
      Orders.ChargeAt(b.stock, Store(op.storeId), lines, Keys(lines), k);
    }
  }

  /** A validated, priceable intent goes all the way. */
  lemma {:induction false} SoldOutcome(b: Books, cat: Catalog, sessions: map<SessionId, Session>,
                                       devices: map<DeviceId, Device>, ops: map<OpId, Operation>, id: OpId,
                                       caller: Caller, now: Instant, clock: nat -> Instant)
    requires Situation(b, cat, sessions, devices, ops, id, caller)
    requires IntentRefusal(b.stock, cat, ops[id]).None? && ops[id].items != []
             && OrderRefusal(b, cat, IntentOrder(ops[id])).None?
    ensures SyncOperation(b, cat, sessions, devices, ops, id, caller, now, clock)
            == SaleOf(b, cat, ops, id, now)
  {
    hide *;
    ConfirmedIsSold(b, cat, sessions, devices, ops, id, caller);
    Admitted(b, cat, sessions, devices, ops, id, caller, now, clock);
    ExecutedAs(b, cat, sessions, devices, ops, id, now, SoldBooks(b, cat, ops[id]), b.nextId, b.nextId + 1);
    SaleOfIs(b, cat, ops, id, now);
  }

  lemma {:induction false} SaleOfIs(b: Books, cat: Catalog, ops: map<OpId, Operation>, id: OpId, now: Instant)
    requires id in ops
    ensures SaleOf(b, cat, ops, id, now)
            == SyncOutcome(SoldBooks(b, cat, ops[id]),
                           ops[id := ops[id].(status := OpAccepted, resultOrderId := Some(b.nextId),
                                              resultPaymentId := Some(b.nextId + 1), processedAt := Some(now))],
                           Ok(SyncResult(OpAccepted, None, Some(b.nextId), Some(b.nextId + 1))))
  {
    hide SoldBooks;
  }

  /** A successful sale settles the operation. */
  lemma {:induction false} ExecutedAs(b: Books, cat: Catalog, sessions: map<SessionId, Session>,
                                      devices: map<DeviceId, Device>, ops: map<OpId, Operation>, id: OpId, now: Instant,
                                      sold: Books, o: OrderId, p: PaymentId)
    requires id in ops && ops[id].status == OpPending && ops[id].resultCode.None?
    requires CreateSale(b, cat, sessions, devices, RequestOf(ops[id]), true) == SaleOutcome(sold, Ok((o, p)))
    ensures Execute(b, cat, sessions, devices, ops, id, now)
            == SyncOutcome(sold, ops[id := ops[id].(status := OpAccepted, resultOrderId := Some(o),
                                                    resultPaymentId := Some(p),
                                                    processedAt := Some(now))],
                           Ok(SyncResult(OpAccepted, None, Some(o), Some(p))))
  {
    hide CreateSale, RequestOf;
  }

  /** A validated, unclaimed operation is executed. */
  lemma {:induction false} Admitted(b: Books, cat: Catalog, sessions: map<SessionId, Session>,
                                    devices: map<DeviceId, Device>, ops: map<OpId, Operation>, id: OpId, caller: Caller,
                                    now: Instant, clock: nat -> Instant)
    requires Situation(b, cat, sessions, devices, ops, id, caller) && IntentRefusal(b.stock, cat, ops[id]).None?
    ensures SyncOperation(b, cat, sessions, devices, ops, id, caller, now, clock)
            == Execute(b, cat, sessions, devices, ops, id, now)
    ensures id in ops && ops[id].status == OpPending && ops[id].resultCode.None?
  {
    hide IntentRefusal, Execute, UniquePrices, Sound;
  }

  lemma {:induction false} NonEmpty(b: Books, cat: Catalog, op: Operation)
    requires IntentRefusal(b.stock, cat, op).None?
    ensures op.items != []
  {
  }

  /** The exact condition: a validated intent is sold as observed if and only if the first price row
      the engine meets is in the intent's currency. */
  lemma {:induction false} SoldAsObservedIff(b: Books, cat: Catalog, sessions: map<SessionId, Session>,
                                             devices: map<DeviceId, Device>, ops: map<OpId, Operation>, id: OpId,
                                             caller: Caller, now: Instant, clock: nat -> Instant)
    requires Situation(b, cat, sessions, devices, ops, id, caller)
    requires IntentRefusal(b.stock, cat, ops[id]).None?
    ensures SoldAsObserved(SyncOperation(b, cat, sessions, devices, ops, id, caller, now, clock), ops[id])
            <==> PricedInIntentCurrency(cat, ops[id])
  {
    hide IntentRefusal, OrderRefusal, NewOrder, PricedInIntentCurrency;
    var op := ops[id];
    NonEmpty(b, cat, op);
    if PricedInIntentCurrency(cat, op) {
      ValidatedIntentIsSold(b, cat, sessions, devices, ops, id, caller, now, clock);
    } else if OrderRefusal(b, cat, IntentOrder(op)).None? {
      EngineCurrency(b, cat, op);
      ConfirmedIsSold(b, cat, sessions, devices, ops, id, caller);
    } else {
      assert PlaceOrder(b, cat, op.userId, CreateOrderDto(IntentLines(op.items), op.customerId, None),
                        CreateOrderOptions(Store(op.storeId), None))
             == CreateOrder(b, cat, IntentOrder(op));
    }
  }

  /** Every intent variant priced in one currency only is enough. */
  lemma {:induction false} SingleCurrencySuffices(cat: Catalog, op: Operation)
    requires op.items != [] && LineRefusal(cat.prices, op.items, |op.items|).None?
    requires forall row :: row in cat.prices && row.variantId == op.items[0].variantId ==>
               row.currency == op.items[0].currency
    ensures PricedInIntentCurrency(cat, op)
  {
    var v, c := op.items[0].variantId, op.items[0].currency;
    LinesChecked(cat.prices, op.items, |op.items|, 0);
    LastAmountIn(cat.prices, v, c);
    var row := Price(v, c, op.items[0].observedUnitAmountMinor);
    RowsOfIn(cat.prices, v, row);
    RowsOfIn(cat.prices, v, RowsOf(cat.prices, v)[0]);
  }

  /** A rejected intent leaves nothing behind but its typed verdict. */
  lemma {:induction false} RejectionLeavesOnlyVerdict(b: Books, cat: Catalog, sessions: map<SessionId, Session>,
                                                      devices: map<DeviceId, Device>, ops: map<OpId, Operation>,
                                                      id: OpId, caller: Caller, now: Instant, clock: nat -> Instant)
    requires id in ops && ops[id].status == OpPending && Entitled(devices, ops[id], caller)
    requires IntentRefusal(b.stock, cat, ops[id]).Some?
    ensures var out := SyncOperation(b, cat, sessions, devices, ops, id, caller, now, clock);
            && out.books == b
            && out.ops == ops[id := ops[id].(status := OpRejected,
                                             resultCode := Some(IntentRefusal(b.stock, cat, ops[id]).value))]
            && out.result == Ok(ResultOf(out.ops[id]))
  {
    hide IntentRefusal;
  }

  /** Replaying a call that returned changes nothing and returns the same, whatever has happened to
      catalogue, stock and sessions since. */
  lemma {:induction false} ReplayChangesNothing(b: Books, cat: Catalog, sessions: map<SessionId, Session>,
                                                devices: map<DeviceId, Device>, ops: map<OpId, Operation>, id: OpId,
                                                caller: Caller, now: Instant, clock: nat -> Instant, b': Books,
                                                cat': Catalog, sessions': map<SessionId, Session>, now': Instant,
                                                clock': nat -> Instant)
    requires SyncOperation(b, cat, sessions, devices, ops, id, caller, now, clock).result.Ok?
    ensures var out := SyncOperation(b, cat, sessions, devices, ops, id, caller, now, clock);
            SyncOperation(b', cat', sessions', devices, out.ops, id, caller, now', clock')
              == SyncOutcome(b', out.ops, out.result)
  {
    hide IntentRefusal, CreateSale;
  }

  // ---------- bookings ----------

  /** A point-of-sale sale links no booking, whatever booking its request names, and is never refused for one. */
  lemma {:induction false} SaleLinksNoBooking(b: Books, cat: Catalog, sessions: map<SessionId, Session>,
                                              devices: map<DeviceId, Device>, req: SaleRequest, offline: bool)
    ensures var out := CreateSale(b, cat, sessions, devices, req, offline);
            out.books.bookings == b.bookings && out.result != Err(BookingTaken)
  {
    hide PlaceOrder, PayAndRecord, ContextRefusal;
    ContextAllowsBookings(sessions, devices, req, offline);
    if ContextRefusal(sessions, devices, req, offline).None? {
      var session := sessions[req.sessionId];
      var dto, options := CreateOrderDto(req.items, req.customerId, req.bookingId),
                          CreateOrderOptions(Store(session.storeId), None);
      OrderLinksNothing(b, cat, req.userId, dto, options);
      var order := PlaceOrder(b, cat, req.userId, dto, options);
      if order.Committed? { PayingLinksNothing(order.books, req, session, order.id); }
    }
  }

  lemma {:induction false} OrderLinksNothing(b: Books, cat: Catalog, userId: UserId, dto: CreateOrderDto,
                                             options: CreateOrderOptions)
    requires options.bookingId.None?
    ensures var tx := PlaceOrder(b, cat, userId, dto, options);
            if tx.Committed? then tx.books.bookings == b.bookings else tx.error != BookingTaken
  {
    hide CatalogRefusal, Covers, NewOrder, Charge, Keys, FirstOpenCart, ConvertCart;
    forall lines
      ensures CatalogRefusal(cat, lines) != Some(BookingTaken)
    {
      CatalogAllowsBookings(cat, lines);
    }
  }

  lemma {:induction false} PayingLinksNothing(b: Books, req: SaleRequest, session: Session, o: OrderId)
    ensures var out := PayAndRecord(b, req, session, o);
            out.books.bookings == b.bookings && out.result != Err(BookingTaken)
  {
    hide HasCaptured;
  }

  lemma {:induction false} ContextAllowsBookings(sessions: map<SessionId, Session>, devices: map<DeviceId, Device>,
                                                 req: SaleRequest, offline: bool)
    ensures ContextRefusal(sessions, devices, req, offline) != Some(BookingTaken)
    ensures ContextRefusal(sessions, devices, req, offline).None? ==> req.sessionId in sessions
  {
  }

  lemma {:induction false} CatalogAllowsBookings(cat: Catalog, items: seq<Line>)
    ensures CatalogRefusal(cat, items) != Some(BookingTaken)
  {
    PricingAllowsBookings(cat.prices, Keys(items), |Keys(items)|);
  }

  lemma {:induction false} PricingAllowsBookings(prices: seq<Price>, ks: seq<VariantId>, n: nat)
    requires n <= |ks|
    ensures PriceRefusal(prices, ks, n) != Some(BookingTaken)
  {
    if n != 0 { PricingAllowsBookings(prices, ks, n - 1); }
  }

  // ---------- the condition is needed ----------

  /** Variant 7 in two currencies, the USD row returned first. */
  function TwoPrices(): Catalog { Catalog(map[7 := true], [Price(7, "USD", 900), Price(7, "EUR", 5)], {}, {3}) }

  /** One unit of it, observed at EUR 5. */
  function InEuros(): Operation {
    Operation(1, 1, 3, 1, 0, 0, None, [IntentLine(7, 1, "EUR", 5)], OpPending, None, None, None, None)
  }

  lemma {:induction false} TwoRowsFound()
    ensures RowsOf(TwoPrices().prices, 7) == TwoPrices().prices
  {
    var usd, prices := Price(7, "USD", 900), TwoPrices().prices;
    assert prices[..1] == [usd] && [usd][..0] == [];
    assert RowsOf([usd], 7) == [usd] by { assert RowsOf([], 7) == []; }
  }

  lemma {:induction false} TwoRowsPriced()
    ensures var prices := TwoPrices().prices;
            Target(prices, [7]) == Some("USD") && Unit(prices, 7, "USD") == 900 && PriceRefusal(prices, [7], 1).None?
  {
    TwoRowsFound();
    hide RowsOf;
    var prices := TwoPrices().prices;
    assert Find(prices, "USD") == Some(prices[0]);
    assert PriceRefusal(prices, [7], 0).None?;
  }

  lemma {:induction false} TwoRows()
    ensures var prices := TwoPrices().prices;
            && UniquePrices(prices) && LastAmount(prices, 7, "EUR") == Some(5)
            && Target(prices, [7]) == Some("USD") && Unit(prices, 7, "USD") == 900 && PriceRefusal(prices, [7], 1).None?
  {
    hide RowsOf, Find, Target, Unit, PriceRefusal;
    TwoRowsPriced();
  }

  lemma {:induction false} OneUnit()
    ensures var lines := IntentLines(InEuros().items);
            lines == [Line(7, 1)] && Keys(lines) == [7] && QtyOf(lines, 7) == 1 && ObservedValue(InEuros().items) == 5
  {
    var lines, items := IntentLines(InEuros().items), InEuros().items;
    assert lines == [Line(7, 1)] && lines[..0] == [] && items[..0] == [];
    assert Keys(lines) == [7];
    assert ObservedValue(items[..0]) == 0;
  }

  /** What the validator and the engine make of it. */
  lemma {:induction false} PassedAndRepriced(b: Books)
    requires b.stock == map[StockKey(7, Store(3)) := 4]
    ensures IntentRefusal(b.stock, TwoPrices(), InEuros()).None?
    ensures OrderRefusal(b, TwoPrices(), IntentOrder(InEuros())).None?
    ensures var order := NewOrder(TwoPrices(), IntentOrder(InEuros()));
            order.currency == "USD" && order.subtotalMinor == 900
  {
    TwoRows();
    OneUnit();
    var lines, prices := IntentLines(InEuros().items), TwoPrices().prices;
    hide Keys, QtyOf, RowsOf, Target, Unit, PriceRefusal, LastAmount, UniquePrices;
    assert LineRefusal(prices, InEuros().items, 0).None?;
    assert [7][..0] == [];
    assert ValueByKey([7], lines, UnitFn(prices, "USD")) == ValueByKey([], lines, UnitFn(prices, "USD")) + 900 * 1;
  }

  /** The empty books with four units in the store, and the operation waiting. */
  function Stocked(): Books { Books(map[StockKey(7, Store(3)) := 4], map[], map[], map[], map[], [], 0) }

  lemma {:induction false} InASituation()
    ensures Situation(Stocked(), TwoPrices(), map[1 := Session(1, 3, 1, true)], map[1 := Device(true, 9)],
                      map[0 := InEuros()], 0, Caller(1, Some(9), true))
  {
    TwoRows();
    hide UniquePrices;
  }

  /** Without the condition: validated at EUR 5, the intent is accepted and sold at USD 900, because the
      database returns the variant's USD row first. */
  lemma {:induction false} RepricedInOtherCurrency(now: Instant, clock: nat -> Instant)
    ensures var sessions, devices := map[1 := Session(1, 3, 1, true)], map[1 := Device(true, 9)];
            var ops, caller := map[0 := InEuros()], Caller(1, Some(9), true);
            var out := SyncOperation(Stocked(), TwoPrices(), sessions, devices, ops, 0, caller, now, clock);
            && Situation(Stocked(), TwoPrices(), sessions, devices, ops, 0, caller)
            && IntentRefusal(Stocked().stock, TwoPrices(), InEuros()).None?
            && out.result == Ok(SyncResult(OpAccepted, None, Some(0), Some(1))) && 0 in out.books.orders
            && out.books.orders[0].currency == "USD" && out.books.orders[0].subtotalMinor == 900
            && ObservedValue(InEuros().items) == 5 && !SoldAsObserved(out, InEuros())
  {
    var sessions, devices := map[1 := Session(1, 3, 1, true)], map[1 := Device(true, 9)];
    var ops, caller := map[0 := InEuros()], Caller(1, Some(9), true);
    assert ops[0] == InEuros() && InEuros().items != [];
    hide *;
    InASituation();
    PassedAndRepriced(Stocked());
    SoldOutcome(Stocked(), TwoPrices(), sessions, devices, ops, 0, caller, now, clock);
    RepricedOutcome(ops, now);
  }

  lemma {:induction false} RepricedOutcome(ops: map<OpId, Operation>, now: Instant)
    requires 0 in ops && ops[0] == InEuros()
    ensures var out := SaleOf(Stocked(), TwoPrices(), ops, 0, now);
            && out.result == Ok(SyncResult(OpAccepted, None, Some(0), Some(1))) && 0 in out.books.orders
            && out.books.orders[0].currency == "USD" && out.books.orders[0].subtotalMinor == 900
            && ObservedValue(InEuros().items) == 5 && !SoldAsObserved(out, InEuros())
  {
    hide IntentRefusal, OrderRefusal, NewOrder, ObservedValue, SoldBooks, TwoPrices, Stocked, InEuros, SoldAsObserved;
    NothingYet();
    PassedAndRepriced(Stocked());
    OneUnit();
    SoldRow(Stocked(), TwoPrices(), InEuros());
    NotObserved(SaleOf(Stocked(), TwoPrices(), ops, 0, now), InEuros(), 0);
  }

  lemma {:induction false} NothingYet()
    ensures Stocked().nextId == 0 && Stocked().stock == map[StockKey(7, Store(3)) := 4]
  {
  }

  /** The order row of a sale is the new order, paid. */
  lemma {:induction false} SoldRow(b: Books, cat: Catalog, op: Operation)
    ensures var orders := SoldBooks(b, cat, op).orders;
            b.nextId in orders && orders[b.nextId] == NewOrder(cat, IntentOrder(op)).(status := OrderPaid)
  {
    hide NewOrder, Charge, Keys, IntentOrder;
  }

  lemma {:induction false} NotObserved(out: SyncOutcome, op: Operation, o: OrderId)
    requires out.result.Ok? && out.result.value.orderId == Some(o) && o in out.books.orders
    requires out.books.orders[o].subtotalMinor != ObservedValue(op.items)
    ensures !SoldAsObserved(out, op)
  {
    hide ObservedValue;
  }
}
