/** Who may sync an operation, what the verdict on an intent means, and what each sync call leaves behind. */
module SyncOutcomes {
  import opened Schema
  import opened Lines
  import opened Ledger
  import opened Database
  import opened Orders
  import opened Platform
  import opened PosFlows
  import opened OrderPayments
  import opened PosTheorems
  import opened OrderOutcomes

  // ---------- authority ----------

  /** Only an entitled caller gets a result or changes a row. */
  lemma {:induction false} OnlyTheEntitledSync(b: Books, cat: Catalog, sessions: map<SessionId, Session>,
                                               devices: map<DeviceId, Device>, ops: map<OpId, Operation>, id: OpId,
                                               caller: Caller, now: Instant, clock: nat -> Instant)
    ensures var out := SyncOperation(b, cat, sessions, devices, ops, id, caller, now, clock);
            out.result.Ok? || out.books != b || out.ops != ops ==> id in ops && Entitled(devices, ops[id], caller)
  {
    hide IntentRefusal, Execute, AfterPolling;
  }

  /** What a caller who is not entitled is told: by the first condition that fails. */
  lemma {:induction false} RefusedCallersAreTold(b: Books, cat: Catalog, sessions: map<SessionId, Session>,
                                                 devices: map<DeviceId, Device>, ops: map<OpId, Operation>, id: OpId,
                                                 caller: Caller, now: Instant, clock: nat -> Instant)
    ensures var out := SyncOperation(b, cat, sessions, devices, ops, id, caller, now, clock);
            var cred := caller.credential;
            && (id !in ops ==> out.result == Err(OperationNotFound))
            && (id in ops ==>
                  var op, d := ops[id], ops[id].deviceId;
                  && (cred.None? ==> out.result == Err(Unauthorized))
                  && (cred.Some? && d !in devices ==> out.result == Err(DeviceNotFound))
                  && (cred.Some? && d in devices ==>
                        var device := devices[d];
                        && (!device.active ==> out.result == Err(DeviceNotActive))
                        && (device.active && cred.value != device.credential ==> out.result == Err(Unauthorized))
                        && (device.active && cred.value == device.credential ==>
                              && (op.userId != caller.userId ==> out.result == Err(OperationNotFound))
                              && (op.userId == caller.userId && !caller.mayCreate ==> out.result == Err(Forbidden)))))
  {
    hide IntentRefusal, Execute, AfterPolling;
  }

  /** An entitled caller gets none of these errors, except that the engine may find the session's device
      inactive when that is another device than the operation's. */
  lemma {:induction false} EntitledCallersAreServed(b: Books, cat: Catalog, sessions: map<SessionId, Session>,
                                                    devices: map<DeviceId, Device>, ops: map<OpId, Operation>, id: OpId,
                                                    caller: Caller, now: Instant, clock: nat -> Instant)
    requires id in ops && Entitled(devices, ops[id], caller)
    ensures var out := SyncOperation(b, cat, sessions, devices, ops, id, caller, now, clock);
            && out.result != Err(OperationNotFound) && out.result != Err(DeviceNotFound)
            && out.result != Err(Unauthorized) && out.result != Err(Forbidden)
            && (out.result == Err(DeviceNotActive) ==>
                  ops[id].sessionId in sessions && sessions[ops[id].sessionId].deviceId != ops[id].deviceId)
  {
    var op := ops[id];
    hide SyncOperation, IntentRefusal, CreateSale;
    if op.status != OpPending {
      SettledIsAnswered(b, cat, sessions, devices, ops, id, caller, now, clock);
    } else if IntentRefusal(b.stock, cat, op).Some? {
      RefusedIsRejected(b, cat, sessions, devices, ops, id, caller, now, clock);
    } else if op.processedAt.Some? {
      HeldClaimIsLeft(b, cat, sessions, devices, ops, id, caller, now, clock);
    } else {
      SaleErrors(b, cat, sessions, devices, RequestOf(op));
      ExecutableIsSold(b, cat, sessions, devices, ops, id, caller, now, clock);
    }
  }

  /** The engine's errors are not those of the authority check. */
  lemma {:induction false} SaleErrors(b: Books, cat: Catalog, sessions: map<SessionId, Session>,
                                      devices: map<DeviceId, Device>, req: SaleRequest)
    ensures var r := CreateSale(b, cat, sessions, devices, req, true).result;
            r.Err? ==>
              && r.error != OperationNotFound && r.error != DeviceNotFound
              && r.error != Unauthorized && r.error != Forbidden
              && (r.error == DeviceNotActive ==>
                    && req.sessionId in sessions && sessions[req.sessionId].deviceId in devices
                    && !devices[sessions[req.sessionId].deviceId].active)
  {
    hide PlaceOrder, PayAndRecord, ContextRefusal;
    ContextErrors(sessions, devices, req);
    if ContextRefusal(sessions, devices, req, true).None? {
      var session := sessions[req.sessionId];
      var dto, options := CreateOrderDto(req.items, req.customerId, req.bookingId),
                          CreateOrderOptions(Store(session.storeId), None);
      OrderErrors(b, cat, req.userId, dto, options);
      var order := PlaceOrder(b, cat, req.userId, dto, options);
      if order.Committed? { PayErrors(order.books, req, session, order.id); }
    }
  }

  lemma {:induction false} ContextErrors(sessions: map<SessionId, Session>, devices: map<DeviceId, Device>,
                                         req: SaleRequest)
    ensures var e := ContextRefusal(sessions, devices, req, true);
            && (e.Some? ==> e.value in {OfflineNotCash, SessionNotFound, SessionNotOpen, DeviceNotActive})
            && (e.None? ==> req.sessionId in sessions)
            && (e == Some(DeviceNotActive) ==>
                  && req.sessionId in sessions && sessions[req.sessionId].deviceId in devices
                  && !devices[sessions[req.sessionId].deviceId].active)
  {
  }

  lemma {:induction false} PriceErrors(prices: seq<Price>, ks: seq<VariantId>, n: nat)
    requires n <= |ks|
    ensures PriceRefusal(prices, ks, n).Some? ==> PriceRefusal(prices, ks, n).value in {PriceNotFound, CurrencyMismatch}
  {
    if n != 0 { PriceErrors(prices, ks, n - 1); }
  }

  lemma {:induction false} OrderErrors(b: Books, cat: Catalog, userId: UserId, dto: CreateOrderDto,
                                       options: CreateOrderOptions)
    ensures var r := PlaceOrder(b, cat, userId, dto, options);
            r.Aborted? ==> r.error in {CartEmpty, CustomerNotFound, VariantNotFound, VariantNotActive, PriceNotFound,
                                       CurrencyMismatch, InsufficientStock, BookingTaken}
  {
    hide FirstOpenCart, Covers, NewOrder, Charge, Keys, PriceRefusal;
    forall lines: seq<Line>
      ensures var e := PriceRefusal(cat.prices, Keys(lines), |Keys(lines)|);
              e.Some? ==> e.value in {PriceNotFound, CurrencyMismatch}
    {
      PriceErrors(cat.prices, Keys(lines), |Keys(lines)|);
    }
  }

  lemma {:induction false} PayErrors(b: Books, req: SaleRequest, session: Session, o: OrderId)
    ensures var r := PayAndRecord(b, req, session, o).result;
            r.Err? ==> r.error in {OrderNotFound, OrderNotPending, CapturedExists, PaymentNotFound, FailedCannotCapture,
                                   UniqueViolation}
  {
    hide HasCaptured;
  }

  // ---------- verdicts ----------

  /** Row `k` is the last of the variant in the currency, with this amount. */
  predicate LastRow(prices: seq<Price>, v: VariantId, c: Currency, amount: int, k: nat) {
    && k < |prices| && prices[k] == Price(v, c, amount)
    && forall j :: k < j < |prices| ==> prices[j].variantId != v || prices[j].currency != c
  }

  /** The variant's current price in the currency: that of its last row. */
  ghost predicate CurrentPrice(prices: seq<Price>, v: VariantId, c: Currency, amount: int) {
    exists k :: LastRow(prices, v, c, amount, k)
  }

  lemma {:induction false} LastAmountIs(prices: seq<Price>, v: VariantId, c: Currency, amount: int)
    ensures LastAmount(prices, v, c) == Some(amount) <==> CurrentPrice(prices, v, c, amount)
  {
    if prices != [] {
      var n := |prices| - 1;
      if prices[n].variantId == v && prices[n].currency == c {
        assert prices[n] == Price(v, c, prices[n].amountMinor);
        assert LastRow(prices, v, c, prices[n].amountMinor, n);
      } else {
        LastAmountIs(prices[..n], v, c, amount);
        forall k: nat
          ensures LastRow(prices, v, c, amount, k) <==> LastRow(prices[..n], v, c, amount, k)
        {
          OtherRow(prices, v, c, amount, k);
        }
        hide LastRow;
      }
    }
  }

  lemma {:induction false} OtherRow(prices: seq<Price>, v: VariantId, c: Currency, amount: int, k: nat)
    requires prices != []
    requires prices[|prices| - 1].variantId != v || prices[|prices| - 1].currency != c
    ensures LastRow(prices, v, c, amount, k) <==> LastRow(prices[..|prices| - 1], v, c, amount, k)
  {
  }

  /** The line is in the intent's one currency, at the variant's current price. */
  ghost predicate AsObserved(prices: seq<Price>, items: seq<IntentLine>, i: nat)
    requires i < |items|
  {
    items[i].currency == items[0].currency
    && CurrentPrice(prices, items[i].variantId, items[i].currency, items[i].observedUnitAmountMinor)
  }

  /** The line that decides: all before it are as observed, and it fails with this code. */
  ghost predicate FirstBad(prices: seq<Price>, items: seq<IntentLine>, i: nat, code: Code)
    requires i < |items|
  {
    && (forall j :: 0 <= j < i ==> AsObserved(prices, items, j))
    && match code
       case CURRENCY_MIX => items[i].currency != items[0].currency
       case PRICE_NOT_FOUND =>
         items[i].currency == items[0].currency
         && forall amount :: !CurrentPrice(prices, items[i].variantId, items[i].currency, amount)
       case PRICE_CHANGED =>
         items[i].currency == items[0].currency
         && exists amount :: amount != items[i].observedUnitAmountMinor
                             && CurrentPrice(prices, items[i].variantId, items[i].currency, amount)
       case _ => false
  }

  lemma {:induction false} LineVerdict(prices: seq<Price>, items: seq<IntentLine>, i: nat)
    requires i < |items|
    ensures var line := items[i];
            var amount := LastAmount(prices, line.variantId, line.currency);
            && (AsObserved(prices, items, i)
                <==> line.currency == items[0].currency && amount == Some(line.observedUnitAmountMinor))
            && forall a :: CurrentPrice(prices, line.variantId, line.currency, a) <==> amount == Some(a)
  {
    hide CurrentPrice, LastAmount;
    forall a
      ensures LastAmount(prices, items[i].variantId, items[i].currency) == Some(a)
              <==> CurrentPrice(prices, items[i].variantId, items[i].currency, a)
    {
      LastAmountIs(prices, items[i].variantId, items[i].currency, a);
    }
  }

  lemma {:induction false} BadIsBad(prices: seq<Price>, items: seq<IntentLine>, i: nat, code: Code)
    requires i < |items| && FirstBad(prices, items, i, code)
    ensures !AsObserved(prices, items, i)
  {
    LineVerdict(prices, items, i);
    hide CurrentPrice, LastAmount;
  }

  /** After lines that are all as observed the next one decides by itself. */
  lemma {:induction false} NextLine(prices: seq<Price>, items: seq<IntentLine>, n: nat)
    requires n < |items| && LineRefusal(prices, items, n).None?
    requires forall i :: 0 <= i < n ==> AsObserved(prices, items, i)
    ensures LineRefusal(prices, items, n + 1).None? <==> AsObserved(prices, items, n)
    ensures forall code :: LineRefusal(prices, items, n + 1) == Some(code) <==> FirstBad(prices, items, n, code)
  {
    LineVerdict(prices, items, n);
    var line := items[n];
    var amount := LastAmount(prices, line.variantId, line.currency);
    assert amount.Some? ==> CurrentPrice(prices, line.variantId, line.currency, amount.value);
    assert amount.None? ==> forall a :: !CurrentPrice(prices, line.variantId, line.currency, a);
    hide CurrentPrice, LastAmount;
  }

  lemma {:induction false} LinesVerdict(prices: seq<Price>, items: seq<IntentLine>, n: nat)
    requires n <= |items|
    ensures LineRefusal(prices, items, n).None? <==> forall i :: 0 <= i < n ==> AsObserved(prices, items, i)
    ensures forall code :: LineRefusal(prices, items, n) == Some(code)
                           <==> exists i :: 0 <= i < n && FirstBad(prices, items, i, code)
  {
    if n != 0 {
      LinesVerdict(prices, items, n - 1);
      var before := LineRefusal(prices, items, n - 1);
      assert before.Some? ==> LineRefusal(prices, items, n) == before;
      if before.None? { NextLine(prices, items, n - 1); }
      hide LineRefusal, AsObserved;
      forall i, code | 0 <= i < n && FirstBad(prices, items, i, code)
        ensures !AsObserved(prices, items, i) && forall j :: 0 <= j < i ==> AsObserved(prices, items, j)
      {
        BadIsBad(prices, items, i, code);
      }
      hide FirstBad;
    }
  }

  /** An intent is executable exactly when it is not empty, every variant is active, every line is as the device
      observed it, and the store's pool covers the totals. */
  lemma {:induction false} ExecutableIff(stock: map<StockKey, int>, cat: Catalog, op: Operation)
    ensures IntentRefusal(stock, cat, op).None?
            <==> && op.items != [] && AllActive(cat, IntentLines(op.items))
                 && (forall i :: 0 <= i < |op.items| ==> AsObserved(cat.prices, op.items, i))
                 && InPool(stock, Store(op.storeId), IntentLines(op.items))
  {
    var lines := IntentLines(op.items);
    KeysAreLines(cat, lines);
    CoversIs(stock, Store(op.storeId), lines);
    LinesVerdict(cat.prices, op.items, |op.items|);
    hide AsObserved, InPool, Covers, Keys, QtyOf, LineRefusal, FirstBad, AllKnown, AllActive;
  }

  /** And otherwise the code says which of these fails first, line by line for the prices. */
  lemma {:induction false} VerdictMeans(stock: map<StockKey, int>, cat: Catalog, op: Operation, code: Code)
    ensures var lines := IntentLines(op.items);
            IntentRefusal(stock, cat, op) == Some(code)
            <==> match code
                 case EMPTY_INTENT => op.items == []
                 case VARIANT_NOT_FOUND => !AllKnown(cat, lines)
                 case VARIANT_NOT_ACTIVE => op.items != [] && AllKnown(cat, lines) && !AllActive(cat, lines)
                 case OUT_OF_STOCK =>
                   && op.items != [] && AllActive(cat, lines)
                   && (forall i :: 0 <= i < |op.items| ==> AsObserved(cat.prices, op.items, i))
                   && !InPool(stock, Store(op.storeId), lines)
                 case _ =>
                   AllActive(cat, lines) && exists i :: 0 <= i < |op.items| && FirstBad(cat.prices, op.items, i, code)
  {
    var lines := IntentLines(op.items);
    KeysAreLines(cat, lines);
    CoversIs(stock, Store(op.storeId), lines);
    LinesVerdict(cat.prices, op.items, |op.items|);
    OnlyLineCodes(cat.prices, op.items, code);
    ActiveAreKnown(cat, lines);
    hide AsObserved, InPool, Covers, Keys, QtyOf, LineRefusal, FirstBad, AllKnown, AllActive;
  }

  lemma {:induction false} ActiveAreKnown(cat: Catalog, lines: seq<Line>)
    ensures AllActive(cat, lines) ==> AllKnown(cat, lines)
    ensures !AllKnown(cat, lines) ==> lines != []
  {
  }

  lemma {:induction false} OnlyLineCodes(prices: seq<Price>, items: seq<IntentLine>, code: Code)
    ensures (exists i :: 0 <= i < |items| && FirstBad(prices, items, i, code)) ==>
              code in {CURRENCY_MIX, PRICE_NOT_FOUND, PRICE_CHANGED}
  {
    hide AsObserved, CurrentPrice;
  }

  // ---------- the engine ----------

  /** What a sale needs before anything is written. */
  predicate SaleAllowed(sessions: map<SessionId, Session>, devices: map<DeviceId, Device>, req: SaleRequest,
                        offline: bool)
  {
    && (offline ==> req.tender == Cash)
    && req.sessionId in sessions && (sessions[req.sessionId].open || req.allowClosed)
    && sessions[req.sessionId].deviceId in devices && devices[sessions[req.sessionId].deviceId].active
    && sessions[req.sessionId].userId == req.userId
  }

  /** A sale that is not allowed writes nothing and says what is missing. */
  lemma {:induction false} SaleRefused(b: Books, cat: Catalog, sessions: map<SessionId, Session>,
                                       devices: map<DeviceId, Device>, req: SaleRequest, offline: bool)
    requires !SaleAllowed(sessions, devices, req, offline)
    ensures var out, id := CreateSale(b, cat, sessions, devices, req, offline), req.sessionId;
            && out.books == b
            && out.result == Err(if offline && req.tender == Card then OfflineNotCash
                                 else if id !in sessions then SessionNotFound
                                 else if !sessions[id].open && !req.allowClosed then SessionNotOpen
                                 else if sessions[id].deviceId in devices && !devices[sessions[id].deviceId].active then
                                   DeviceNotActive
                                 else SessionNotFound)
  {
    hide PlaceOrder, PayAndRecord;
  }

  /** Every recorded sale refers to an order and a payment. */
  ghost predicate SalesRefer(b: Books) {
    forall o :: o in b.sales ==> o in b.orders && b.sales[o].paymentId in b.payments
  }

  /** An allowed sale stands or falls with its order. A cash sale leaves the order paid and its payment captured, a
      card sale leaves the order pending and its payment processing; either way the sale is recorded with the
      session's device, store and cashier. */
  lemma {:induction false} SaleLeaves(b: Books, cat: Catalog, sessions: map<SessionId, Session>,
                                      devices: map<DeviceId, Device>, req: SaleRequest, offline: bool)
    requires SaleAllowed(sessions, devices, req, offline) && Sound(b) && SalesRefer(b)
    ensures var out, session := CreateSale(b, cat, sessions, devices, req, offline), sessions[req.sessionId];
            var placed := PlaceOrder(b, cat, req.userId, CreateOrderDto(req.items, req.customerId, req.bookingId),
                                     CreateOrderOptions(Store(session.storeId), None));
            && (placed.Aborted? ==> out == SaleOutcome(b, Err(placed.error)))
            && (placed.Committed? ==>
                  var o, p, b1 := placed.id, placed.books.nextId, placed.books;
                  && o in b1.orders && out.result == Ok((o, p))
                  && SoldRows(b1, out.books, o, p, req.tender)
                  && out.books.sales == b1.sales[o := Sale(p, req.sessionId, session.deviceId, session.storeId,
                                                           session.userId)])
  {
    var session := sessions[req.sessionId];
    var dto, options := CreateOrderDto(req.items, req.customerId, req.bookingId),
                        CreateOrderOptions(Store(session.storeId), None);
    var placed := PlaceOrder(b, cat, req.userId, dto, options);
    FreshlyPlaced(b, cat, req.userId, dto, options);
    hide PlaceOrder, SoldRows, PayAndRecord, Sound, SalesRefer;
    if placed.Committed? { FreshIsPaid(placed.books, req, session, placed.id); }
  }

  /** Of the orders and payments exactly these two are written. */
  ghost predicate SoldRows(b: Books, b': Books, o: OrderId, p: PaymentId, tender: Method)
    requires o in b.orders
  {
    var row := b.orders[o];
    && b'.orders == b.orders[o := row.(status := if tender == Cash then OrderPaid else OrderPending)]
    && b'.payments == b.payments[p := Payment(o, if tender == Cash then Captured else Processing, tender,
                                              row.subtotalMinor, row.currency)]
    && b' == b.(orders := b'.orders, payments := b'.payments, sales := b'.sales, nextId := p + 1)
  }

  /** A new order is pending, and nobody has paid or recorded it. */
  ghost predicate Fresh(b: Books, o: OrderId) {
    && o in b.orders && b.orders[o].status == OrderPending
    && (forall p :: p in b.payments ==> b.payments[p].orderId != o && p < b.nextId)
    && o !in b.sales && forall x :: x in b.sales ==> b.sales[x].paymentId < b.nextId
  }

  lemma {:induction false} FreshlyPlaced(b: Books, cat: Catalog, u: UserId, dto: CreateOrderDto,
                                         options: CreateOrderOptions)
    requires Sound(b) && SalesRefer(b)
    ensures var placed := PlaceOrder(b, cat, u, dto, options);
            placed.Committed? ==> Fresh(placed.books, placed.id)
  {
    var placed := PlaceOrder(b, cat, u, dto, options);
    forall p | p in b.payments
      ensures b.payments[p].orderId != b.nextId && p < b.nextId
    {
      assert PaymentMatches(b, p);
    }
    hide Keys, Charge, CatalogRefusal, FirstOpenCart, Covers, ConvertCart, OrderSound, PaymentMatches, LinkBooking,
         ItemsFor, HasCaptured;
  }

  lemma {:induction false} FreshIsPaid(b: Books, req: SaleRequest, session: Session, o: OrderId)
    requires Fresh(b, o)
    ensures var out := PayAndRecord(b, req, session, o);
            && out.result == Ok((o, b.nextId)) && SoldRows(b, out.books, o, b.nextId, req.tender)
            && out.books.sales == b.sales[o := Sale(b.nextId, req.sessionId, session.deviceId, session.storeId,
                                                    session.userId)]
  {
    if req.tender == Cash {
      FreshOrderIsSold(b, req, session, o);
      hide PayAndRecord;
    } else {
      assert b.orders[o := b.orders[o].(status := OrderPending)] == b.orders;
    }
  }

  // ---------- what each sync call leaves ----------

  /** A settled operation is answered from its row, and nothing changes. */
  lemma {:induction false} SettledIsAnswered(b: Books, cat: Catalog, sessions: map<SessionId, Session>,
                                             devices: map<DeviceId, Device>, ops: map<OpId, Operation>, id: OpId,
                                             caller: Caller, now: Instant, clock: nat -> Instant)
    requires id in ops && Entitled(devices, ops[id], caller) && ops[id].status != OpPending
    ensures var op := ops[id];
            SyncOperation(b, cat, sessions, devices, ops, id, caller, now, clock)
            == SyncOutcome(b, ops, Ok(SyncResult(op.status, op.resultCode, op.resultOrderId, op.resultPaymentId)))
  {
    hide IntentRefusal, Execute, AfterPolling;
  }

  /** A pending operation whose intent is refused is rejected with that code, and only its verdict is written. */
  lemma {:induction false} RefusedIsRejected(b: Books, cat: Catalog, sessions: map<SessionId, Session>,
                                             devices: map<DeviceId, Device>, ops: map<OpId, Operation>, id: OpId,
                                             caller: Caller, now: Instant, clock: nat -> Instant)
    requires id in ops && Entitled(devices, ops[id], caller) && ops[id].status == OpPending
    requires IntentRefusal(b.stock, cat, ops[id]).Some?
    ensures var op, code := ops[id], IntentRefusal(b.stock, cat, ops[id]);
            SyncOperation(b, cat, sessions, devices, ops, id, caller, now, clock)
            == SyncOutcome(b, ops[id := op.(status := OpRejected, resultCode := code)],
                           Ok(SyncResult(OpRejected, code, op.resultOrderId, op.resultPaymentId)))
  {
    hide IntentRefusal, Execute, AfterPolling;
  }

  /** A claim that somebody holds is not taken over: the caller is told to come back, and the claim is released
      exactly when one of the two hundred polls finds it more than five minutes old. */
  lemma {:induction false} HeldClaimIsLeft(b: Books, cat: Catalog, sessions: map<SessionId, Session>,
                                           devices: map<DeviceId, Device>, ops: map<OpId, Operation>, id: OpId,
                                           caller: Caller, now: Instant, clock: nat -> Instant)
    requires id in ops && Entitled(devices, ops[id], caller) && ops[id].status == OpPending
    requires IntentRefusal(b.stock, cat, ops[id]).None? && ops[id].processedAt.Some?
    ensures var out := SyncOperation(b, cat, sessions, devices, ops, id, caller, now, clock);
            var stale := exists i: nat :: i < 200 && clock(i) - ops[id].processedAt.value > 5 * 60 * 1000;
            && out.result == Err(SyncInProgress) && out.books == b
            && (stale ==> out.ops == ops[id := ops[id].(processedAt := None)])
            && (!stale ==> out.ops == ops)
  {
    assert forall t :: Stale(ops[id], t) <==> t - ops[id].processedAt.value > 5 * 60 * 1000;
    hide IntentRefusal, Execute, Stale;
  }

  /** An unclaimed, executable operation is claimed and sold to its recorded cashier and session, for cash and
      without a booking. A sale settles it as accepted; a shortage of stock rejects it; any other failure leaves it
      pending under the claim. */
  lemma {:induction false} ExecutableIsSold(b: Books, cat: Catalog, sessions: map<SessionId, Session>,
                                            devices: map<DeviceId, Device>, ops: map<OpId, Operation>, id: OpId,
                                            caller: Caller, now: Instant, clock: nat -> Instant)
    requires id in ops && Entitled(devices, ops[id], caller) && ops[id].status == OpPending
    requires IntentRefusal(b.stock, cat, ops[id]).None? && ops[id].processedAt.None?
    ensures var out, op := SyncOperation(b, cat, sessions, devices, ops, id, caller, now, clock), ops[id];
            var sale := CreateSale(b, cat, sessions, devices,
                                   SaleRequest(op.userId, op.sessionId, IntentLines(op.items), op.customerId, None,
                                               Cash, true), true);
            var claimed := op.(processedAt := Some(now));
            && out.books == sale.books
            && match sale.result
               case Ok((o, p)) =>
                 && out.result == Ok(SyncResult(OpAccepted, None, Some(o), Some(p)))
                 && out.ops == ops[id := claimed.(status := OpAccepted, resultCode := None, resultOrderId := Some(o),
                                                  resultPaymentId := Some(p))]
               case Err(e) =>
                 if e == InsufficientStock then
                   && out.result == Ok(SyncResult(OpRejected, Some(OUT_OF_STOCK), op.resultOrderId, op.resultPaymentId))
                   && out.ops == ops[id := claimed.(status := OpRejected, resultCode := Some(OUT_OF_STOCK))]
                 else out.result == Err(e) && out.ops == ops[id := claimed]
  {
    hide IntentRefusal, CreateSale, AfterPolling, IntentLines;
  }
}
