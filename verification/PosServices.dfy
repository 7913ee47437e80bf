/** PosSaleService and PosSyncService, in the steps the services take. */
module PosServices {
  import opened Schema
  import opened Lines
  import opened Ledger
  import opened Database
  import opened Orders
  import opened Payments
  import opened Platform
  import opened PlatformSafety
  import opened PosFlows

  function Lookup(priceMap: map<VariantId, map<Currency, int>>, v: VariantId, c: Currency): Option<int> {
    if v in priceMap && c in priceMap[v] then Some(priceMap[v][c]) else None
  }

  /** A payment requested for an order and captured at once pays that order. */
  lemma {:induction false} CapturedAtOnce(b: Books, o: OrderId, tender: Method)
    requires Ledger.CreatePayment(b, o, tender).Committed?
    ensures var payment := Ledger.CreatePayment(b, o, tender);
            var capture := Ledger.CapturePayment(payment.books, payment.id);
            capture.Committed? ==> PaidBy(capture.books, o, payment.id)
  {
  }

  class PosSaleService {
    const prisma: Prisma
    const orderService: OrderService
    const paymentService: PaymentService

    constructor (prisma: Prisma, orderService: OrderService, paymentService: PaymentService)
      ensures this.prisma == prisma && this.orderService == orderService && this.paymentService == paymentService
    {
      this.prisma, this.orderService, this.paymentService := prisma, orderService, paymentService;
    }

    method CreateSale(req: SaleRequest, offline: bool) returns (r: Result<(OrderId, PaymentId)>)
      requires orderService.prisma == prisma && paymentService.prisma == prisma
      modifies prisma`stock, prisma`orders, prisma`payments, prisma`sales, prisma`bookings, prisma`carts, prisma`nextId
      ensures var sale := PosFlows.CreateSale(old(prisma.View()), prisma.catalog, prisma.sessions, prisma.devices, req,
                                              offline);
              prisma.View() == sale.books && r == sale.result
      ensures r.Ok? && req.tender == Cash ==> PaidBy(prisma.View(), r.value.0, r.value.1)
      ensures r.Ok? ==> r.value.0 in prisma.sales && prisma.sales[r.value.0].paymentId == r.value.1
                        && prisma.sales[r.value.0].sessionId == req.sessionId
                        && prisma.sales[r.value.0].userId == req.userId
    {
      hide PlaceOrder, Ledger.CreateOrder, Ledger.CreatePayment, Ledger.CapturePayment;
      if offline && req.tender != Cash {
        return Err(OfflineNotCash);
      }
      if req.sessionId !in prisma.sessions {
        return Err(SessionNotFound);
      }
      var session := prisma.sessions[req.sessionId];
      if !session.open && !req.allowClosed {
        return Err(SessionNotOpen);
      }
      if session.deviceId !in prisma.devices {
        return Err(SessionNotFound);
      }
      if !prisma.devices[session.deviceId].active {
        return Err(DeviceNotActive);
      }
      if session.userId != req.userId {
        return Err(SessionNotFound);
      }
      var order := orderService.CreateOrder(req.userId, CreateOrderDto(req.items, req.customerId, req.bookingId),
                                            CreateOrderOptions(Store(session.storeId), None));
      if order.Err? {
        return Err(order.error);
      }
      r := PayAndRecord(req, session, order.value);
    }

    /** The engine after the order: payment, cash capture, provenance row. */
    method PayAndRecord(req: SaleRequest, session: Session, o: OrderId) returns (r: Result<(OrderId, PaymentId)>)
      requires paymentService.prisma == prisma
      modifies prisma`stock, prisma`orders, prisma`payments, prisma`sales, prisma`bookings, prisma`carts, prisma`nextId
      ensures var sale := PosFlows.PayAndRecord(old(prisma.View()), req, session, o);
              prisma.View() == sale.books && r == sale.result
      ensures r.Ok? ==> r.value.0 == o && o in prisma.sales
                        && prisma.sales[o] == Sale(r.value.1, req.sessionId, session.deviceId, session.storeId,
                                                   session.userId)
      ensures r.Ok? && req.tender == Cash ==> PaidBy(prisma.View(), o, r.value.1)
    {
      hide Ledger.CreatePayment, Ledger.CapturePayment;
      var payment := paymentService.CreatePayment(o, req.tender);
      if payment.Err? {
        return Err(payment.error);
      }
      CapturedAtOnce(old(prisma.View()), o, req.tender);
      if req.tender == Cash {
        var captured := paymentService.CapturePayment(payment.value);
        if captured.Err? {
          return Err(captured.error);
        }
      }
      if o in prisma.sales || exists x :: x in prisma.sales && prisma.sales[x].paymentId == payment.value {
        return Err(UniqueViolation);
      }
      prisma.sales := prisma.sales[o := Sale(payment.value, req.sessionId, session.deviceId, session.storeId,
                                             session.userId)];
      return Ok((o, payment.value));
    }
  }

  class PosSyncService {
    const prisma: Prisma
    const saleService: PosSaleService

    constructor (prisma: Prisma, saleService: PosSaleService)
      ensures this.prisma == prisma && this.saleService == saleService
    {
      this.prisma, this.saleService := prisma, saleService;
    }

    /** Builds variant -> currency -> amount from the price rows. */
    method MapPrices(prices: seq<Price>) returns (priceMap: map<VariantId, map<Currency, int>>)
      ensures forall v, c :: Lookup(priceMap, v, c) == LastAmount(prices, v, c)
    {
      priceMap := map[];
      for i := 0 to |prices|
        invariant forall v, c :: Lookup(priceMap, v, c) == LastAmount(prices[..i], v, c)
      {
        var p := prices[i];
        assert prices[..i + 1][..i] == prices[..i];
        var byCur := if p.variantId in priceMap then priceMap[p.variantId] else map[];
        priceMap := priceMap[p.variantId := byCur[p.currency := p.amountMinor]];
      }
      assert prices[..|prices|] == prices;
    }

    /** Checks the lines one by one against the current prices. */
    method CheckLines(prices: seq<Price>, items: seq<IntentLine>) returns (code: Option<Code>)
      ensures code == LineRefusal(prices, items, |items|)
    {
      var priceMap := MapPrices(prices);
      var targetCurrency: Option<Currency> := None;
      code := None;
      for i := 0 to |items|
        invariant code == None && LineRefusal(prices, items, i) == None
        invariant targetCurrency == if i == 0 then None else Some(items[0].currency)
      {
        var line := items[i];
        if targetCurrency.None? {
          targetCurrency := Some(line.currency);
        }
        var found := line.variantId in priceMap && line.currency in priceMap[line.variantId];
        assert Lookup(priceMap, line.variantId, line.currency) == LastAmount(prices, line.variantId, line.currency);
        if line.currency != targetCurrency.value {
          code := Some(CURRENCY_MIX);
        } else if !found {
          code := Some(PRICE_NOT_FOUND);
        } else if priceMap[line.variantId][line.currency] != line.observedUnitAmountMinor {
          code := Some(PRICE_CHANGED);
        }
        if code.Some? {
          assert LineRefusal(prices, items, i + 1) == code;
          LineRefusalSticks(prices, items, i + 1);
          return;
        }
      }
    }

    method ValidateIntent(op: Operation) returns (code: Option<Code>)
      requires saleService.orderService.prisma == prisma
      ensures code == IntentRefusal(prisma.stock, prisma.catalog, op)
    {
      if op.items == [] {
        return Some(EMPTY_INTENT);
      }
      var lines := IntentLines(op.items);
      var ks, aggregated := saleService.orderService.AggregateItems(lines);
      if exists v :: v in ks && v !in prisma.catalog.variants {
        return Some(VARIANT_NOT_FOUND);
      }
      if exists v :: v in ks && !prisma.catalog.variants[v] {
        return Some(VARIANT_NOT_ACTIVE);
      }
      hide QtyOf, LineRefusal, Covers;
      code := CheckLines(prisma.catalog.prices, op.items);
      if code.Some? {
        return;
      }
      var covered := CheckStock(op.storeId, lines, ks, aggregated);
      code := if covered then None else Some(OUT_OF_STOCK);
    }

    /** The store's pool covers every aggregated quantity. */
    method CheckStock(storeId: StoreId, lines: seq<Line>, ks: seq<VariantId>, aggregated: map<VariantId, Quantity>)
      returns (covered: bool)
      requires forall v :: v in ks ==> v in aggregated && aggregated[v] == QtyOf(lines, v)
      ensures covered == Covers(prisma.stock, Store(storeId), lines, ks)
    {
      for i := 0 to |ks|
        invariant Covers(prisma.stock, Store(storeId), lines, ks[..i])
      {
        var k := StockKey(ks[i], Store(storeId));
        assert ks[i] in ks;
        if k !in prisma.stock || prisma.stock[k] < aggregated[ks[i]] {
          return false;
        }
        assert ks[..i + 1] == ks[..i] + [ks[i]];
      }
      assert ks[..|ks|] == ks;
      return true;
    }

    /** Polls the operation row: a settled one is the answer, a stale claim is released for the next
        attempt, and otherwise polling runs out. */
    method AwaitConcurrentResult(id: OpId, clock: nat -> Instant) returns (settled: Option<Operation>)
      modifies prisma`operations
      ensures settled.Some? <==> id in old(prisma.operations) && old(prisma.operations)[id].status != OpPending
      ensures settled.Some? ==> settled.value == old(prisma.operations)[id]
      ensures prisma.operations == if id in old(prisma.operations) && old(prisma.operations)[id].status == OpPending
                                   then AfterPolling(old(prisma.operations), id, clock) else old(prisma.operations)
    {
      for i := 0 to RESULT_POLL_MAX
        invariant prisma.operations == old(prisma.operations)
        invariant i > 0 && id in prisma.operations ==> prisma.operations[id].status == OpPending
        invariant forall j: nat :: j < i && id in prisma.operations ==> !Stale(prisma.operations[id], clock(j))
      {
        if id in prisma.operations && prisma.operations[id].status != OpPending {
          return Some(prisma.operations[id]);
        }
        if id in prisma.operations && Stale(prisma.operations[id], clock(i)) {
          prisma.operations := prisma.operations[id := prisma.operations[id].(processedAt := None)];
          return None;
        }
      }
      return None;
    }

    /** posOperation.updateMany where status is PENDING. */
    method PersistRejection(id: OpId, code: Code)
      modifies prisma`operations
      ensures prisma.operations == Rejected(old(prisma.operations), id, code)
    {
      if id in prisma.operations && prisma.operations[id].status == OpPending {
        prisma.operations := prisma.operations[id := prisma.operations[id].(status := OpRejected,
          resultCode := Some(code))];
      }
    }

    /** The claim winner: run the engine, then persist its outcome. */
    method Execute(id: OpId, now: Instant) returns (r: Result<SyncResult>)
      requires saleService.prisma == prisma && saleService.orderService.prisma == prisma
      requires saleService.paymentService.prisma == prisma
      requires id in prisma.operations && prisma.operations[id].status == OpPending
      modifies prisma`stock, prisma`orders, prisma`payments, prisma`sales, prisma`bookings, prisma`carts, prisma`nextId,
               prisma`operations
      ensures var out := PosFlows.Execute(old(prisma.View()), prisma.catalog, prisma.sessions, prisma.devices,
                                     old(prisma.operations), id, now);
              prisma.View() == out.books && prisma.operations == out.ops && r == out.result
      ensures r.Ok? ==> id in prisma.operations && prisma.operations[id].status != OpPending
                        && r.value == ResultOf(prisma.operations[id])
      ensures r.Ok? && r.value.status == OpAccepted ==>
                && r.value.orderId.Some? && r.value.paymentId.Some?
                && PaidBy(prisma.View(), r.value.orderId.value, r.value.paymentId.value)
    {
      hide PosFlows.CreateSale;
      var operation := prisma.operations[id];
      prisma.operations := prisma.operations[id := operation.(processedAt := Some(now))];
      var sale := saleService.CreateSale(RequestOf(operation), true);
      match sale
      case Ok((o, p)) =>
        prisma.operations := prisma.operations[id := prisma.operations[id].(status := OpAccepted, resultCode := None,
                                                                           resultOrderId := Some(o),
                                                                             resultPaymentId := Some(p))];
        return Ok(ResultOf(prisma.operations[id]));
      case Err(error) =>
        if error == InsufficientStock {
          PersistRejection(id, OUT_OF_STOCK);
          return Ok(ResultOf(prisma.operations[id]));
        }
        return Err(error);
    }

    /** The authority checks, in their order: credential, device, active device, credential of that device,
        recorded cashier, current permission. */
    method AssertSyncAuthority(operation: Operation, caller: Caller) returns (refusal: Option<Error>)
      ensures refusal == AuthorityRefusal(prisma.devices, operation, caller)
      ensures refusal.None? <==> Entitled(prisma.devices, operation, caller)
    {
      if caller.credential.None? { return Some(Unauthorized); }
      if operation.deviceId !in prisma.devices { return Some(DeviceNotFound); }
      var device := prisma.devices[operation.deviceId];
      if !device.active { return Some(DeviceNotActive); }
      if device.credential != caller.credential.value { return Some(Unauthorized); }
      if operation.userId != caller.userId { return Some(OperationNotFound); }
      if !caller.mayCreate { return Some(Forbidden); }
      return None;
    }

    method SyncOperation(id: OpId, caller: Caller, now: Instant, clock: nat -> Instant) returns (r: Result<SyncResult>)
      requires saleService.prisma == prisma && saleService.orderService.prisma == prisma
      requires saleService.paymentService.prisma == prisma
      modifies prisma`stock, prisma`orders, prisma`payments, prisma`sales, prisma`bookings, prisma`carts, prisma`nextId,
               prisma`operations
      ensures var out := PosFlows.SyncOperation(old(prisma.View()), prisma.catalog, prisma.sessions, prisma.devices,
                                           old(prisma.operations), id, caller, now, clock);
              prisma.View() == out.books && prisma.operations == out.ops && r == out.result
      ensures r.Ok? ==> id in prisma.operations && prisma.operations[id].status != OpPending
                        && r.value == ResultOf(prisma.operations[id])
      ensures id in old(prisma.operations) && old(prisma.operations)[id].status != OpPending ==>
                prisma.operations == old(prisma.operations) && prisma.View() == old(prisma.View())
      ensures r.Ok? || prisma.operations != old(prisma.operations) || prisma.View() != old(prisma.View()) ==>
                id in old(prisma.operations) && Entitled(prisma.devices, old(prisma.operations)[id], caller)
    {
      hide PosFlows.Execute, IntentRefusal;
      if id !in prisma.operations {
        return Err(OperationNotFound);
      }
      var operation := prisma.operations[id];
      var refusal := AssertSyncAuthority(operation, caller);
      if refusal.Some? {
        return Err(refusal.value);
      }
      if operation.status != OpPending {
        return Ok(ResultOf(operation));
      }
      var verdict := ValidateIntent(operation);
      if verdict.Some? {
        PersistRejection(id, verdict.value);
        return Ok(ResultOf(prisma.operations[id]));
      }
      if operation.processedAt.Some? {
        var settled := AwaitConcurrentResult(id, clock);
        r := match settled case Some(op) => Ok(ResultOf(op)) case None => Err(SyncInProgress);
        return;
      }
      r := Execute(id, now);
    }
  }
}
