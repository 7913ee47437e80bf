/** Runs from an empty platform that show what the theorems leave open does happen. */
module Episodes {
  import opened Schema
  import opened Lines
  import opened Ledger
  import opened OrderPayments
  import opened StockLaws
  import opened Platform
  import opened PlatformSafety
  import opened PlatformSteps
  import opened SyncTheorems
  import opened PosFlows
  import opened PosTheorems
  import opened Schedules
  import Orders
  import SoloSync
  import StockTheorems

  // ---------- one shop, one intent ----------

  /** Variant 7, active, at one EUR price. */
  function Offer(amount: int): Catalog { Catalog(map[7 := true], [Price(7, "EUR", amount)], {}, {3}) }

  /** An empty platform with a store, a device in it and an open session. */
  function Shop(): Sys {
    Sys(Books(map[], map[], map[], map[], map[], [], 0), Offer(5), map[1 := Session(1, 3, 1, true)], map[1 := true],
        map[], map[], map[], map[])
  }

  /** Two units of variant 7, observed at EUR 5. */
  function Wanted(): Operation {
    Operation(1, 1, 3, 1, 0, 0, None, [IntentLine(7, 2, "EUR", 5)], OpPending, None, None, None, None)
  }

  const SHELF: StockKey := StockKey(7, Store(3))

  lemma {:induction false} OneLine()
    ensures var lines := IntentLines(Wanted().items);
            lines == [Line(7, 2)] && Keys(lines) == [7] && QtyOf(lines, 7) == 2
  {
    var lines := IntentLines(Wanted().items);
    assert lines == [Line(7, 2)] && lines[..0] == [];
    assert Keys(lines) == [7];
  }

  lemma {:induction false} OnePrice(amount: int)
    ensures var prices := Offer(amount).prices;
            && RowsOf(prices, 7) == prices && Target(prices, [7]) == Some("EUR") && PriceRefusal(prices, [7], 1).None?
            && Unit(prices, 7, "EUR") == amount && LastAmount(prices, 7, "EUR") == Some(amount)
  {
    var prices := Offer(amount).prices;
    assert prices[..0] == [];
    assert RowsOf(prices, 7) == prices;
    assert PriceRefusal(prices, [7], 0).None?;
  }

  /** Both units are ordered at the price of the moment. */
  lemma {:induction false} OneVariant(amount: int)
    ensures var lines := IntentLines(Wanted().items);
            && lines == [Line(7, 2)] && Keys(lines) == [7] && QtyOf(lines, 7) == 2
            && CatalogRefusal(Offer(amount), lines).None?
            && Target(Offer(amount).prices, Keys(lines)) == Some("EUR")
            && Unit(Offer(amount).prices, 7, "EUR") == amount
            && LastAmount(Offer(amount).prices, 7, "EUR") == Some(amount)
  {
    hide Keys, QtyOf, RowsOf, Target, Unit, PriceRefusal, LastAmount;
    OneLine();
    OnePrice(amount);
  }

  /** The verdict on the intent at a given price, with the shelf filled. */
  lemma {:induction false} VerdictAt(stock: map<StockKey, int>, amount: int)
    requires SHELF in stock && stock[SHELF] == 4
    ensures IntentRefusal(stock, Offer(amount), Wanted()) == if amount == 5 then None else Some(PRICE_CHANGED)
  {
    OneVariant(amount);
    hide Keys, QtyOf;
    assert LineRefusal(Offer(amount).prices, Wanted().items, 0).None?;
  }

  /** The order the engine places. */
  lemma {:induction false} OrderAt(amount: int)
    ensures var order := NewOrder(Offer(amount), IntentOrder(Wanted()));
            && order.status == OrderPending && order.currency == "EUR" && order.subtotalMinor == 2 * amount
            && ItemLines(order.items) == [Line(7, 2)]
  {
    OneVariant(amount);
    var lines, prices := IntentLines(Wanted().items), Offer(amount).prices;
    hide Keys, QtyOf, RowsOf, Target, Unit;
    assert [7][..0] == [];
    assert ValueByKey([7], lines, UnitFn(prices, "EUR")) == ValueByKey([], lines, UnitFn(prices, "EUR")) + amount * 2;
    assert |ItemsFor([7], lines, prices, "EUR")| == 1;
  }

  /** A sync call that has claimed the intent, the shelf filled and nothing else done. */
  ghost predicate Claimed(t: Sys) {
    && t.books == Shop().books.(stock := map[SHELF := 4])
    && t.catalog == Shop().catalog && t.sessions == Shop().sessions && t.devices == Shop().devices
    && t.ops == map[0 := Wanted().(processedAt := Some(0))]
    && t.workers == map[0 := Schedules.Admitted(Wanted(), 0, ReadSession).(claimed := true)]
  }

  /** Stock, intent, and a call that validates and claims it. */
  lemma {:induction false} ClaimingRun() returns (acts: seq<Action>)
    ensures Init(Shop()) && Claimed(Exec(Shop(), acts))
    ensures var t := Exec(Shop(), acts); IntentRefusal(t.books.stock, t.catalog, t.ops[0]).None?
  {
    InitOk(Shop());
    var stocked := StockUp(Shop(), SHELF, 4, 6);
    var s1 := Exec(Shop(), stocked);
    assert s1.books.stock == map[SHELF := 4];
    var recording := RecordIntent(0, 1, 1, 0, 0, None, [IntentLine(7, 2, "EUR", 5)]);
    var s2 := Act(s1, recording);
    assert s2.ops == map[0 := Wanted()] && s2.books == s1.books && s2.workers == map[];
    var claiming := NewClaim(s2, 0, 0, 0);
    acts := stocked + ([recording] + claiming);
    hide Act;
    ExecConcat(Shop(), stocked, [recording] + claiming);
    ExecConcat(s1, [recording], claiming);
    ExecOne(s1, recording);
    VerdictAt(map[SHELF := 4], 5);
    SameIntent(map[SHELF := 4], Offer(5), Wanted(), Some(0));
  }

  /** The verdict does not read the claim. */
  lemma {:induction false} SameIntent(stock: map<StockKey, int>, cat: Catalog, op: Operation, at: Option<Instant>)
    ensures IntentRefusal(stock, cat, op.(processedAt := at)) == IntentRefusal(stock, cat, op)
  {
  }

  /** An operation that asks for what is wanted, whatever its verdict. */
  predicate Asks(op: Operation) {
    && op.deviceId == 1 && op.sessionId == 1 && op.storeId == 3 && op.userId == 1
    && op.customerId.None? && op.items == Wanted().items
  }

  lemma {:induction false} ReadyAt(s: Sys, amount: int, op: Operation)
    requires s.books.stock == map[SHELF := 4] && s.catalog == Offer(amount) && s.devices == Shop().devices && Asks(op)
    ensures Ready(s, op) && IntentOrder(op) == IntentOrder(Wanted())
  {
    OneVariant(amount);
    hide Keys, QtyOf, CatalogRefusal;
  }

  // ---------- a store order cancelled before its sale row is written ----------

  /** The units of a store order cancelled before its sale row exists leave the store's pool, whose books
      then miss two units, and enter the global pool, whose books have two too many. */
  lemma {:induction false} EarlyCancelHappens() returns (acts: seq<Action>)
    ensures Init(Shop())
    ensures var s := Exec(Shop(), acts);
            && s.charged == map[0 := Store(3)] && 0 in s.books.orders && s.books.orders[0].status == OrderPending
            && s.books.sales == map[]
    ensures var s := Exec(Shop(), acts); var t := Act(s, PublicCall(TxCancelOrder(0)));
            && PoolTotal(t.books, t.charged, SHELF) == PoolTotal(s.books, s.charged, SHELF) - 2
            && PoolTotal(t.books, t.charged, StockKey(7, Global))
               == PoolTotal(s.books, s.charged, StockKey(7, Global)) + 2
            && t.adjusts == s.adjusts
  {
    var first := ClaimingRun();
    var s1 := Exec(Shop(), first);
    InitOk(Shop());
    ExecOk(Shop(), first);
    ReadyAt(s1, 5, s1.ops[0]);
    OrderAt(5);
    hide Act, Inv, Ready, NewOrder, QtyOf, Keys, Charge;
    var second := ToOrder(s1, 0, 0, Choice(true, None, 0, false));
    acts := first + second;
    ExecConcat(Shop(), first, second);
    var s := Exec(s1, second);
    ExecOk(s1, second);
    assert s.books == CreateOrder(s1.books, Offer(5), IntentOrder(Wanted())).books;
    assert s.books.orders == map[0 := NewOrder(Offer(5), IntentOrder(Wanted()))];
    assert Held(s.books.orders[0], 7) == 2 by { OneLine(); }
    StockTheorems.EarlyCancelMovesStock(s, 0, SHELF);
    StockTheorems.EarlyCancelMovesStock(s, 0, StockKey(7, Global));
  }

  // ---------- a rejected operation whose order is paid ----------

  /** The rejected intent, the claimant still before its order. */
  ghost predicate Refused(t: Sys) {
    && t.books == Shop().books.(stock := map[SHELF := 4])
    && t.catalog == Offer(6) && t.sessions == Shop().sessions && t.devices == Shop().devices
    && t.ops == map[0 := Wanted().(processedAt := Some(0), status := OpRejected, resultCode := Some(PRICE_CHANGED))]
    && t.workers == map[0 := Schedules.Admitted(Wanted(), 0, ReadSession).(claimed := true),
                        1 := Schedules.Admitted(Wanted().(processedAt := Some(0)), 0, Reload)]
  }

  const RAISE: Action := Administer(SetCatalog(Offer(6)))

  /** The price rises and a second call rejects the claimed intent. */
  lemma {:induction false} RejectingRun(s: Sys) returns (acts: seq<Action>)
    requires Claimed(s)
    ensures var t := Act(s, RAISE);
            0 in t.ops && IntentRefusal(t.books.stock, t.catalog, t.ops[0]) == Some(PRICE_CHANGED)
    ensures Refused(Exec(Act(s, RAISE), acts))
  {
    var t := Act(s, RAISE);
    assert t == s.(catalog := Offer(6));
    VerdictAt(map[SHELF := 4], 6);
    SameIntent(map[SHELF := 4], Offer(6), Wanted(), Some(0));
    hide Act;
    acts := NewRejection(t, 1, 0, PRICE_CHANGED);
  }

  /** The claimant places its order at the new price. */
  lemma {:induction false} OrderingRun(s: Sys) returns (acts: seq<Action>)
    requires Inv(s) && Refused(s)
    ensures var t, order := Exec(s, acts), NewOrder(Offer(6), IntentOrder(Wanted()));
            && Moved(s, t, 0) && t.workers[0].orderId == Some(0) && t.workers[0].pc == PaymentTx
            && t.books.orders == map[0 := order] && t.books.payments == map[] && t.books.sales == map[]
            && t.books.nextId == 1 && OnHand(t.books.stock, SHELF) == 2
  {
    hide Act, Inv, Ready, NewOrder, CreateOrder, IntentOrder, Offer, Refused, Moved, Selling;
    RefusedFacts(s);
    FirstOrder(s.books);
    acts := ToOrder(s, 0, 0, Choice(true, None, 0, false));
  }

  lemma {:induction false} RefusedFacts(s: Sys)
    requires Refused(s)
    ensures 0 in s.ops && Selling(s, 0, 0) && Ready(s, s.ops[0]) && IntentOrder(s.ops[0]) == IntentOrder(Wanted())
    ensures s.books == Shop().books.(stock := map[SHELF := 4]) && s.catalog == Offer(6)
  {
    hide Ready, IntentOrder;
    ReadyAt(s, 6, s.ops[0]);
  }

  /** The first order at the raised price. */
  lemma {:induction false} FirstOrder(b: Books)
    requires b == Shop().books.(stock := map[SHELF := 4])
    ensures var t := CreateOrder(b, Offer(6), IntentOrder(Wanted()));
            && t.Committed? && t.books.orders == map[0 := NewOrder(Offer(6), IntentOrder(Wanted()))]
            && t.books.payments == map[] && t.books.sales == map[] && t.books.nextId == 1
            && OnHand(t.books.stock, SHELF) == 2
  {
    OneVariant(6);
    hide NewOrder, QtyOf, Keys, Charge, CatalogRefusal;
    Orders.ChargeAt(b.stock, Store(3), [Line(7, 2)], [7], SHELF);
  }

  /** What the invariant says of a call about to request its payment. */
  lemma {:induction false} PayingFacts(s: Sys, i: nat)
    requires Inv(s) && i in s.workers && s.workers[i].job.SyncJob? && s.workers[i].pc == PaymentTx
    ensures var w := s.workers[i];
            && w.job.opId in s.ops && s.ops[w.job.opId].items != []
            && w.request == Some(RequestOf(s.ops[w.job.opId])) && w.request.value.tender == Cash && w.session.Some?
  {
    hide BooksOk, Delivered;
    assert WorkerOk(s, s.workers[i]);
    assert OpOk(s, s.ops[s.workers[i].job.opId]);
  }

  /** From a committed order to the call's return: a settled operation stays as it is. */
  lemma {:induction false} PaySteps(s: Sys, i: nat, w: Worker, op: Operation, o: OrderId, ch: Choice) returns (n: nat)
    requires SoloSync.Stands(s, s, i, s.books, s.ops, w) && w.pc == PaymentTx && SoloSync.Engine(w, op)
    requires w.session.Some? && w.orderId == Some(o)
    requires PayAndRecord(s.books, RequestOf(op), w.session.value, o).result.Ok?
    requires w.job.opId in s.ops && s.ops[w.job.opId].status != OpPending
    ensures var sale := PayAndRecord(s.books, RequestOf(op), w.session.value, o);
            SoloSync.Stands(s, SoloSync.Steps(s, i, ch, n), i, sale.books, s.ops,
                            w.(pc := Returned, paymentId := Some(sale.result.value.1),
                               result := Some(ResultOf(s.ops[w.job.opId]))))
  {
    hide Act, PayAndRecord, RequestOf;
    n := SoloSync.EngineRecords(s, s, i, ch, s.books, s.ops, w, op, o);
    var sale := PayAndRecord(s.books, RequestOf(op), w.session.value, o);
    var w' := w.(pc := Finalize, paymentId := Some(sale.result.value.1));
    SoloSync.FinalizeAndReload(s, SoloSync.Steps(s, i, ch, n), i, ch, sale.books, s.ops, w');
    SoloSync.StepsAdd(s, i, ch, n, 2);
    n := n + 2;
  }

  /** A call with its order committed pays it and returns what its operation says. */
  lemma {:induction false} PayingRun(s: Sys, i: nat, o: OrderId, ch: Choice) returns (acts: seq<Action>)
    requires Inv(s) && i in s.workers && s.workers[i].job.SyncJob? && s.workers[i].pc == PaymentTx
    requires s.workers[i].orderId == Some(o) && s.workers[i].job.opId in s.ops
    requires s.ops[s.workers[i].job.opId].status != OpPending
    requires o in s.books.orders && s.books.orders[o].status == OrderPending
    requires s.books.payments == map[] && s.books.sales == map[]
    ensures var t, id := Exec(s, acts), s.workers[i].job.opId;
            && OnlyCall(s, t, i) && t.ops == s.ops && t.books.stock == s.books.stock
            && t.books.orders == s.books.orders[o := s.books.orders[o].(status := OrderPaid)] && o in t.books.sales
            && t.workers[i].job == s.workers[i].job && t.workers[i].orderId == Some(o)
            && t.workers[i].pc == Returned && t.workers[i].result == Some(ResultOf(s.ops[id]))
  {
    hide Act, Inv, PayAndRecord, RequestOf;
    PayingFacts(s, i);
    var w, op := s.workers[i], s.ops[s.workers[i].job.opId];
    FreshOrderIsSold(s.books, RequestOf(op), w.session.value, o);
    var n := PaySteps(s, i, w, op, o, ch);
    acts := StepsRun(s, i, ch, n);
  }

  /** A call at its last read returns what its operation says. */
  lemma {:induction false} Reloaded(s: Sys, i: nat, ch: Choice)
    requires i in s.workers && s.workers[i].job.SyncJob? && s.workers[i].pc == Reload && s.workers[i].job.opId in s.ops
    ensures var t := Act(s, StepWorker(i, ch));
            && t.books == s.books && t.ops == s.ops
            && t.workers == s.workers[i := s.workers[i].(pc := Returned,
                                                         result := Some(ResultOf(s.ops[s.workers[i].job.opId])))]
  {
  }

  /** The claimant orders and pays, and both calls return. */
  lemma {:induction false} SellingRun(s: Sys) returns (acts: seq<Action>)
    requires Inv(s) && Refused(s)
    ensures RejectedAndPaid(Exec(s, acts))
  {
    var ch := Choice(true, None, 0, false);
    OrderAt(6);
    hide Act, Inv, NewOrder;
    var ordering := OrderingRun(s);
    var t := Exec(s, ordering);
    ExecOk(s, ordering);
    var paying := PayingRun(t, 0, 0, ch);
    var u, last := Exec(t, paying), StepWorker(1, ch);
    Reloaded(u, 1, ch);
    acts := ordering + (paying + [last]);
    ExecConcat(s, ordering, paying + [last]);
    ExecConcat(t, paying, [last]);
    ExecOne(u, last);
  }

  /** Both calls on operation 0 have returned REJECTED, and its order is paid. */
  ghost predicate RejectedAndPaid(s: Sys) {
    && 0 in s.ops && s.ops[0].status == OpRejected && Executors(s, 0) == {0}
    && 0 in s.books.orders && s.books.orders[0].status == OrderPaid && s.books.orders[0].subtotalMinor == 12
    && ItemLines(s.books.orders[0].items) == IntentLines(s.ops[0].items)
    && 0 in s.books.sales && OnHand(s.books.stock, SHELF) == 2
    && ReturnedResult(s, 0, 0, ResultOf(s.ops[0])) && ReturnedResult(s, 1, 0, ResultOf(s.ops[0]))
  }

  /** Validation happens outside the claim: the price rises after one call has validated and claimed the
      intent, a second call rejects it, and the first one sells it all the same. Both calls report
      REJECTED; the order is paid at the new price. */
  lemma {:induction false} RejectedYetPaid() returns (claiming: seq<Action>, rejecting: seq<Action>,
                                                      selling: seq<Action>)
    ensures Init(Shop())
    ensures var s := Exec(Shop(), claiming);
            && Claimed(s) && IntentRefusal(s.books.stock, s.catalog, s.ops[0]).None?
    ensures var s := Act(Exec(Shop(), claiming), RAISE);
            && 0 in s.ops && IntentRefusal(s.books.stock, s.catalog, s.ops[0]) == Some(PRICE_CHANGED)
    ensures var s := Exec(Act(Exec(Shop(), claiming), RAISE), rejecting);
            && Refused(s) && Executors(s, 0) == {}
    ensures RejectedAndPaid(Exec(Shop(), claiming + ([RAISE] + (rejecting + selling))))
  {
    hide Act, Inv, IntentRefusal;
    claiming := ClaimingRun();
    var s1 := Exec(Shop(), claiming);
    rejecting := RejectingRun(s1);
    var s2 := Act(s1, RAISE);
    var s3 := Exec(s2, rejecting);
    assert Inv(s3) by {
      InitOk(Shop());
      ExecOk(Shop(), claiming);
      ActOk(s1, RAISE);
      ExecOk(s2, rejecting);
    }
    selling := SellingRun(s3);
    RunOn(Shop(), claiming, RAISE, rejecting, selling);
  }

  lemma {:induction false} RunOn(s: Sys, before: seq<Action>, a: Action, middle: seq<Action>, after: seq<Action>)
    ensures Exec(s, before + ([a] + (middle + after))) == Exec(Exec(Act(Exec(s, before), a), middle), after)
  {
    hide Act;
    var t := Exec(s, before);
    ExecConcat(s, before, [a] + (middle + after));
    ExecConcat(t, [a], middle + after);
    ExecOne(t, a);
    ExecConcat(Act(t, a), middle, after);
  }
}
