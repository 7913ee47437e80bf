/** What stands behind an accepted operation: its own order, for what was recorded, paid and provenanced. */
module Acceptance {
  import opened Schema
  import opened Lines
  import opened Ledger
  import opened OrderPayments
  import opened StockLaws
  import opened Platform
  import opened PlatformSafety
  import opened PlatformSteps
  import opened SyncTheorems

  // ---------- every call's own order ----------

  /** The order is what the request asks for: buyer, customer, and each variant's total quantity. */
  ghost predicate OrderedAs(order: Order, req: SaleRequest) {
    && order.userId == req.userId && order.customerId == req.customerId
    && forall v :: QtyOf(ItemLines(order.items), v) == QtyOf(req.items, v)
  }

  /** A call's order is the one it asked for. */
  ghost predicate OwnOrder(s: Sys, w: Worker) {
    w.orderId.Some? ==>
      w.request.Some? && w.orderId.value in s.books.orders
        && OrderedAs(s.books.orders[w.orderId.value], w.request.value)
  }

  /** Past every engine step for good. */
  predicate Over(pc: Pc) { pc.Reload? || pc.Returned? || pc.Threw? || pc.Crashed? }

  /** The call that settled the operation as ACCEPTED. */
  ghost predicate Settler(s: Sys, i: nat, id: OpId) {
    && i in s.workers && s.workers[i].job.SyncJob? && s.workers[i].job.opId == id && Over(s.workers[i].pc)
    && id in s.ops && s.workers[i].orderId.Some? && s.workers[i].orderId == s.ops[id].resultOrderId
  }

  /** No two calls share an order, and every accepted operation's order is that of the call that settled it. */
  ghost predicate OrdersOwned(s: Sys) {
    && (forall i :: i in s.workers ==> OwnOrder(s, s.workers[i]))
    && (forall i, j :: i in s.workers && j in s.workers && i != j && s.workers[i].orderId.Some? ==>
          s.workers[i].orderId != s.workers[j].orderId)
    && (forall id :: id in s.ops && s.ops[id].status == OpAccepted ==> exists i :: Settler(s, i, id))
  }

  // ---------- one step ----------

  /** The step's order transaction has committed. */
  ghost predicate Orders(s: Sys, w: Worker, e: Effect) {
    && w.pc.OrderTx? && w.request.Some? && w.session.Some?
    && CreateOrder(s.books, s.catalog, EngineOrderReq(w)).Committed?
    && e.tx == Some(TxCreateOrder(s.catalog, EngineOrderReq(w)))
    && e.worker == w.(pc := PaymentTx, orderId := Some(s.books.nextId)) && e.ops == s.ops
  }

  /** The step leaves the call's order and request alone. */
  ghost predicate SameOrder(w: Worker, w': Worker) {
    && w'.job == w.job && w'.orderId == w.orderId && (w'.request == w.request || w.pc.Load?)
    && (Over(w.pc) ==> Over(w'.pc))
  }

  /** It accepts no operation but the call's own, with the call's order. */
  ghost predicate AcceptsOwn(s: Sys, w: Worker, e: Effect) {
    forall id :: id in e.ops && e.ops[id].status == OpAccepted ==>
      || (id in s.ops && e.ops[id] == s.ops[id])
      || (w.job.SyncJob? && id == w.job.opId && w.orderId.Some? && e.ops[id].resultOrderId == w.orderId
          && Over(e.worker.pc))
  }

  ghost predicate KeepsOrder(s: Sys, w: Worker, e: Effect) {
    SameOrder(w, e.worker) && AcceptsOwn(s, w, e)
  }

  lemma {:induction false} ProtocolSameOrder(s: Sys, w: Worker, ch: Choice)
    requires w.job.SyncJob?
    ensures SameOrder(w, ProtocolStep(s, w, ch).worker)
  {
    hide ResultOf, RequestOf, Stale, Rejected, Claimable, Accepted, Releasable;
  }

  lemma {:induction false} ProtocolAcceptsOwn(s: Sys, w: Worker, ch: Choice)
    requires w.job.SyncJob?
    ensures AcceptsOwn(s, w, ProtocolStep(s, w, ch))
  {
    hide ResultOf, RequestOf, Stale;
  }

  lemma {:induction false} ProtocolKeepsOrder(s: Sys, w: Worker, ch: Choice)
    requires w.job.SyncJob?
    ensures KeepsOrder(s, w, ProtocolStep(s, w, ch))
  {
    hide ProtocolStep, SameOrder, AcceptsOwn;
    ProtocolSameOrder(s, w, ch);
    ProtocolAcceptsOwn(s, w, ch);
  }

  lemma {:induction false} ReadKeepsOrder(s: Sys, w: Worker)
    requires w.request.Some?
    ensures KeepsOrder(s, w, EngineRead(s, w))
  {
    ReadOps(s, w);
    ReadSameOrder(s, w);
    hide EngineRead, SameOrder;
  }

  lemma {:induction false} ReadOps(s: Sys, w: Worker)
    requires w.request.Some?
    ensures EngineRead(s, w).ops == s.ops
  {
  }

  lemma {:induction false} ReadSameOrder(s: Sys, w: Worker)
    requires w.request.Some?
    ensures SameOrder(w, EngineRead(s, w).worker)
  {
  }

  lemma {:induction false} WriteKeepsOrder(s: Sys, w: Worker)
    requires w.request.Some? && w.session.Some?
    ensures KeepsOrder(s, w, EngineWrite(s, w)) || Orders(s, w, EngineWrite(s, w))
  {
    hide Apply, CreateOrder, EngineOrderReq, SaleRow;
    if w.pc.OrderTx? {
      OrderWrite(s, w);
    }
  }

  lemma {:induction false} OrderWrite(s: Sys, w: Worker)
    requires w.request.Some? && w.session.Some? && w.pc.OrderTx?
    ensures KeepsOrder(s, w, EngineWrite(s, w)) || Orders(s, w, EngineWrite(s, w))
  {
    hide OrderRefusal, NewOrder, Charge, EngineOrderReq, Keys;
  }

  lemma {:induction false} StepKeepsOrder(s: Sys, w: Worker, ch: Choice)
    ensures var e := WorkerStep(s, w, ch); KeepsOrder(s, w, e) || Orders(s, w, e)
  {
    hide ProtocolStep, EngineRead, EngineWrite, KeepsOrder, Orders;
    Idle(s, w);
    if w.job.SyncJob? { ProtocolKeepsOrder(s, w, ch); }
    if w.request.Some? {
      ReadKeepsOrder(s, w);
      if w.session.Some? { WriteKeepsOrder(s, w); }
    }
  }

  lemma {:induction false} Idle(s: Sys, w: Worker)
    ensures KeepsOrder(s, w, Effect(None, s.ops, w))
  {
  }

  // ---------- every action ----------

  /** Later rows are still as ordered. */
  lemma {:induction false} OrderedStays(s: Sys, t: Sys, w: Worker)
    requires OwnOrder(s, w) && OnlyMoves(s.books, t.books)
    ensures OwnOrder(t, w)
  {
    hide QtyOf;
  }

  /** What the invariant says of a call that has its order, and of one that is about to place it. */
  lemma {:induction false} OrderFacts(s: Sys, w: Worker)
    requires WorkerOk(s, w)
    ensures w.pc.Load? ==> w.orderId.None? || w.job.OnlineJob?
    ensures w.job.OnlineJob? ==> !w.pc.Load?
    ensures w.pc.OrderTx? ==> w.session.Some? && w.request.Some?
  {
    hide Delivered, SameIntent, RequestOf;
  }

  /** A call right after its order transaction. */
  lemma {:induction false} PlacedOwnOrder(s: Sys, w: Worker, t: Sys)
    requires w.request.Some? && w.session.Some? && CreateOrder(s.books, s.catalog, EngineOrderReq(w)).Committed?
    requires t.books == CreateOrder(s.books, s.catalog, EngineOrderReq(w)).books
    ensures OwnOrder(t, w.(pc := PaymentTx, orderId := Some(s.books.nextId)))
  {
    var req := EngineOrderReq(w);
    hide QtyOf, OrderRefusal, Charge, Keys;
    forall v
      ensures QtyOf(ItemLines(NewOrder(s.catalog, req).items), v) == QtyOf(req.items, v)
    {
      NewOrderHolds(s.catalog, req, v);
    }
  }

  /** One call changes, keeping its order or with a new one. */
  lemma {:induction false} OneCallOwned(s: Sys, t: Sys, i: nat, w: Worker)
    requires OrdersOwned(s) && OnlyMoves(s.books, t.books) && t.workers == s.workers[i := w] && OwnOrder(t, w)
    requires forall j :: j in s.workers && j != i && w.orderId.Some? ==> s.workers[j].orderId != w.orderId
    ensures forall j :: j in t.workers ==> OwnOrder(t, t.workers[j])
    ensures forall j, k :: j in t.workers && k in t.workers && j != k && t.workers[j].orderId.Some? ==>
              t.workers[j].orderId != t.workers[k].orderId
  {
    hide OwnOrder, OnlyMoves;
    forall j | j in t.workers
      ensures OwnOrder(t, t.workers[j])
    {
      if j != i { OrderedStays(s, t, s.workers[j]); }
    }
  }

  /** Settled rows keep their settler. */
  lemma {:induction false} SettlersStay(s: Sys, t: Sys, i: nat, w: Worker)
    requires OrdersOwned(s) && t.workers == s.workers[i := w]
    requires i in s.workers ==>
               w.job == s.workers[i].job && (Over(s.workers[i].pc) ==> Over(w.pc) && w.orderId == s.workers[i].orderId)
    requires forall id :: id in t.ops && t.ops[id].status == OpAccepted ==>
               (id in s.ops && t.ops[id] == s.ops[id]) || Settler(t, i, id)
    ensures forall id :: id in t.ops && t.ops[id].status == OpAccepted ==> exists j :: Settler(t, j, id)
  {
    forall id | id in t.ops && t.ops[id].status == OpAccepted
      ensures exists j :: Settler(t, j, id)
    {
      if !Settler(t, i, id) {
        var j :| Settler(s, j, id);
        assert Settler(t, j, id);
      }
    }
  }

  /** What a call's step is to the tables it owns rows in. */
  ghost predicate Stepped(s: Sys, t: Sys, i: nat, e: Effect) {
    && i in s.workers && t.workers == s.workers[i := e.worker] && t.ops == e.ops && OnlyMoves(s.books, t.books)
    && t.books == if e.tx.Some? then Step(s.books, e.tx.value) else s.books
  }

  lemma {:induction false} StepIs(s: Sys, i: nat, ch: Choice)
    requires Inv(s) && i in s.workers
    ensures Stepped(s, Act(s, StepWorker(i, ch)), i, WorkerStep(s, s.workers[i], ch))
  {
    hide Act, WorkerStep, Inv, OnlyMoves, Step;
    StepWorkerTables(s, i, ch);
    StepBooks(s, i, ch);
    ActOk(s, StepWorker(i, ch));
  }

  lemma {:induction false} OrderStep(s: Sys, t: Sys, i: nat, e: Effect)
    requires Stepped(s, t, i, e) && OrdersOwned(s) && Orders(s, s.workers[i], e) && s.books.nextId !in s.books.orders
    ensures OrdersOwned(t)
  {
    hide CreateOrder, OnlyMoves, EngineOrderReq, OrderedAs;
    PlacedOwnOrder(s, s.workers[i], t);
    OneCallOwned(s, t, i, e.worker);
    SettlersStay(s, t, i, e.worker);
  }

  lemma {:induction false} FreshOrder(s: Sys)
    requires Inv(s)
    ensures s.books.nextId !in s.books.orders
  {
    NextIdFresh(s.books);
  }

  lemma {:induction false} StepBooks(s: Sys, i: nat, ch: Choice)
    requires i in s.workers
    ensures var tx := WorkerStep(s, s.workers[i], ch).tx;
            Act(s, StepWorker(i, ch)).books == if tx.Some? then Step(s.books, tx.value) else s.books
  {
    hide WorkerStep, Step, Charged;
  }

  lemma {:induction false} KeepingStep(s: Sys, t: Sys, i: nat, e: Effect)
    requires Stepped(s, t, i, e) && OrdersOwned(s) && KeepsOrder(s, s.workers[i], e)
    requires s.workers[i].pc.Load? ==> s.workers[i].orderId.None?
    ensures OrdersOwned(t)
  {
    hide OnlyMoves, OrderedAs, Step;
    OrderedStays(s, t, s.workers[i]);
    OneCallOwned(s, t, i, e.worker);
    SettlersStay(s, t, i, e.worker);
  }

  lemma {:induction false} StepWorkerOwned(s: Sys, i: nat, ch: Choice)
    requires Inv(s) && OrdersOwned(s) && i in s.workers
    ensures OrdersOwned(Act(s, StepWorker(i, ch)))
  {
    assert WorkerOk(s, s.workers[i]);
    hide Act, WorkerStep, Inv, OrdersOwned, Stepped, KeepsOrder, Orders, WorkerOk;
    StepIs(s, i, ch);
    StepKeepsOrder(s, s.workers[i], ch);
    OrderFacts(s, s.workers[i]);
    FreshOrder(s);
    var t, e := Act(s, StepWorker(i, ch)), WorkerStep(s, s.workers[i], ch);
    if Orders(s, s.workers[i], e) {
      OrderStep(s, t, i, e);
    } else {
      KeepingStep(s, t, i, e);
    }
  }

  /** An action that is no call's own step starts a call, crashes one, or touches none. */
  lemma {:induction false} OtherCallsOwn(s: Sys, a: Action)
    ensures forall i :: i in OtherCalls(s, a) ==>
              if i in s.workers then SameOrder(s.workers[i], OtherCalls(s, a)[i])
                && OtherCalls(s, a)[i].request == s.workers[i].request
              else OtherCalls(s, a)[i].orderId.None?
    ensures forall i :: i in s.workers ==> i in OtherCalls(s, a)
  {
  }

  lemma {:induction false} OtherOwned(s: Sys, a: Action)
    requires Inv(s) && OrdersOwned(s) && !a.StepWorker?
    ensures OrdersOwned(Act(s, a))
  {
    var t := Act(s, a);
    hide Act, Inv, OnlyMoves, OtherCalls, Recordable, OrderedAs;
    OtherTables(s, a);
    OtherCallsOwn(s, a);
    ActOk(s, a);
    forall i | i in t.workers
      ensures OwnOrder(t, t.workers[i])
    {
      if i in s.workers { OrderedStays(s, t, s.workers[i]); }
    }
    forall id | id in t.ops && t.ops[id].status == OpAccepted
      ensures exists i :: Settler(t, i, id)
    {
      var i :| Settler(s, i, id);
      assert Settler(t, i, id);
    }
  }

  lemma {:induction false} ActOwned(s: Sys, a: Action)
    requires Inv(s) && OrdersOwned(s)
    ensures OrdersOwned(Act(s, a))
  {
    hide Act, Inv, OrdersOwned;
    if !a.StepWorker? {
      OtherOwned(s, a);
    } else if a.w in s.workers {
      StepWorkerOwned(s, a.w, a.choice);
    } else {
      NoSuchCall(s, a);
    }
  }

  lemma {:induction false} ExecOwned(s: Sys, acts: seq<Action>)
    requires Inv(s) && OrdersOwned(s)
    ensures OrdersOwned(Exec(s, acts))
  {
    hide Act, Inv, OrdersOwned;
    if acts != [] {
      ExecOwned(s, acts[..|acts| - 1]);
      ExecOk(s, acts[..|acts| - 1]);
      ActOwned(Exec(s, acts[..|acts| - 1]), acts[|acts| - 1]);
    }
  }

  lemma {:induction false} ReachableOwned(s: Sys)
    requires Reachable(s)
    ensures Inv(s) && OrdersOwned(s)
  {
    var s0: Sys, acts: seq<Action> :| Init(s0) && Exec(s0, acts) == s;
    hide Inv, Exec;
    assert OrdersOwned(s0);
    InitOk(s0);
    ExecOk(s0, acts);
    ExecOwned(s0, acts);
  }

  // ---------- acceptance ----------

  /** The order is for what the operation recorded: its cashier, its customer, and each variant's total. */
  ghost predicate SellsIntent(order: Order, op: Operation) {
    && order.userId == op.userId && order.customerId == op.customerId
    && forall v :: QtyOf(ItemLines(order.items), v) == QtyOf(IntentLines(op.items), v)
  }

  /** An accepted operation points to a paid order for its own intent, a captured payment of exactly that
      order's subtotal, and a sale row carrying the operation's own provenance. */
  ghost predicate AcceptedBacked(s: Sys, id: OpId)
    requires id in s.ops
  {
    var op := s.ops[id];
    && op.resultOrderId.Some? && op.resultPaymentId.Some?
    && var o, p := op.resultOrderId.value, op.resultPaymentId.value;
       && o in s.books.orders && s.books.orders[o].status == OrderPaid && SellsIntent(s.books.orders[o], op)
       && p in s.books.payments && s.books.payments[p].status == Captured
       && s.books.payments[p].orderId == o
       && s.books.payments[p].amountMinor == s.books.orders[o].subtotalMinor == LineTotals(s.books.orders[o].items)
       && s.books.payments[p].currency == s.books.orders[o].currency
       && CapturedOf(s.books, o) == {p}
       && o in s.books.sales
       && s.books.sales[o] == Sale(p, op.sessionId, op.deviceId, op.storeId, op.userId)
       && o in s.charged && s.charged[o] == Store(op.storeId)
  }

  /** In every reachable state, and ever after, every accepted operation is backed by its own sale. */
  lemma {:induction false} AcceptedIsBacked(s: Sys, acts: seq<Action>, id: OpId)
    requires Reachable(s) && id in s.ops && s.ops[id].status == OpAccepted
    ensures AcceptedBacked(s, id)
    ensures id in Exec(s, acts).ops && AcceptedBacked(Exec(s, acts), id)
  {
    ReachableOwned(s);
    hide Inv, Exec, AcceptedBacked, OrdersOwned, Reachable;
    ExecOk(s, acts);
    ExecOwned(s, acts);
    SettledForever(s, acts, id);
    BackedNow(s, id);
    BackedNow(Exec(s, acts), id);
  }

  lemma {:induction false} BackedNow(s: Sys, id: OpId)
    requires Inv(s) && OrdersOwned(s) && id in s.ops && s.ops[id].status == OpAccepted
    ensures AcceptedBacked(s, id)
  {
    hide OpsOk, WorkerOk, AdjustOk, NonNegative, OrdersOwned, SellsIntent, Sound, CapturedOf, LineTotals;
    LookUp(s, id);
    PaidInFull(s.books, s.ops[id].resultOrderId.value, s.ops[id].resultPaymentId.value);
    IntentSold(s, id);
  }

  /** An order with a captured payment is paid by it alone, in full. */
  lemma {:induction false} PaidInFull(b: Books, o: OrderId, p: PaymentId)
    requires Sound(b) && PaidBy(b, o, p)
    ensures b.payments[p].amountMinor == b.orders[o].subtotalMinor == LineTotals(b.orders[o].items)
    ensures b.payments[p].currency == b.orders[o].currency && CapturedOf(b, o) == {p}
  {
    CapturedIsPaid(b, p);
    assert OrderSound(b.orders[o]);
    assert CapturedOf(b, o) == {p};
  }

  /** The settler's order is for the operation's intent. */
  lemma {:induction false} IntentSold(s: Sys, id: OpId)
    requires Inv(s) && OrdersOwned(s) && id in s.ops && s.ops[id].status == OpAccepted
    ensures s.ops[id].resultOrderId.Some? && s.ops[id].resultOrderId.value in s.books.orders
    ensures SellsIntent(s.books.orders[s.ops[id].resultOrderId.value], s.ops[id])
  {
    hide BooksOk, OpsOk, EngineOk, Delivered, QtyOf;
    var i :| Settler(s, i, id);
    assert OwnOrder(s, s.workers[i]) && WorkerOk(s, s.workers[i]);
  }

  /** Two accepted operations never share an order or a payment. */
  lemma {:induction false} AcceptedShareNothing(s: Sys, x: OpId, y: OpId)
    requires Reachable(s) && x in s.ops && y in s.ops && x != y
    requires s.ops[x].status == OpAccepted && s.ops[y].status == OpAccepted
    ensures s.ops[x].resultOrderId != s.ops[y].resultOrderId && s.ops[x].resultPaymentId != s.ops[y].resultPaymentId
  {
    ReachableOwned(s);
    hide Inv, Exec, Reachable;
    BackedNow(s, x);
    BackedNow(s, y);
    var i :| Settler(s, i, x);
    var j :| Settler(s, j, y);
    assert i != j;
  }
}
