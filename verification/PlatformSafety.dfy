/** What every interleaving keeps: settled operations never change, an accepted operation is
    backed by its own paid order, and every returned result is the durable one. */
module PlatformSafety {
  import opened Schema
  import opened Lines
  import opened Ledger
  import opened OrderPayments
  import opened StockLaws
  import opened Platform

  // ---------- what may change ----------

  /** Two versions of one operation row: the recorded intent and its provenance are frozen. */
  ghost predicate SameIntent(a: Operation, b: Operation) {
    b == a.(status := b.status, resultCode := b.resultCode, resultOrderId := b.resultOrderId,
            resultPaymentId := b.resultPaymentId, processedAt := b.processedAt)
  }

  ghost predicate SameSession(a: Session, b: Session) {
    b == a.(open := b.open)
  }

  /** Later states only ever extend earlier ones; a settled operation is frozen completely. */
  ghost predicate Grows(s: Sys, s': Sys) {
    && OnlyMoves(s.books, s'.books)
    && (forall o :: o in s.charged ==> o in s'.charged && s'.charged[o] == s.charged[o])
    && (forall id :: id in s.sessions ==> id in s'.sessions && SameSession(s.sessions[id], s'.sessions[id]))
    && (forall id :: id in s.ops ==>
          && id in s'.ops && SameIntent(s.ops[id], s'.ops[id])
          && (s.ops[id].status != OpPending ==> s'.ops[id] == s.ops[id]))
  }

  lemma {:induction false} GrowsTrans(s0: Sys, s1: Sys, s2: Sys)
    requires Grows(s0, s1) && Grows(s1, s2)
    ensures Grows(s0, s2)
  {
    hide OnlyMoves;
    MovesTrans(s0.books, s1.books, s2.books);
    forall id | id in s0.ops
      ensures id in s2.ops && SameIntent(s0.ops[id], s2.ops[id])
      ensures s0.ops[id].status != OpPending ==> s2.ops[id] == s0.ops[id]
    {
      assert id in s1.ops && SameIntent(s0.ops[id], s1.ops[id]);
    }
    forall id | id in s0.sessions
      ensures id in s2.sessions && SameSession(s0.sessions[id], s2.sessions[id])
    {
      assert id in s1.sessions && SameSession(s0.sessions[id], s1.sessions[id]);
    }
  }

  // ---------- the invariant ----------

  /** Order `o` is paid, and `p` is its captured payment. */
  ghost predicate PaidBy(b: Books, o: OrderId, p: PaymentId) {
    && o in b.orders && b.orders[o].status == OrderPaid
    && p in b.payments && b.payments[p].orderId == o && b.payments[p].status == Captured
  }

  /** The sale behind operation `op`: paid, and recorded with the operation's own provenance. */
  ghost predicate Delivered(b: Books, op: Operation, o: OrderId, p: PaymentId) {
    && PaidBy(b, o, p)
    && o in b.sales && b.sales[o] == Sale(p, op.sessionId, op.deviceId, op.storeId, op.userId)
  }

  ghost predicate Provenanced(s: Sys, op: Operation) {
    && op.items != []
    && op.sessionId in s.sessions
    && s.sessions[op.sessionId].deviceId == op.deviceId
    && s.sessions[op.sessionId].storeId == op.storeId
    && s.sessions[op.sessionId].userId == op.userId
  }

  ghost predicate OpOk(s: Sys, op: Operation) {
    && Provenanced(s, op)
    && match op.status
       case OpPending => op.resultCode.None? && op.resultOrderId.None? && op.resultPaymentId.None?
       case OpRejected => op.resultCode.Some? && op.resultOrderId.None? && op.resultPaymentId.None?
       case OpAccepted =>
         && op.resultCode.None? && op.resultOrderId.Some? && op.resultPaymentId.Some?
         && Delivered(s.books, op, op.resultOrderId.value, op.resultPaymentId.value)
  }

  predicate HasSession(pc: Pc) { pc.ReadDevice? || pc.ReadCustomer? || pc.OrderTx? || HasOrder(pc) }
  predicate HasOrder(pc: Pc) { pc.PaymentTx? || HasPayment(pc) }
  predicate HasPayment(pc: Pc) { pc.CaptureTx? || pc.ReadOrder? || pc.Provenance? || pc.Finalize? }
  predicate InEngine(pc: Pc) { pc.ReadSession? || HasSession(pc) }
  predicate BeforeClaim(pc: Pc) {
    pc.Load? || pc.Authorise? || pc.Validate? || pc.Claim? || pc.Poll? || pc.Release?
  }

  /** What holds of a call in the engine. */
  ghost predicate EngineOk(s: Sys, w: Worker) {
    && (InEngine(w.pc) ==> w.request.Some? && w.request.value.items != [])
    && (HasSession(w.pc) ==>
          && w.session.Some? && w.request.value.sessionId in s.sessions
          && SameSession(w.session.value, s.sessions[w.request.value.sessionId]))
    && (HasOrder(w.pc) ==>
          && w.orderId.Some? && w.orderId.value in s.books.orders
          && w.orderId.value in s.charged && s.charged[w.orderId.value] == Store(w.session.value.storeId))
    && (HasPayment(w.pc) ==>
          && w.paymentId.Some? && w.paymentId.value in s.books.payments
          && s.books.payments[w.paymentId.value].orderId == w.orderId.value
          && (w.pc.ReadOrder? || w.pc.Finalize? || (w.pc.Provenance? && w.request.value.tender == Cash) ==>
                s.books.payments[w.paymentId.value].status == Captured))
  }

  /** What holds of a sync call. */
  ghost predicate SyncOk(s: Sys, w: Worker)
    requires w.job.SyncJob?
  {
    var id := w.job.opId;
    && (w.loaded.None? ==> (w.pc.Load? || w.pc.Threw? || w.pc.Crashed?) && !w.claimed && !w.released && w.orderId.None?)
    && (w.loaded.Some? ==>
          && id in s.ops && SameIntent(w.loaded.value, s.ops[id])
          && (w.loaded.value.status != OpPending ==> s.ops[id] == w.loaded.value)
          && w.request == Some(RequestOf(w.loaded.value)))
    && (w.pc.Reload? || w.pc.Returned? ==> w.loaded.Some? && s.ops[id].status != OpPending)
    && (w.pc.Returned? ==> w.result == Some(ResultOf(s.ops[id])))
    && (InEngine(w.pc) || w.orderId.Some? ==> w.claimed)
    && (BeforeClaim(w.pc) ==> !w.claimed && !w.released)
    && (w.pc.Finalize? ==>
          && w.loaded.Some? && w.orderId.Some? && w.paymentId.Some?
          && Delivered(s.books, w.loaded.value, w.orderId.value, w.paymentId.value))
  }

  ghost predicate WorkerOk(s: Sys, w: Worker) {
    && EngineOk(s, w)
    && (w.job.SyncJob? ==> SyncOk(s, w))
    && (w.job.OnlineJob? ==> (InEngine(w.pc) && !w.pc.Finalize?) || w.pc.Returned? || w.pc.Threw? || w.pc.Crashed?)
  }

  /** An adjustment that succeeded wrote exactly once; one that failed wrote nothing. */
  ghost predicate AdjustOk(s: Sys, a: Adjust) {
    && (a.pc.ASucceeded? ==> a.applied)
    && (a.pc.AReadBack? ==> a.applied && a.k in s.books.stock)
    && (!a.pc.ASucceeded? && !a.pc.AReadBack? && !a.pc.ACrashed? ==> !a.applied)
    && (a.pc.ACreate? ==> 0 <= a.delta)
  }

  ghost predicate BooksOk(s: Sys) {
    && Sound(s.books)
    && NonNegative(s.books.stock)
    && (forall o :: o in s.charged <==> o in s.books.orders)
    && (forall o :: o in s.books.sales ==> SaleOk(s, o, s.books.sales[o]))
  }

  /** A provenance row names an existing payment and the store whose pool the order was charged to. */
  ghost predicate SaleOk(s: Sys, o: OrderId, sale: Sale) {
    && o in s.charged && s.charged[o] == Store(sale.storeId)
    && sale.paymentId in s.books.payments
  }

  ghost predicate OpsOk(s: Sys) {
    && (forall id :: id in s.ops ==> OpOk(s, s.ops[id]))
    && (forall x, y :: x in s.ops && y in s.ops && x != y && s.ops[x].deviceId == s.ops[y].deviceId ==>
          s.ops[x].clientUuid != s.ops[y].clientUuid && s.ops[x].seqNo != s.ops[y].seqNo)
  }

  ghost predicate Inv(s: Sys) {
    && BooksOk(s)
    && OpsOk(s)
    && (forall i :: i in s.workers ==> WorkerOk(s, s.workers[i]))
    && (forall c :: c in s.adjusts ==> AdjustOk(s, s.adjusts[c]))
  }

  // ---------- what others do cannot hurt ----------

  lemma {:induction false} DeliveredStable(b: Books, b': Books, op: Operation, o: OrderId, p: PaymentId)
    requires Delivered(b, op, o, p) && OnlyMoves(b, b')
    ensures Delivered(b', op, o, p)
  {
  }

  lemma {:induction false} OpStable(s: Sys, s': Sys, op: Operation)
    requires OpOk(s, op) && Grows(s, s')
    ensures OpOk(s', op)
  {
    hide Delivered;
    if op.status == OpAccepted {
      DeliveredStable(s.books, s'.books, op, op.resultOrderId.value, op.resultPaymentId.value);
    }
  }

  lemma {:induction false} EngineStable(s: Sys, s': Sys, w: Worker)
    requires EngineOk(s, w) && Grows(s, s')
    ensures EngineOk(s', w)
  {
  }

  lemma {:induction false} SyncStable(s: Sys, s': Sys, w: Worker)
    requires w.job.SyncJob? && SyncOk(s, w) && Grows(s, s')
    ensures SyncOk(s', w)
  {
    hide Delivered, OnlyMoves, RequestOf;
    if w.pc.Finalize? {
      DeliveredStable(s.books, s'.books, w.loaded.value, w.orderId.value, w.paymentId.value);
    }
  }

  lemma {:induction false} WorkerStable(s: Sys, s': Sys, w: Worker)
    requires WorkerOk(s, w) && Grows(s, s')
    ensures WorkerOk(s', w)
  {
    hide EngineOk, SyncOk, Grows;
    EngineStable(s, s', w);
    if w.job.SyncJob? {
      SyncStable(s, s', w);
    }
  }

  // ---------- ledger commits ----------

  /** The commits the platform makes: provenance rows name the charged store, and created stock
      rows are not negative. */
  ghost predicate Admissible(s: Sys, tx: Tx) {
    && (tx.TxInsertSale? ==> SaleOk(s, tx.o, tx.sale))
    && (tx.TxCreateStock? ==> 0 <= tx.quantity)
  }

  lemma {:induction false} CommitOk(s: Sys, tx: Tx)
    requires BooksOk(s) && Admissible(s, tx)
    ensures BooksOk(Commit(s, Some(tx))) && Grows(s, Commit(s, Some(tx)))
  {
    hide Sound, OnlyMoves, NonNegative, NewOrder, OrderRefusal, Charge, Restock, Keys;
    SoundStep(s.books, tx);
    StepMoves(s.books, tx);
    NonNegativeStep(s.books, tx);
    NextIdFresh(s.books);
    CommitCharged(s, tx);
  }

  lemma {:induction false} CommitCharged(s: Sys, tx: Tx)
    requires s.books.nextId !in s.books.orders
    requires forall o :: o in s.charged <==> o in s.books.orders
    requires forall o :: o in s.books.sales ==> SaleOk(s, o, s.books.sales[o])
    requires Admissible(s, tx)
    ensures var s' := Commit(s, Some(tx));
            && (forall o :: o in s'.charged <==> o in s'.books.orders)
            && (forall o :: o in s'.books.sales ==> SaleOk(s', o, s'.books.sales[o]))
            && (forall o :: o in s.charged ==> o in s'.charged && s'.charged[o] == s.charged[o])
  {
    hide NewOrder, OrderRefusal, Charge, Restock, Keys, HasCaptured;
  }

  // ---------- each call's own step ----------

  /** The state after a call's step, before the call itself is written back. */
  ghost function AfterEffect(s: Sys, e: Effect): Sys {
    Commit(s, e.tx).(ops := e.ops)
  }

  /** What a call's step owes the others, and itself. */
  ghost predicate StepOk(s: Sys, e: Effect) {
    var s' := AfterEffect(s, e);
    && BooksOk(s') && Grows(s, s') && OpsOk(s') && WorkerOk(s', e.worker)
  }

  /** Only operation `id` is rewritten, to a version that is still well-formed. */
  lemma {:induction false} OpWriteOk(s: Sys, id: OpId, op: Operation)
    requires BooksOk(s) && OpsOk(s) && id in s.ops
    requires s.ops[id].status == OpPending && SameIntent(s.ops[id], op) && OpOk(s, op)
    ensures var s' := s.(ops := s.ops[id := op]);
            BooksOk(s') && Grows(s, s') && OpsOk(s')
  {
    hide Delivered, Sound, NonNegative;
    var s' := s.(ops := s.ops[id := op]);
    assert OnlyMoves(s.books, s'.books);
    forall x | x in s'.ops
      ensures OpOk(s', s'.ops[x])
    {
      if x != id { assert OpOk(s, s.ops[x]); }
    }
  }
}
