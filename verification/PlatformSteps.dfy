/** Every action of the platform keeps the invariant, and the theorems this yields over all
    interleavings. */
module PlatformSteps {
  import opened Schema
  import opened Lines
  import opened Ledger
  import opened OrderPayments
  import opened StockLaws
  import opened Platform
  import opened PlatformSafety

  // ---------- steps of the sync protocol ----------

  /** A step that writes nothing. */
  lemma {:induction false} ReadOnlyOk(s: Sys, w: Worker)
    requires BooksOk(s) && OpsOk(s) && WorkerOk(s, w)
    ensures StepOk(s, Effect(None, s.ops, w))
  {
    hide BooksOk, OpsOk, WorkerOk;
    assert OnlyMoves(s.books, s.books);
    assert AfterEffect(s, Effect(None, s.ops, w)) == s;
  }

  /** Rewriting the call's own operation row. */
  lemma {:induction false} OpStepOk(s: Sys, w: Worker, op: Operation, w': Worker)
    requires BooksOk(s) && OpsOk(s) && w.job.SyncJob? && w.job.opId in s.ops
    requires s.ops[w.job.opId].status == OpPending && SameIntent(s.ops[w.job.opId], op) && OpOk(s, op)
    requires WorkerOk(s.(ops := s.ops[w.job.opId := op]), w')
    ensures StepOk(s, Effect(None, s.ops[w.job.opId := op], w'))
  {
    hide BooksOk, OpsOk, WorkerOk, OpOk, Grows;
    OpWriteOk(s, w.job.opId, op);
    assert AfterEffect(s, Effect(None, s.ops[w.job.opId := op], w')) == s.(ops := s.ops[w.job.opId := op]);
  }

  lemma {:induction false} LoadOk(s: Sys, w: Worker, ch: Choice)
    requires OpsOk(s) && WorkerOk(s, w) && w.job.SyncJob? && w.pc.Load?
    ensures WorkerOk(s, ProtocolStep(s, w, ch).worker)
  {
    hide OpsOk, PaidBy, Delivered;
    if w.job.opId in s.ops {
      LookUp(s, w.job.opId);
      IntentLinesNonEmpty(s.ops[w.job.opId]);
    }
  }

  lemma {:induction false} IntentLinesNonEmpty(op: Operation)
    requires op.items != []
    ensures RequestOf(op).items != []
  {
  }

  lemma {:induction false} AuthoriseKeeps(s: Sys, w: Worker, ch: Choice)
    requires w.job.SyncJob? && SyncOk(s, w) && (w.pc.Authorise? || w.pc.Validate?)
    ensures var w' := ProtocolStep(s, w, ch).worker; w'.job == w.job && SyncOk(s, w') && EngineOk(s, w')
  {
    hide Delivered, RequestOf;
  }

  lemma {:induction false} PollKeeps(s: Sys, w: Worker, ch: Choice)
    requires w.job.SyncJob? && SyncOk(s, w) && (w.pc.Poll? || w.pc.Reload?)
    ensures var w' := ProtocolStep(s, w, ch).worker; w'.job == w.job && SyncOk(s, w') && EngineOk(s, w')
  {
    hide Delivered, RequestOf, Stale, SameIntent;
  }

  lemma {:induction false} ProtocolReadKeeps(s: Sys, w: Worker, ch: Choice)
    requires w.job.SyncJob? && SyncOk(s, w)
    requires w.pc.Authorise? || w.pc.Validate? || w.pc.Poll? || w.pc.Reload?
    ensures var w' := ProtocolStep(s, w, ch).worker; w'.job == w.job && SyncOk(s, w') && EngineOk(s, w')
  {
    hide ProtocolStep, SyncOk, EngineOk;
    if w.pc.Authorise? || w.pc.Validate? {
      AuthoriseKeeps(s, w, ch);
    } else {
      PollKeeps(s, w, ch);
    }
  }

  lemma {:induction false} ProtocolReads(s: Sys, w: Worker, ch: Choice)
    requires BooksOk(s) && OpsOk(s) && WorkerOk(s, w) && w.job.SyncJob?
    requires w.pc.Load? || w.pc.Authorise? || w.pc.Validate? || w.pc.Poll? || w.pc.Reload?
    ensures StepOk(s, ProtocolStep(s, w, ch))
  {
    hide BooksOk, OpsOk, SyncOk, EngineOk, StepOk;
    var e := ProtocolStep(s, w, ch);
    if w.pc.Load? {
      LoadOk(s, w, ch);
    } else {
      ProtocolReadKeeps(s, w, ch);
    }
    ReadOnlyOk(s, e.worker);
  }

  lemma {:induction false} LookUp(s: Sys, id: OpId)
    requires OpsOk(s) && id in s.ops
    ensures OpOk(s, s.ops[id])
  {
  }

  lemma {:induction false} RejectOk(s: Sys, w: Worker, ch: Choice)
    requires BooksOk(s) && OpsOk(s) && WorkerOk(s, w) && w.job.SyncJob? && w.pc.Reject?
    ensures StepOk(s, ProtocolStep(s, w, ch))
  {
    hide BooksOk, OpsOk, Delivered;
    var id := w.job.opId;
    LookUp(s, id);
    var w' := w.(pc := Reload);
    if s.ops[id].status == OpPending {
      var op := s.ops[id].(status := OpRejected, resultCode := Some(w.pc.code));
      OpStepOk(s, w, op, w');
    } else {
      ReadOnlyOk(s, w');
    }
  }

  lemma {:induction false} ClaimOk(s: Sys, w: Worker, ch: Choice)
    requires BooksOk(s) && OpsOk(s) && WorkerOk(s, w) && w.job.SyncJob? && w.pc.Claim?
    ensures StepOk(s, ProtocolStep(s, w, ch))
  {
    hide BooksOk, OpsOk, Delivered;
    var id := w.job.opId;
    LookUp(s, id);
    if Claimable(s.ops, id) {
      var op := s.ops[id].(processedAt := Some(ch.now));
      OpStepOk(s, w, op, w.(pc := ReadSession, claimed := true));
    } else {
      ReadOnlyOk(s, w.(pc := Poll));
    }
  }

  lemma {:induction false} ReleaseOk(s: Sys, w: Worker, ch: Choice)
    requires BooksOk(s) && OpsOk(s) && WorkerOk(s, w) && w.job.SyncJob? && w.pc.Release?
    ensures StepOk(s, ProtocolStep(s, w, ch))
  {
    hide BooksOk, OpsOk, Delivered;
    var id := w.job.opId;
    LookUp(s, id);
    if Releasable(s.ops, id) {
      var op := s.ops[id].(processedAt := None);
      OpStepOk(s, w, op, w.(pc := Threw(SyncInProgress), released := true));
    } else {
      ReadOnlyOk(s, w.(pc := Threw(SyncInProgress)));
    }
  }

  function AcceptedRow(s: Sys, w: Worker): Operation
    requires w.job.SyncJob? && w.job.opId in s.ops
  {
    s.ops[w.job.opId].(status := OpAccepted, resultCode := None, resultOrderId := w.orderId,
                       resultPaymentId := w.paymentId)
  }

  lemma {:induction false} AcceptedRowOk(s: Sys, w: Worker)
    requires w.job.SyncJob? && SyncOk(s, w) && w.pc.Finalize? && OpOk(s, s.ops[w.job.opId])
    ensures OpOk(s, AcceptedRow(s, w)) && SameIntent(s.ops[w.job.opId], AcceptedRow(s, w))
  {
    hide PaidBy;
  }

  lemma {:induction false} FinalizedOk(s: Sys, w: Worker, op: Operation)
    requires w.job.SyncJob? && SyncOk(s, w) && w.pc.Finalize? && op.status != OpPending
    requires SameIntent(s.ops[w.job.opId], op) && (s.ops[w.job.opId].status != OpPending ==> s.ops[w.job.opId] == op)
    ensures WorkerOk(s.(ops := s.ops[w.job.opId := op]), w.(pc := Reload))
  {
    hide Delivered, RequestOf;
  }

  lemma {:induction false} FinalizeOk(s: Sys, w: Worker, ch: Choice)
    requires BooksOk(s) && OpsOk(s) && WorkerOk(s, w) && w.job.SyncJob? && w.pc.Finalize?
    ensures StepOk(s, ProtocolStep(s, w, ch))
  {
    hide BooksOk, OpsOk, Delivered, OpOk, StepOk, EngineOk, SameIntent;
    var id := w.job.opId;
    LookUp(s, id);
    if s.ops[id].status == OpPending {
      AcceptedRowOk(s, w);
      FinalizedOk(s, w, AcceptedRow(s, w));
      OpStepOk(s, w, AcceptedRow(s, w), w.(pc := Reload));
    } else {
      SameItself(s.ops[id]);
      FinalizedOk(s, w, s.ops[id]);
      assert s.(ops := s.ops[id := s.ops[id]]) == s;
      ReadOnlyOk(s, w.(pc := Reload));
    }
  }

  lemma {:induction false} SameItself(op: Operation)
    ensures SameIntent(op, op)
  {
  }

  // ---------- steps of the engine ----------

  /** Inside the engine a sync call's own obligations do not change, up to the final update. */
  lemma {:induction false} SyncInEngine(s: Sys, w: Worker, w': Worker)
    requires w.job.SyncJob? && SyncOk(s, w) && InEngine(w.pc)
    requires w' == w.(pc := w'.pc, session := w'.session, orderId := w'.orderId, paymentId := w'.paymentId)
    requires (InEngine(w'.pc) && !w'.pc.Finalize?) || w'.pc.Threw? || w'.pc.Reject?
    ensures SyncOk(s, w')
  {
    hide Delivered, SameIntent, RequestOf;
  }

  predicate Reading(pc: Pc) { pc.ReadSession? || pc.ReadDevice? || pc.ReadCustomer? || pc.ReadOrder? }

  lemma {:induction false} EngineReadShape(s: Sys, w: Worker)
    requires w.request.Some? && Reading(w.pc)
    ensures var e := EngineRead(s, w);
            var w' := e.worker;
            && e == Effect(None, s.ops, w') && w' == w.(pc := w'.pc, session := w'.session)
            && ((InEngine(w'.pc) && !w'.pc.Finalize?) || w'.pc.Threw?)
  {
  }

  lemma {:induction false} EngineReadOk(s: Sys, w: Worker)
    requires BooksOk(s) && OpsOk(s) && WorkerOk(s, w) && w.request.Some? && Reading(w.pc)
    ensures StepOk(s, EngineRead(s, w))
  {
    hide BooksOk, OpsOk, SyncOk, StepOk, EngineRead, EngineOk;
    var w' := EngineRead(s, w).worker;
    EngineReadShape(s, w);
    if w.job.SyncJob? {
      SyncInEngine(s, w, w');
    }
    EngineReadKeeps(s, w);
    ReadOnlyOk(s, w');
  }

  lemma {:induction false} SessionReadKeeps(s: Sys, w: Worker)
    requires EngineOk(s, w) && w.request.Some? && w.pc.ReadSession?
    ensures EngineOk(s, EngineRead(s, w).worker)
  {
  }

  lemma {:induction false} DeviceReadKeeps(s: Sys, w: Worker)
    requires EngineOk(s, w) && w.request.Some? && w.pc.ReadDevice?
    ensures EngineOk(s, EngineRead(s, w).worker)
  {
    hide SameSession;
  }

  lemma {:induction false} OrderReadKeeps(s: Sys, w: Worker)
    requires EngineOk(s, w) && w.request.Some? && (w.pc.ReadCustomer? || w.pc.ReadOrder?)
    ensures EngineOk(s, EngineRead(s, w).worker)
  {
    hide SameSession;
  }

  lemma {:induction false} EngineReadKeeps(s: Sys, w: Worker)
    requires EngineOk(s, w) && w.request.Some? && Reading(w.pc)
    ensures EngineOk(s, EngineRead(s, w).worker)
  {
    hide EngineOk, EngineRead;
    if w.pc.ReadSession? {
      SessionReadKeeps(s, w);
    } else if w.pc.ReadDevice? {
      DeviceReadKeeps(s, w);
    } else {
      OrderReadKeeps(s, w);
    }
  }

  /** A commit by the engine, given that the call is in order afterwards. */
  lemma {:induction false} CommitStepOk(s: Sys, tx: Tx, w': Worker)
    requires BooksOk(s) && OpsOk(s) && Admissible(s, tx)
    requires WorkerOk(Commit(s, Some(tx)), w')
    ensures StepOk(s, Effect(Some(tx), s.ops, w'))
  {
    hide BooksOk, WorkerOk, OpOk, Grows, Admissible, Step, Charged;
    var s' := Commit(s, Some(tx));
    CommitOk(s, tx);
    forall id | id in s'.ops
      ensures OpOk(s', s'.ops[id])
    {
      OpStable(s, s', s.ops[id]);
    }
    assert AfterEffect(s, Effect(Some(tx), s.ops, w')) == s';
  }

  lemma {:induction false} OrderTxKeeps(s: Sys, w: Worker)
    requires w.request.Some? && w.session.Some? && w.pc.OrderTx?
    requires EngineOk(Commit(s, Some(TxCreateOrder(s.catalog, EngineOrderReq(w)))), w)
    ensures EngineOk(Commit(s, Some(TxCreateOrder(s.catalog, EngineOrderReq(w)))), EngineWrite(s, w).worker)
  {
    hide OrderRefusal, NewOrder, Charge, Keys;
  }

  lemma {:induction false} OrderTxOk(s: Sys, w: Worker)
    requires BooksOk(s) && OpsOk(s) && WorkerOk(s, w) && w.request.Some? && w.session.Some? && w.pc.OrderTx?
    ensures StepOk(s, EngineWrite(s, w))
  {
    hide BooksOk, OpsOk, SyncOk, CreateOrder, EngineOk, Grows, StepOk;
    var tx := TxCreateOrder(s.catalog, EngineOrderReq(w));
    CommitOk(s, tx);
    WorkerStable(s, Commit(s, Some(tx)), w);
    OrderTxKeeps(s, w);
    if w.job.SyncJob? {
      SyncInEngine(Commit(s, Some(tx)), w, EngineWrite(s, w).worker);
    }
    CommitStepOk(s, tx, EngineWrite(s, w).worker);
  }

  lemma {:induction false} PaymentTxKeeps(s: Sys, w: Worker)
    requires w.request.Some? && w.session.Some? && w.orderId.Some? && w.pc.PaymentTx?
    requires EngineOk(Commit(s, Some(TxCreatePayment(w.orderId.value, w.request.value.tender))), w)
    ensures EngineOk(Commit(s, Some(TxCreatePayment(w.orderId.value, w.request.value.tender))),
                     EngineWrite(s, w).worker)
  {
    hide HasCaptured, SameSession;
  }

  lemma {:induction false} PaymentTxOk(s: Sys, w: Worker)
    requires BooksOk(s) && OpsOk(s) && WorkerOk(s, w) && w.request.Some? && w.session.Some? && w.pc.PaymentTx?
    ensures StepOk(s, EngineWrite(s, w))
  {
    hide BooksOk, OpsOk, SyncOk, CreatePayment, Grows, StepOk;
    var tx := TxCreatePayment(w.orderId.value, w.request.value.tender);
    CommitOk(s, tx);
    WorkerStable(s, Commit(s, Some(tx)), w);
    PaymentTxKeeps(s, w);
    if w.job.SyncJob? {
      SyncInEngine(Commit(s, Some(tx)), w, EngineWrite(s, w).worker);
    }
    CommitStepOk(s, tx, EngineWrite(s, w).worker);
  }

  lemma {:induction false} CaptureTxKeeps(s: Sys, w: Worker)
    requires w.request.Some? && w.session.Some? && w.paymentId.Some? && w.pc.CaptureTx?
    requires EngineOk(Commit(s, Some(TxCapturePayment(w.paymentId.value))), w)
    ensures EngineOk(Commit(s, Some(TxCapturePayment(w.paymentId.value))), EngineWrite(s, w).worker)
  {
    hide SameSession;
  }

  lemma {:induction false} CaptureTxOk(s: Sys, w: Worker)
    requires BooksOk(s) && OpsOk(s) && WorkerOk(s, w) && w.request.Some? && w.session.Some? && w.pc.CaptureTx?
    ensures StepOk(s, EngineWrite(s, w))
  {
    hide BooksOk, OpsOk, SyncOk, CapturePayment, Grows, StepOk;
    var tx := TxCapturePayment(w.paymentId.value);
    CommitOk(s, tx);
    WorkerStable(s, Commit(s, Some(tx)), w);
    CaptureTxKeeps(s, w);
    if w.job.SyncJob? {
      SyncInEngine(Commit(s, Some(tx)), w, EngineWrite(s, w).worker);
    }
    CommitStepOk(s, tx, EngineWrite(s, w).worker);
  }

  /** The provenance row a sync call inserts is its operation's own, over a paid order. */
  lemma {:induction false} DeliveredByProvenance(s: Sys, w: Worker)
    requires BooksOk(s) && OpsOk(s) && EngineOk(s, w) && w.job.SyncJob? && SyncOk(s, w) && w.pc.Provenance?
    requires InsertSale(s.books, w.orderId.value, SaleRow(w)).Committed?
    ensures w.loaded.Some? && s.books.payments[w.paymentId.value].status == Captured
    ensures Delivered(InsertSale(s.books, w.orderId.value, SaleRow(w)).books, w.loaded.value, w.orderId.value,
                      w.paymentId.value)
  {
    hide OpsOk, NonNegative;
    LookUp(s, w.job.opId);
    assert Sound(s.books);
    CapturedIsPaid(s.books, w.paymentId.value);
  }

  lemma {:induction false} ProvenanceKeeps(s: Sys, w: Worker)
    requires EngineOk(s, w) && w.pc.Provenance?
    requires w.job.SyncJob? ==> s.books.payments[w.paymentId.value].status == Captured
    ensures w.job.SyncJob? ==> EngineOk(s, w.(pc := Finalize))
    ensures EngineOk(s, w.(pc := Returned)) && forall error :: EngineOk(s, w.(pc := Threw(error)))
  {
    hide SameSession;
  }

  lemma {:induction false} ProvenanceOk(s: Sys, w: Worker)
    requires BooksOk(s) && OpsOk(s) && WorkerOk(s, w) && w.request.Some? && w.session.Some? && w.pc.Provenance?
    ensures StepOk(s, EngineWrite(s, w))
  {
    hide BooksOk, OpsOk, SyncOk, Delivered, Grows, StepOk, InsertSale;
    var tx := TxInsertSale(w.orderId.value, SaleRow(w));
    var s', w' := Commit(s, Some(tx)), EngineWrite(s, w).worker;
    CommitOk(s, tx);
    WorkerStable(s, s', w);
    if w.job.SyncJob? && InsertSale(s.books, w.orderId.value, SaleRow(w)).Committed? {
      DeliveredByProvenance(s, w);
      FinalizeReady(s', w);
    } else if w.job.SyncJob? {
      SyncInEngine(s', w, w');
    }
    assert EngineOk(s', w') by {
      if w.job.SyncJob? { CashCaptured(s', w); }
      ProvenanceKeeps(s', w);
    }
    CommitStepOk(s, tx, w');
  }

  /** A sync sale is a cash sale, so its payment is captured before the provenance row. */
  lemma {:induction false} CashCaptured(s: Sys, w: Worker)
    requires EngineOk(s, w) && w.job.SyncJob? && SyncOk(s, w) && w.pc.Provenance?
    ensures s.books.payments[w.paymentId.value].status == Captured
  {
    hide Delivered, SameIntent;
  }

  lemma {:induction false} FinalizeReady(s: Sys, w: Worker)
    requires w.job.SyncJob? && SyncOk(s, w) && w.pc.Provenance?
    requires w.loaded.Some? && w.orderId.Some? && w.paymentId.Some?
    requires Delivered(s.books, w.loaded.value, w.orderId.value, w.paymentId.value)
    ensures SyncOk(s, w.(pc := Finalize))
  {
    hide Delivered, SameIntent, RequestOf;
  }

  lemma {:induction false} CapturedIsPaid(b: Books, p: PaymentId)
    requires Sound(b) && p in b.payments
    ensures PaymentMatches(b, p)
  {
  }

  // ---------- all actions ----------

  lemma {:induction false} WorkerStepOk(s: Sys, w: Worker, ch: Choice)
    requires BooksOk(s) && OpsOk(s) && WorkerOk(s, w)
    ensures StepOk(s, WorkerStep(s, w, ch))
  {
    hide BooksOk, OpsOk, WorkerOk, StepOk, ProtocolStep, EngineRead, EngineWrite;
    if w.job.SyncJob? && (w.pc.Load? || w.pc.Authorise? || w.pc.Validate? || w.pc.Poll? || w.pc.Reload?) {
      ProtocolReads(s, w, ch);
    } else if w.job.SyncJob? && w.pc.Reject? {
      RejectOk(s, w, ch);
    } else if w.job.SyncJob? && w.pc.Claim? {
      ClaimOk(s, w, ch);
    } else if w.job.SyncJob? && w.pc.Release? {
      ReleaseOk(s, w, ch);
    } else if w.job.SyncJob? && w.pc.Finalize? {
      FinalizeOk(s, w, ch);
    } else if w.request.Some? && (w.pc.ReadSession? || w.pc.ReadDevice? || w.pc.ReadCustomer? || w.pc.ReadOrder?) {
      EngineReadOk(s, w);
    } else if w.request.Some? && w.session.Some? && w.pc.OrderTx? {
      OrderTxOk(s, w);
    } else if w.request.Some? && w.session.Some? && w.pc.PaymentTx? {
      PaymentTxOk(s, w);
    } else if w.request.Some? && w.session.Some? && w.pc.CaptureTx? {
      CaptureTxOk(s, w);
    } else if w.request.Some? && w.session.Some? && w.pc.Provenance? {
      ProvenanceOk(s, w);
    } else {
      IdleStep(s, w, ch);
      ReadOnlyOk(s, w);
    }
  }

  /** A call that has ended, or is not where it could act, makes no move. */
  lemma {:induction false} IdleStep(s: Sys, w: Worker, ch: Choice)
    requires w.pc.Returned? || w.pc.Threw? || w.pc.Crashed?
             || (!w.job.SyncJob? && !InEngine(w.pc)) || (!w.job.SyncJob? && w.pc.Finalize?)
             || ((w.pc.ReadSession? || w.pc.ReadDevice? || w.pc.ReadCustomer? || w.pc.ReadOrder?) && w.request.None?)
             || ((w.pc.OrderTx? || w.pc.PaymentTx? || w.pc.CaptureTx? || w.pc.Provenance?)
                 && (w.request.None? || w.session.None?))
    ensures WorkerStep(s, w, ch) == Effect(None, s.ops, w)
  {
  }

  /** The invariant of the next state, from what changed. */
  lemma {:induction false} InvNext(s: Sys, s': Sys)
    requires Inv(s) && BooksOk(s') && OpsOk(s') && Grows(s, s')
    requires forall i :: i in s'.workers ==>
               (i in s.workers && s'.workers[i] == s.workers[i]) || WorkerOk(s', s'.workers[i])
    requires forall c :: c in s'.adjusts ==>
               (c in s.adjusts && s'.adjusts[c] == s.adjusts[c]) || AdjustOk(s', s'.adjusts[c])
    ensures Inv(s')
  {
    hide BooksOk, OpsOk, WorkerOk;
    forall i | i in s'.workers
      ensures WorkerOk(s', s'.workers[i])
    {
      if i in s.workers && s'.workers[i] == s.workers[i] {
        WorkerStable(s, s', s.workers[i]);
      }
    }
    forall c | c in s'.adjusts
      ensures AdjustOk(s', s'.adjusts[c])
    {
      if c in s.adjusts && s'.adjusts[c] == s.adjusts[c] {
        assert AdjustOk(s, s.adjusts[c]);
      }
    }
  }

  /** Rows the invariant does not speak about. */
  ghost predicate OnlySideTables(s: Sys, s': Sys) {
    && s'.books == s.books.(bookings := s'.books.bookings, carts := s'.books.carts)
    && s'.ops == s.ops && s'.charged == s.charged
    && forall id :: id in s.sessions ==> id in s'.sessions && SameSession(s.sessions[id], s'.sessions[id])
  }

  lemma {:induction false} SideGrows(s: Sys, s': Sys)
    requires OnlySideTables(s, s')
    ensures Grows(s, s')
  {
    hide SameSession;
    assert OnlyMoves(s.books, s'.books);
  }

  lemma {:induction false} SideBooks(s: Sys, s': Sys)
    requires BooksOk(s) && OnlySideTables(s, s')
    ensures BooksOk(s')
  {
    hide Sound, NonNegative, SameSession;
    SoundFrame(s.books, s'.books);
  }

  lemma {:induction false} SideTables(s: Sys, s': Sys)
    requires BooksOk(s) && OpsOk(s) && OnlySideTables(s, s')
    ensures BooksOk(s') && OpsOk(s') && Grows(s, s')
  {
    hide BooksOk, OpsOk, Grows;
    SideGrows(s, s');
    SideBooks(s, s');
    CommitOps(s, s');
  }

  lemma {:induction false} StepWorkerOk(s: Sys, i: nat, ch: Choice)
    requires Inv(s) && i in s.workers
    ensures var s' := Act(s, StepWorker(i, ch)); Inv(s') && Grows(s, s')
  {
    hide BooksOk, OpsOk, WorkerOk, AdjustOk, WorkerStep, Step, Charged;
    var w := s.workers[i];
    var e := WorkerStep(s, w, ch);
    WorkerStepOk(s, w, ch);
    var s1, s' := AfterEffect(s, e), Act(s, StepWorker(i, ch));
    assert s' == s1.(workers := s.workers[i := e.worker]);
    SideTables(s1, s');
    assert Grows(s, s');
    WorkerStable(s1, s', e.worker);
    InvNext(s, s');
  }

  lemma {:induction false} PublicCallOk(s: Sys, tx: Tx)
    requires Inv(s) && Public(s, tx)
    ensures var s' := Act(s, PublicCall(tx)); Inv(s') && Grows(s, s')
  {
    hide BooksOk, OpsOk, WorkerOk, AdjustOk, Step, Charged, Grows, OpOk;
    var s' := Commit(s, Some(tx));
    CommitOk(s, tx);
    CommitOps(s, s');
    InvNext(s, s');
  }

  lemma {:induction false} CommitOps(s: Sys, s': Sys)
    requires OpsOk(s) && Grows(s, s') && s'.ops == s.ops
    ensures OpsOk(s')
  {
    hide OpOk, Grows;
    forall id | id in s'.ops
      ensures OpOk(s', s'.ops[id])
    {
      OpStable(s, s', s.ops[id]);
    }
  }

  lemma {:induction false} NewOperationOk(s: Sys, a: Action)
    requires a.RecordIntent? && Recordable(s, a)
    ensures OpOk(s, NewOperation(s, a))
    ensures forall x :: x in s.ops && s.ops[x].deviceId == NewOperation(s, a).deviceId ==>
              s.ops[x].clientUuid != NewOperation(s, a).clientUuid && s.ops[x].seqNo != NewOperation(s, a).seqNo
  {
  }

  lemma {:induction false} MoreOperations(s: Sys, id: OpId, op: Operation)
    requires id !in s.ops
    ensures Grows(s, s.(ops := s.ops[id := op]))
  {
    assert OnlyMoves(s.books, s.books);
  }

  /** Recording an intent adds one well-formed operation under a fresh id. */
  lemma {:induction false} RecordedOps(s: Sys, a: Action)
    requires OpsOk(s) && a.RecordIntent? && Recordable(s, a)
    ensures var s' := Act(s, a); OpsOk(s') && Grows(s, s')
  {
    hide OpOk, Grows, NewOperation;
    var op := NewOperation(s, a);
    var s' := s.(ops := s.ops[a.id := op]);
    assert s' == Act(s, a);
    NewOperationOk(s, a);
    MoreOperations(s, a.id, op);
    forall id | id in s'.ops
      ensures OpOk(s', s'.ops[id])
    {
      OpStable(s, s', s'.ops[id]);
    }
  }

  lemma {:induction false} RecordIntentOk(s: Sys, a: Action)
    requires Inv(s) && a.RecordIntent? && Recordable(s, a)
    ensures var s' := Act(s, a); Inv(s') && Grows(s, s')
  {
    hide WorkerOk, AdjustOk, Sound, NonNegative, OpsOk, Grows;
    var s' := Act(s, a);
    RecordedOps(s, a);
    assert s'.books == s.books && s'.charged == s.charged && s'.workers == s.workers && s'.adjusts == s.adjusts;
    InvNext(s, s');
  }

  /** An adjustment's own step: it writes only once, and creates no negative row. */
  lemma {:induction false} AdjustKeeps(s: Sys, a: Adjust)
    requires AdjustOk(s, a)
    ensures var e := AdjustStep(s, a);
            && (e.0.Some? ==> Admissible(s, e.0.value) && AdjustOk(Commit(s, e.0), e.1))
            && (e.0.None? ==> AdjustOk(s, e.1))
  {
  }

  lemma {:induction false} AdjustActOk(s: Sys, c: nat)
    requires Inv(s) && c in s.adjusts
    ensures var s' := Act(s, StepAdjust(c)); Inv(s') && Grows(s, s')
  {
    hide OpsOk, WorkerOk, BooksOk, Grows, AdjustStep, AdjustOk, Step, Charged, Admissible;
    var e := AdjustStep(s, s.adjusts[c]);
    var s1, s' := Commit(s, e.0), Act(s, StepAdjust(c));
    AdjustKeeps(s, s.adjusts[c]);
    if e.0.Some? {
      CommitOk(s, e.0.value);
      CommitOps(s, s1);
    } else {
      Stutter(s);
    }
    AdjustTable(s1, s');
    GrowsTrans(s, s1, s');
    InvNext(s, s');
  }

  /** Writing back the table of adjustment calls touches no row. */
  lemma {:induction false} AdjustTable(s: Sys, s': Sys)
    requires BooksOk(s) && OpsOk(s) && s' == s.(adjusts := s'.adjusts)
    ensures BooksOk(s') && OpsOk(s') && Grows(s, s')
    ensures forall a :: AdjustOk(s, a) ==> AdjustOk(s', a)
  {
    SideTables(s, s');
  }

  lemma {:induction false} SessionsKept(s: Sys, t: TableAction)
    ensures forall id :: id in s.sessions ==>
              id in ActTable(s, t).sessions && SameSession(s.sessions[id], ActTable(s, t).sessions[id])
  {
  }

  /** Administration leaves the rows of the invariant alone. */
  lemma {:induction false} TableRows(s: Sys, t: TableAction)
    ensures var s' := ActTable(s, t);
            OnlySideTables(s, s') && s'.workers == s.workers && s'.adjusts == s.adjusts
  {
    SessionsKept(s, t);
    hide SameSession;
  }

  lemma {:induction false} TableActOk(s: Sys, t: TableAction)
    requires Inv(s)
    ensures var s' := Act(s, Administer(t)); Inv(s') && Grows(s, s')
  {
    hide BooksOk, OpsOk, WorkerOk, AdjustOk, Grows, ActTable;
    TableRows(s, t);
    SideTables(s, ActTable(s, t));
    InvNext(s, ActTable(s, t));
  }

  lemma {:induction false} CrashOk(s: Sys, w: Worker)
    requires WorkerOk(s, w)
    ensures WorkerOk(s, w.(pc := Crashed))
  {
    hide Delivered, SameIntent, RequestOf;
  }

  lemma {:induction false} NewCallOk(s: Sys, a: Action)
    ensures a.CallSync? ==> WorkerOk(s, NewWorker(SyncJob(a.opId, a.userId), Load, None))
    ensures a.CallSale? && a.request.items != [] ==> WorkerOk(s, NewWorker(OnlineJob, ReadSession, Some(a.request)))
  {
  }

  lemma {:induction false} AdjustCallOk(s: Sys, a: Adjust)
    ensures AdjustOk(s, Adjust(a.k, a.delta, AReadVariant, false))
    ensures AdjustOk(s, a) ==> AdjustOk(s, a.(pc := ACrashed))
  {
  }

  /** A state that differs in one call of each table, each still in order. */
  lemma {:induction false} CallTablesOk(s: Sys, s': Sys)
    requires Inv(s) && s' == s.(workers := s'.workers, adjusts := s'.adjusts)
    requires forall i :: i in s'.workers ==>
               (i in s.workers && s'.workers[i] == s.workers[i]) || WorkerOk(s, s'.workers[i])
    requires forall c :: c in s'.adjusts ==>
               (c in s.adjusts && s'.adjusts[c] == s.adjusts[c]) || AdjustOk(s, s'.adjusts[c])
    ensures Inv(s') && Grows(s, s')
  {
    hide BooksOk, OpsOk, WorkerOk, AdjustOk, Grows;
    SideTables(s, s');
    forall i | i in s'.workers && WorkerOk(s, s'.workers[i])
      ensures WorkerOk(s', s'.workers[i])
    {
      WorkerStable(s, s', s'.workers[i]);
    }
    AdjustTable(s, s.(adjusts := s'.adjusts));
    AdjustReadsBooks(s.(adjusts := s'.adjusts), s');
    InvNext(s, s');
  }

  lemma {:induction false} AdjustReadsBooks(s: Sys, s': Sys)
    requires s'.books == s.books
    ensures forall a :: AdjustOk(s, a) ==> AdjustOk(s', a)
  {
  }

  lemma {:induction false} PutWorker(s: Sys, i: nat, w: Worker)
    requires Inv(s) && WorkerOk(s, w)
    ensures var s' := s.(workers := s.workers[i := w]); Inv(s') && Grows(s, s')
  {
    hide BooksOk, OpsOk, WorkerOk, AdjustOk, Grows;
    CallTablesOk(s, s.(workers := s.workers[i := w]));
  }

  lemma {:induction false} PutAdjust(s: Sys, c: nat, a: Adjust)
    requires Inv(s) && AdjustOk(s, a)
    ensures var s' := s.(adjusts := s.adjusts[c := a]); Inv(s') && Grows(s, s')
  {
    hide BooksOk, OpsOk, WorkerOk, AdjustOk, Grows;
    CallTablesOk(s, s.(adjusts := s.adjusts[c := a]));
  }

  /** New calls start in order, and a crash leaves them in order. */
  lemma {:induction false} CallActOk(s: Sys, a: Action)
    requires Inv(s) && (a.CallSync? || a.CallSale? || a.CrashWorker? || a.CallAdjust? || a.CrashAdjust?)
    ensures var s' := Act(s, a); Inv(s') && Grows(s, s')
  {
    hide BooksOk, OpsOk, WorkerOk, AdjustOk, Grows, NewWorker;
    Stutter(s);
    match a
    case CallSync(w, opId, userId) =>
      NewCallOk(s, a);
      PutWorker(s, w, NewWorker(SyncJob(opId, userId), Load, None));
    case CallSale(w, request) =>
      NewCallOk(s, a);
      if request.items != [] { PutWorker(s, w, NewWorker(OnlineJob, ReadSession, Some(request))); }
    case CrashWorker(w) =>
      if w in s.workers {
        CrashOk(s, s.workers[w]);
        PutWorker(s, w, s.workers[w].(pc := Crashed));
      }
    case CallAdjust(c, k, delta) =>
      AdjustCallOk(s, Adjust(k, delta, AReadVariant, false));
      PutAdjust(s, c, Adjust(k, delta, AReadVariant, false));
    case CrashAdjust(c) =>
      if c in s.adjusts {
        AdjustCallOk(s, s.adjusts[c]);
        PutAdjust(s, c, s.adjusts[c].(pc := ACrashed));
      }
    case _ =>
  }

  /** Main result: every action of every party keeps the invariant and only extends the rows. */
  lemma {:induction false} ActOk(s: Sys, a: Action)
    requires Inv(s)
    ensures Inv(Act(s, a)) && Grows(s, Act(s, a))
  {
    hide Inv, Grows, WorkerStep, AdjustStep, Step, Charged;
    if a.PublicCall? && Public(s, a.tx) {
      PublicCallOk(s, a.tx);
    } else if a.RecordIntent? && Recordable(s, a) {
      RecordIntentOk(s, a);
    } else if a.StepWorker? && a.w in s.workers {
      StepWorkerOk(s, a.w, a.choice);
    } else if a.StepAdjust? && a.c in s.adjusts {
      AdjustActOk(s, a.c);
    } else if a.PublicCall? || a.RecordIntent? || a.StepWorker? || a.StepAdjust? {
      Stutter(s);
    } else if a.Administer? {
      TableActOk(s, a.table);
    } else {
      CallActOk(s, a);
    }
  }

  lemma {:induction false} Stutter(s: Sys)
    ensures Grows(s, s)
  {
  }

  lemma {:induction false} ExecOk(s: Sys, acts: seq<Action>)
    requires Inv(s)
    ensures Inv(Exec(s, acts)) && Grows(s, Exec(s, acts))
  {
    hide Inv, Grows, Act;
    if acts == [] {
      Stutter(s);
    } else {
      var front := Exec(s, acts[..|acts| - 1]);
      ExecOk(s, acts[..|acts| - 1]);
      ActOk(front, acts[|acts| - 1]);
      GrowsTrans(s, front, Exec(s, acts));
    }
  }
}
