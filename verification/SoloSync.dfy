/** A sync call with nobody else at work, run step by step on the interleaving machine, is the
    sequential call the service methods implement. */
module SoloSync {
  import opened Schema
  import opened Ledger
  import opened OrderPayments
  import opened Database
  import opened StockLaws
  import opened Platform
  import opened PosFlows

  /** `n` steps of call `i` and of nobody else. */
  function Steps(s: Sys, i: nat, ch: Choice, n: nat): Sys
    decreases n
  {
    if n == 0 then s else Steps(Act(s, StepWorker(i, ch)), i, ch, n - 1)
  }

  lemma {:induction false} StepsAdd(s: Sys, i: nat, ch: Choice, a: nat, b: nat)
    ensures Steps(s, i, ch, a + b) == Steps(Steps(s, i, ch, a), i, ch, b)
    decreases a
  {
    hide Act;
    if a != 0 {
      StepsAdd(Act(s, StepWorker(i, ch)), i, ch, a - 1, b);
    }
  }

  /** Where a call stands: its rows and its own state, in surroundings that do not change. */
  ghost predicate Stands(s: Sys, t: Sys, i: nat, b: Books, ops: map<OpId, Operation>, w: Worker) {
    && t.books == b && t.ops == ops && i in t.workers && t.workers[i] == w
    && t.catalog == s.catalog && t.sessions == s.sessions && t.devices == s.devices
  }

  function AfterTx(b: Books, tx: Option<Tx>): Books { if tx.Some? then Step(b, tx.value) else b }

  lemma {:induction false} OneStep(s: Sys, i: nat, ch: Choice)
    requires i in s.workers
    ensures var e := WorkerStep(s, s.workers[i], ch);
            Stands(s, Act(s, StepWorker(i, ch)), i, AfterTx(s.books, e.tx), e.ops, e.worker)
  {
    hide WorkerStep, Step, Charged;
  }

  lemma {:induction false} Then(s: Sys, t: Sys, i: nat, ch: Choice, b: Books, ops: map<OpId, Operation>, w: Worker)
    requires Stands(s, t, i, b, ops, w)
    ensures var e := WorkerStep(t, w, ch);
            && Stands(s, Act(t, StepWorker(i, ch)), i, AfterTx(b, e.tx), e.ops, e.worker)
  {
    hide WorkerStep, AfterTx, Act;
    OneStep(t, i, ch);
  }

  /** The machine's device table of the sequential call's. */
  function ActiveFlags(devices: map<DeviceId, Device>): map<DeviceId, bool> {
    map d | d in devices :: devices[d].active
  }

  /** The machine's run ended as the sequential call does: same rows, same result or an error. */
  ghost predicate Mirrors(t: Sys, i: nat, out: SyncOutcome) {
    && t.books == out.books && t.ops == out.ops && i in t.workers
    && match out.result
       case Ok(r) => t.workers[i].pc == Returned && t.workers[i].result == Some(r)
       case Err(_) => t.workers[i].pc.Threw?
  }

  // ---------- admission: load, authorise, validate ----------

  function Loaded(w: Worker, op: Operation): Worker { w.(loaded := Some(op), request := Some(RequestOf(op))) }

  lemma {:induction false} LoadStep(s: Sys, i: nat, ch: Choice, w: Worker)
    requires i in s.workers && s.workers[i] == w && w.job.SyncJob? && w.pc == Load
    ensures var id := w.job.opId;
            Stands(s, Act(s, StepWorker(i, ch)), i, s.books, s.ops,
                   if id in s.ops then Loaded(w, s.ops[id]).(pc := Authorise) else w.(pc := Threw(OperationNotFound)))
  {
    OneStep(s, i, ch);
  }

  lemma {:induction false} AuthoriseStep(s: Sys, t: Sys, i: nat, ch: Choice, w: Worker)
    requires Stands(s, t, i, s.books, s.ops, w) && w.job.SyncJob? && w.pc == Authorise && w.loaded.Some?
    ensures Stands(s, Act(t, StepWorker(i, ch)), i, s.books, s.ops,
                   if !ch.authorised then w.(pc := Threw(Unauthorized))
                   else if w.loaded.value.userId != w.job.userId then w.(pc := Threw(OperationNotFound))
                   else if w.loaded.value.status != OpPending then w.(pc := Returned,
                                                                      result := Some(ResultOf(w.loaded.value)))
                   else w.(pc := Validate))
  {
    Then(s, t, i, ch, s.books, s.ops, w);
  }

  lemma {:induction false} ValidateStep(s: Sys, t: Sys, i: nat, ch: Choice, w: Worker)
    requires Stands(s, t, i, s.books, s.ops, w) && w.job.SyncJob? && w.pc == Validate
    ensures Stands(s, Act(t, StepWorker(i, ch)), i, s.books, s.ops,
                   if ch.verdict.Some? then w.(pc := Reject(ch.verdict.value)) else w.(pc := Claim))
  {
    Then(s, t, i, ch, s.books, s.ops, w);
  }

  // ---------- verdicts ----------

  lemma {:induction false} RejectAndReload(s: Sys, t: Sys, i: nat, ch: Choice, b: Books, ops: map<OpId, Operation>,
                                           w: Worker, code: Code)
    requires Stands(s, t, i, b, ops, w) && w.job.SyncJob? && w.pc == Reject(code) && w.job.opId in ops
    ensures var ops' := Rejected(ops, w.job.opId, code);
            Stands(s, Steps(t, i, ch, 2), i, b, ops', w.(pc := Returned, result := Some(ResultOf(ops'[w.job.opId]))))
  {
    Then(s, t, i, ch, b, ops, w);
    var t1, ops' := Act(t, StepWorker(i, ch)), Rejected(ops, w.job.opId, code);
    assert Stands(s, t1, i, b, ops', w.(pc := Reload));
    Then(s, t1, i, ch, b, ops', w.(pc := Reload));
    TwoSteps(t, i, ch);
  }

  lemma {:induction false} FinalizeAndReload(s: Sys, t: Sys, i: nat, ch: Choice, b: Books, ops: map<OpId, Operation>,
                                             w: Worker)
    requires Stands(s, t, i, b, ops, w) && w.job.SyncJob? && w.pc == Finalize && w.job.opId in ops && w.orderId.Some?
             && w.paymentId.Some?
    ensures var ops' := Accepted(ops, w.job.opId, w.orderId.value, w.paymentId.value);
            Stands(s, Steps(t, i, ch, 2), i, b, ops', w.(pc := Returned, result := Some(ResultOf(ops'[w.job.opId]))))
  {
    Then(s, t, i, ch, b, ops, w);
    var t1, ops' := Act(t, StepWorker(i, ch)), Accepted(ops, w.job.opId, w.orderId.value, w.paymentId.value);
    assert Stands(s, t1, i, b, ops', w.(pc := Reload));
    Then(s, t1, i, ch, b, ops', w.(pc := Reload));
    TwoSteps(t, i, ch);
  }

  lemma {:induction false} TwoSteps(t: Sys, i: nat, ch: Choice)
    ensures Steps(t, i, ch, 1) == Act(t, StepWorker(i, ch))
    ensures Steps(t, i, ch, 2) == Act(Act(t, StepWorker(i, ch)), StepWorker(i, ch))
  {
    hide Act;
    assert Steps(t, i, ch, 2) == Steps(Act(t, StepWorker(i, ch)), i, ch, 1);
  }

  // ---------- the claim ----------

  lemma {:induction false} ClaimStep(s: Sys, t: Sys, i: nat, ch: Choice, w: Worker)
    requires Stands(s, t, i, s.books, s.ops, w) && w.job.SyncJob? && w.pc == Claim
    ensures var id := w.job.opId;
            if Claimable(s.ops, id)
            then Stands(s, Act(t, StepWorker(i, ch)), i, s.books, s.ops[id := s.ops[id].(processedAt := Some(ch.now))],
                        w.(pc := ReadSession, claimed := true))
            else Stands(s, Act(t, StepWorker(i, ch)), i, s.books, s.ops, w.(pc := Poll))
  {
    Then(s, t, i, ch, s.books, s.ops, w);
  }

  /** Somebody else's claim: the call gives up, after releasing the claim if it is stale. */
  lemma {:induction false} PollOut(s: Sys, t: Sys, i: nat, ch: Choice, w: Worker) returns (n: nat)
    requires Stands(s, t, i, s.books, s.ops, w) && w.job.SyncJob? && w.pc == Poll && ch.pollOver
    requires w.job.opId in s.ops && s.ops[w.job.opId].status == OpPending
    ensures n <= 2 && i in Steps(t, i, ch, n).workers && Steps(t, i, ch, n).workers[i].pc == Threw(SyncInProgress)
    ensures Steps(t, i, ch, n).books == s.books
    ensures var id := w.job.opId;
            Steps(t, i, ch, n).ops == if Stale(s.ops[id], ch.now) then s.ops[id := s.ops[id].(processedAt := None)]
              else s.ops
  {
    Then(s, t, i, ch, s.books, s.ops, w);
    TwoSteps(t, i, ch);
    if Stale(s.ops[w.job.opId], ch.now) {
      Then(s, Act(t, StepWorker(i, ch)), i, ch, s.books, s.ops, w.(pc := Release));
      n := 2;
    } else {
      n := 1;
    }
  }

  // ---------- the engine ----------

  lemma {:induction false} SessionStep(s: Sys, t: Sys, i: nat, ch: Choice, ops: map<OpId, Operation>, w: Worker)
    requires Stands(s, t, i, s.books, ops, w) && w.pc == ReadSession && w.request.Some? && w.request.value.allowClosed
    ensures var sid := w.request.value.sessionId;
            Stands(s, Act(t, StepWorker(i, ch)), i, s.books, ops,
                   if sid in s.sessions then w.(pc := ReadDevice, session := Some(s.sessions[sid]))
                     else w.(pc := Threw(SessionNotFound)))
  {
    Then(s, t, i, ch, s.books, ops, w);
  }

  /** The device and cashier checks, as one error or none. */
  function DeviceRefusal(devices: map<DeviceId, bool>, session: Session, userId: UserId): Option<Error> {
    if session.deviceId !in devices then Some(SessionNotFound)
    else if !devices[session.deviceId] then Some(DeviceNotActive)
    else if session.userId != userId then Some(SessionNotFound)
    else None
  }

  lemma {:induction false} DeviceStep(s: Sys, t: Sys, i: nat, ch: Choice, ops: map<OpId, Operation>, w: Worker)
    requires Stands(s, t, i, s.books, ops, w) && w.pc == ReadDevice && w.request.Some? && w.session.Some?
    ensures var refusal := DeviceRefusal(s.devices, w.session.value, w.request.value.userId);
            Stands(s, Act(t, StepWorker(i, ch)), i, s.books, ops,
                   w.(pc := if refusal.Some? then Threw(refusal.value) else ReadCustomer))
  {
    Then(s, t, i, ch, s.books, ops, w);
  }

  lemma {:induction false} CustomerStep(s: Sys, t: Sys, i: nat, ch: Choice, ops: map<OpId, Operation>, w: Worker)
    requires Stands(s, t, i, s.books, ops, w) && w.pc == ReadCustomer && w.request.Some?
    ensures var c := w.request.value.customerId;
            Stands(s, Act(t, StepWorker(i, ch)), i, s.books, ops,
                   w.(pc := if c.Some? && c.value !in s.catalog.customers then Threw(CustomerNotFound) else OrderTx))
  {
    Then(s, t, i, ch, s.books, ops, w);
  }

  lemma {:induction false} OrderStep(s: Sys, t: Sys, i: nat, ch: Choice, ops: map<OpId, Operation>, w: Worker)
    requires Stands(s, t, i, s.books, ops, w) && w.pc == OrderTx && w.job.SyncJob? && w.request.Some? && w.session.Some?
    ensures var tx := CreateOrder(s.books, s.catalog, EngineOrderReq(w));
            Stands(s, Act(t, StepWorker(i, ch)), i, After(s.books, tx), ops,
                   match tx
                   case Committed(_, o) => w.(pc := PaymentTx, orderId := Some(o))
                   case Aborted(error) => w.(pc := if error == InsufficientStock then Reject(OUT_OF_STOCK)
                                             else Threw(error)))
  {
    Then(s, t, i, ch, s.books, ops, w);
    hide CreateOrder;
  }

  lemma {:induction false} PaymentStep(s: Sys, t: Sys, i: nat, ch: Choice, b: Books, ops: map<OpId, Operation>,
                                       w: Worker)
    requires Stands(s, t, i, b, ops, w) && w.pc == PaymentTx && w.request.Some? && w.session.Some? && w.orderId.Some?
    requires w.request.value.tender == Cash
    ensures var tx := CreatePayment(b, w.orderId.value, Cash);
            Stands(s, Act(t, StepWorker(i, ch)), i, After(b, tx), ops,
                   match tx
                   case Committed(_, p) => w.(pc := CaptureTx, paymentId := Some(p))
                   case Aborted(error) => w.(pc := Threw(error)))
  {
    Then(s, t, i, ch, b, ops, w);
    hide CreatePayment;
  }

  lemma {:induction false} CaptureStep(s: Sys, t: Sys, i: nat, ch: Choice, b: Books, ops: map<OpId, Operation>,
                                       w: Worker)
    requires Stands(s, t, i, b, ops, w) && w.pc == CaptureTx && w.request.Some? && w.session.Some? && w.paymentId.Some?
    ensures var tx := CapturePayment(b, w.paymentId.value);
            Stands(s, Act(t, StepWorker(i, ch)), i, After(b, tx), ops,
                   w.(pc := if tx.Committed? then ReadOrder else Threw(tx.error)))
  {
    Then(s, t, i, ch, b, ops, w);
    hide CapturePayment;
  }

  lemma {:induction false} ReadOrderStep(s: Sys, t: Sys, i: nat, ch: Choice, b: Books, ops: map<OpId, Operation>,
                                         w: Worker)
    requires Stands(s, t, i, b, ops, w) && w.pc == ReadOrder && w.request.Some? && w.orderId.Some?
    ensures Stands(s, Act(t, StepWorker(i, ch)), i, b, ops,
                   w.(pc := if w.orderId.value in b.orders then Provenance else Threw(OrderNotFound)))
  {
    Then(s, t, i, ch, b, ops, w);
  }

  lemma {:induction false} ProvenanceStep(s: Sys, t: Sys, i: nat, ch: Choice, b: Books, ops: map<OpId, Operation>,
                                          w: Worker)
    requires Stands(s, t, i, b, ops, w) && w.pc == Provenance && w.job.SyncJob? && w.request.Some? && w.session.Some?
    requires w.orderId.Some? && w.paymentId.Some?
    ensures var tx := InsertSale(b, w.orderId.value, SaleRow(w));
            Stands(s, Act(t, StepWorker(i, ch)), i, After(b, tx), ops,
                   w.(pc := if tx.Committed? then Finalize else Threw(tx.error)))
  {
    Then(s, t, i, ch, b, ops, w);
    hide InsertSale;
  }

  // ---------- phases ----------

  lemma {:induction false} StepsSnoc(t: Sys, i: nat, ch: Choice, n: nat)
    ensures Steps(t, i, ch, n + 1) == Act(Steps(t, i, ch, n), StepWorker(i, ch))
  {
    hide Act;
    StepsAdd(t, i, ch, n, 1);
    TwoSteps(Steps(t, i, ch, n), i, ch);
  }

  /** A sync call's engine run: the cash request of operation `op`. */
  ghost predicate Engine(w: Worker, op: Operation) {
    w.job.SyncJob? && w.request == Some(RequestOf(op)) && op.items != []
  }

  /** The call threw, leaving these rows. */
  ghost predicate Failed(t: Sys, i: nat, b: Books, ops: map<OpId, Operation>) {
    t.books == b && t.ops == ops && i in t.workers && t.workers[i].pc.Threw?
  }

  predicate CustomerMissing(cat: Catalog, op: Operation) {
    op.customerId.Some? && op.customerId.value !in cat.customers
  }

  lemma {:induction false} SameContext(s: Sys, devices: map<DeviceId, Device>, op: Operation)
    requires s.devices == ActiveFlags(devices)
    ensures ContextRefusal(s.sessions, devices, RequestOf(op), true)
            == if op.sessionId !in s.sessions then Some(SessionNotFound)
               else DeviceRefusal(s.devices, s.sessions[op.sessionId], op.userId)
  {
  }

  lemma {:induction false} EngineReads(s: Sys, t: Sys, i: nat, ch: Choice, ops: map<OpId, Operation>, w: Worker,
                                       devices: map<DeviceId, Device>, op: Operation) returns (n: nat)
    requires Stands(s, t, i, s.books, ops, w) && w.pc == ReadSession && Engine(w, op)
             && s.devices == ActiveFlags(devices)
    ensures n <= 3
    ensures if ContextRefusal(s.sessions, devices, RequestOf(op), true).Some? || CustomerMissing(s.catalog, op)
            then Failed(Steps(t, i, ch, n), i, s.books, ops)
            else op.sessionId in s.sessions
                 && Stands(s, Steps(t, i, ch, n), i, s.books, ops,
                           w.(pc := OrderTx, session := Some(s.sessions[op.sessionId])))
  {
    hide Act, DeviceRefusal, ContextRefusal, ActiveFlags;
    SameContext(s, devices, op);
    TwoSteps(t, i, ch);
    StepsSnoc(t, i, ch, 2);
    SessionStep(s, t, i, ch, ops, w);
    n := 1;
    if op.sessionId in s.sessions {
      var w1 := w.(pc := ReadDevice, session := Some(s.sessions[op.sessionId]));
      DeviceStep(s, Steps(t, i, ch, 1), i, ch, ops, w1);
      n := 2;
      if DeviceRefusal(s.devices, s.sessions[op.sessionId], op.userId).None? {
        CustomerStep(s, Steps(t, i, ch, 2), i, ch, ops, w1.(pc := ReadCustomer));
        n := 3;
      }
    }
  }

  /** Payment, capture, the order read and provenance, from a committed order. */
  lemma {:induction false} EngineRecords(s: Sys, t: Sys, i: nat, ch: Choice, b: Books, ops: map<OpId, Operation>,
                                         w: Worker, op: Operation, o: OrderId) returns (n: nat)
    requires Stands(s, t, i, b, ops, w) && w.pc == PaymentTx && Engine(w, op) && w.session.Some? && w.orderId == Some(o)
    ensures n <= 4
    ensures var sale := PayAndRecord(b, RequestOf(op), w.session.value, o);
            match sale.result
            case Ok((o', p)) => o' == o && Stands(s, Steps(t, i, ch, n), i, sale.books, ops,
                                                  w.(pc := Finalize, paymentId := Some(p)))
            case Err(_) => Failed(Steps(t, i, ch, n), i, sale.books, ops)
    ensures var sale := PayAndRecord(b, RequestOf(op), w.session.value, o);
            sale.result.Err? ==> sale.result.error != InsufficientStock
  {
    hide Act, CreatePayment, CapturePayment, InsertSale;
    PaymentErrors(b, o);
    TwoSteps(t, i, ch);
    StepsSnoc(t, i, ch, 2);
    StepsSnoc(t, i, ch, 3);
    PaymentStep(s, t, i, ch, b, ops, w);
    n := 1;
    var t5 := CreatePayment(b, o, Cash);
    if t5.Committed? {
      var w1 := w.(pc := CaptureTx, paymentId := Some(t5.id));
      CaptureErrors(t5.books, t5.id);
      CaptureStep(s, Steps(t, i, ch, 1), i, ch, t5.books, ops, w1);
      n := 2;
      var t2 := CapturePayment(t5.books, t5.id);
      if t2.Committed? {
        OrderStillThere(b, o);
        ReadOrderStep(s, Steps(t, i, ch, 2), i, ch, t2.books, ops, w1.(pc := ReadOrder));
        var w3 := w1.(pc := Provenance);
        ProvenanceStep(s, Steps(t, i, ch, 3), i, ch, t2.books, ops, w3);
        InsertErrors(t2.books, o, SaleRow(w3));
        n := 4;
      }
    }
  }

  lemma {:induction false} PaymentErrors(b: Books, o: OrderId)
    ensures var t5 := CreatePayment(b, o, Cash); t5.Aborted? ==> t5.error != InsufficientStock
  {
  }

  lemma {:induction false} CaptureErrors(b: Books, p: PaymentId)
    ensures var t2 := CapturePayment(b, p); t2.Aborted? ==> t2.error != InsufficientStock
  {
  }

  lemma {:induction false} InsertErrors(b: Books, o: OrderId, row: Sale)
    ensures var tx := InsertSale(b, o, row); tx.Aborted? ==> tx.error != InsufficientStock
  {
  }

  /** Paying and capturing an order leaves it in place. */
  lemma {:induction false} OrderStillThere(b: Books, o: OrderId)
    requires var t5 := CreatePayment(b, o, Cash); t5.Committed? && CapturePayment(t5.books, t5.id).Committed?
    ensures var t5 := CreatePayment(b, o, Cash); o in CapturePayment(t5.books, t5.id).books.orders
  {
  }

  /** The call returned the operation's row as it now stands. */
  ghost predicate Concluded(t: Sys, i: nat, b: Books, ops: map<OpId, Operation>, id: OpId) {
    && t.books == b && t.ops == ops && id in ops && i in t.workers
    && t.workers[i].pc == Returned && t.workers[i].result == Some(ResultOf(ops[id]))
  }

  /** How the call ends once the engine has: accepted, out of stock, or thrown. */
  ghost predicate Ended(t: Sys, i: nat, sale: SaleOutcome, ops: map<OpId, Operation>, id: OpId) {
    match sale.result
    case Ok((o, p)) => Concluded(t, i, sale.books, Accepted(ops, id, o, p), id)
    case Err(error) =>
      if error == InsufficientStock then Concluded(t, i, sale.books, Rejected(ops, id, OUT_OF_STOCK), id)
      else Failed(t, i, sale.books, ops)
  }

  /** From a committed order to the end of the call. */
  lemma {:induction false} EngineSells(s: Sys, t: Sys, i: nat, ch: Choice, b: Books, ops: map<OpId, Operation>,
                                       w: Worker, op: Operation, o: OrderId) returns (n: nat)
    requires Stands(s, t, i, b, ops, w) && w.pc == PaymentTx && Engine(w, op) && w.session.Some? && w.orderId == Some(o)
    requires w.job.opId in ops
    ensures Ended(Steps(t, i, ch, n), i, PayAndRecord(b, RequestOf(op), w.session.value, o), ops, w.job.opId)
  {
    hide Act, PayAndRecord, Rejected;
    n := EngineRecords(s, t, i, ch, b, ops, w, op, o);
    var sale := PayAndRecord(b, RequestOf(op), w.session.value, o);
    if sale.result.Ok? {
      var w' := w.(pc := Finalize, paymentId := Some(sale.result.value.1));
      FinalizeAndReload(s, Steps(t, i, ch, n), i, ch, sale.books, ops, w');
      StepsAdd(t, i, ch, n, 2);
      AcceptedHas(ops, w.job.opId, o, sale.result.value.1);
      n := n + 2;
    }
  }

  lemma {:induction false} AcceptedHas(ops: map<OpId, Operation>, id: OpId, o: OrderId, p: PaymentId)
    requires id in ops
    ensures id in Accepted(ops, id, o, p) && id in Rejected(ops, id, OUT_OF_STOCK)
  {
  }

  /** From the order transaction to the end of the call. */
  lemma {:induction false} EngineOrders(s: Sys, t: Sys, i: nat, ch: Choice, ops: map<OpId, Operation>, w: Worker,
                                        op: Operation)
    returns (n: nat)
    requires Stands(s, t, i, s.books, ops, w) && w.pc == OrderTx && Engine(w, op) && w.session.Some?
             && w.job.opId in ops
    ensures var tx := CreateOrder(s.books, s.catalog, EngineOrderReq(w));
            var sale := if tx.Committed? then PayAndRecord(tx.books, RequestOf(op), w.session.value, tx.id)
                        else SaleOutcome(s.books, Err(tx.error));
            Ended(Steps(t, i, ch, n), i, sale, ops, w.job.opId)
  {
    hide Act, CreateOrder, PayAndRecord, Accepted, Rejected;
    TwoSteps(t, i, ch);
    OrderStep(s, t, i, ch, ops, w);
    var tx, t1 := CreateOrder(s.books, s.catalog, EngineOrderReq(w)), Steps(t, i, ch, 1);
    n := 1;
    if tx.Committed? {
      var c := EngineSells(s, t1, i, ch, tx.books, ops, w.(pc := PaymentTx, orderId := Some(tx.id)), op, tx.id);
      StepsAdd(t, i, ch, 1, c);
      n := 1 + c;
    } else if tx.error == InsufficientStock {
      RejectAndReload(s, t1, i, ch, s.books, ops, w.(pc := Reject(OUT_OF_STOCK)), OUT_OF_STOCK);
      StepsAdd(t, i, ch, 1, 2);
      AcceptedHas(ops, w.job.opId, 0, 0);
      n := 3;
    }
  }

  /** The engine run, with the verdict or the acceptance that follows it. */
  lemma {:induction false} EngineAlone(s: Sys, t: Sys, i: nat, ch: Choice, ops: map<OpId, Operation>, w: Worker,
                                       devices: map<DeviceId, Device>, op: Operation) returns (n: nat)
    requires Stands(s, t, i, s.books, ops, w) && w.pc == ReadSession && Engine(w, op)
             && s.devices == ActiveFlags(devices)
    requires w.job.opId in ops
    ensures Ended(Steps(t, i, ch, n), i, CreateSale(s.books, s.catalog, s.sessions, devices, RequestOf(op), true), ops,
                  w.job.opId)
  {
    hide Act, CreateOrder, PayAndRecord, ContextRefusal, ActiveFlags, Accepted, Rejected, CreateSale;
    var a := EngineReads(s, t, i, ch, ops, w, devices, op);
    SaleAlone(s, devices, op);
    n := a;
    if ContextRefusal(s.sessions, devices, RequestOf(op), true).None? && !CustomerMissing(s.catalog, op) {
      var w1 := w.(pc := OrderTx, session := Some(s.sessions[op.sessionId]));
      var c := EngineOrders(s, Steps(t, i, ch, a), i, ch, ops, w1, op);
      StepsAdd(t, i, ch, a, c);
      n := a + c;
    }
  }

  /** The sequential engine, branch by branch. */
  lemma {:induction false} SaleAlone(s: Sys, devices: map<DeviceId, Device>, op: Operation)
    requires op.items != []
    ensures var sale := CreateSale(s.books, s.catalog, s.sessions, devices, RequestOf(op), true);
            var refusal := ContextRefusal(s.sessions, devices, RequestOf(op), true);
            if refusal.Some? then sale == SaleOutcome(s.books, Err(refusal.value)) && refusal.value != InsufficientStock
            else
              && op.sessionId in s.sessions
              && (CustomerMissing(s.catalog, op) ==> sale == SaleOutcome(s.books, Err(CustomerNotFound)))
              && (!CustomerMissing(s.catalog, op) ==>
                    var session := s.sessions[op.sessionId];
                    var tx := CreateOrder(s.books, s.catalog, OrderReq(op.userId, op.customerId, IntentLines(op.items),
                                                                       Store(session.storeId), None, None));
                    sale == if tx.Committed? then PayAndRecord(tx.books, RequestOf(op), session, tx.id)
                      else SaleOutcome(s.books, Err(tx.error)))
  {
    hide CreateOrder, PayAndRecord;
    assert IntentLines(op.items) != [];
  }

  // ---------- the whole call ----------

  /** The clock reading that decides: that of the claim, or of a poll that finds the claim stale. */
  ghost function Reading(op: Operation, now: Instant, clock: nat -> Instant): Instant {
    if op.processedAt.None? then now
    else if exists k: nat :: k < RESULT_POLL_MAX && Stale(op, clock(k)) then
      var k: nat :| k < RESULT_POLL_MAX && Stale(op, clock(k));
      clock(k)
    else clock(0)
  }

  /** What the sequential call reads for itself, as the machine's choices. */
  ghost function ChoiceOf(s: Sys, devices: map<DeviceId, Device>, id: OpId, caller: Caller, now: Instant,
                          clock: nat -> Instant): Choice {
    if id !in s.ops then Choice(false, None, now, true)
    else
      var op := s.ops[id];
      Choice(AuthorityRefusal(devices, op, caller).None?, IntentRefusal(s.books.stock, s.catalog, op),
             Reading(op, now, clock), true)
  }

  /** A call that starts and runs alone ends as the sequential call: the same rows, and the same result
      or an error. */
  lemma {:induction false} AloneIsSync(s: Sys, i: nat, id: OpId, devices: map<DeviceId, Device>, caller: Caller,
                                       now: Instant, clock: nat -> Instant)
    returns (n: nat)
    requires s.devices == ActiveFlags(devices) && i !in s.workers
    ensures Mirrors(Steps(Act(s, CallSync(i, id, caller.userId)), i, ChoiceOf(s, devices, id, caller, now, clock), n),
                    i,
                    SyncOperation(s.books, s.catalog, s.sessions, devices, s.ops, id, caller, now, clock))
  {
    hide AuthorityRefusal, IntentRefusal, CreateSale, ActiveFlags, Rejected;
    var s0 := Act(s, CallSync(i, id, caller.userId));
    var w0 := NewWorker(SyncJob(id, caller.userId), Load, None);
    var ch := ChoiceOf(s, devices, id, caller, now, clock);
    assert Stands(s0, s0, i, s.books, s.ops, w0);
    n := RunAlone(s0, i, id, devices, caller, now, clock, ch, w0);
  }

  lemma {:induction false} RunAlone(s: Sys, i: nat, id: OpId, devices: map<DeviceId, Device>, caller: Caller,
                                    now: Instant, clock: nat -> Instant, ch: Choice, w0: Worker)
    returns (n: nat)
    requires s.devices == ActiveFlags(devices) && Stands(s, s, i, s.books, s.ops, w0)
    requires w0 == NewWorker(SyncJob(id, caller.userId), Load, None)
    requires ch == ChoiceOf(s, devices, id, caller, now, clock)
    ensures Mirrors(Steps(s, i, ch, n), i, SyncOperation(s.books, s.catalog, s.sessions, devices, s.ops, id, caller,
                                                         now, clock))
  {
    hide Act, AuthorityRefusal, IntentRefusal, CreateSale, ActiveFlags, Rejected, Accepted;
    TwoSteps(s, i, ch);
    StepsSnoc(s, i, ch, 2);
    StepsSnoc(s, i, ch, 3);
    LoadStep(s, i, ch, w0);
    n := 1;
    if id in s.ops {
      var op := s.ops[id];
      var w1 := Loaded(w0, op).(pc := Authorise);
      AuthoriseStep(s, Steps(s, i, ch, 1), i, ch, w1);
      n := 2;
      if ch.authorised { OwnOperation(devices, op, caller); }
      if ch.authorised && op.status == OpPending {
        ValidateStep(s, Steps(s, i, ch, 2), i, ch, w1.(pc := Validate));
        n := AfterValidation(s, i, devices, op, caller, now, clock, ch, w1);
      }
    }
  }

  lemma {:induction false} OwnOperation(devices: map<DeviceId, Device>, op: Operation, caller: Caller)
    requires AuthorityRefusal(devices, op, caller).None?
    ensures op.userId == caller.userId
  {
  }

  /** A validated, pending operation of the caller, at the claim. */
  ghost predicate AtClaim(s: Sys, t: Sys, i: nat, devices: map<DeviceId, Device>, op: Operation, caller: Caller,
                          now: Instant, clock: nat -> Instant, ch: Choice, w: Worker)
  {
    && s.devices == ActiveFlags(devices) && w.job.SyncJob? && w.job.opId in s.ops && s.ops[w.job.opId] == op
    && op.status == OpPending
    && w.request == Some(RequestOf(op)) && ch == ChoiceOf(s, devices, w.job.opId, caller, now, clock)
    && AuthorityRefusal(devices, op, caller).None? && IntentRefusal(s.books.stock, s.catalog, op).None?
    && w.pc == Claim && Stands(s, t, i, s.books, s.ops, w)
  }

  lemma {:induction false} ClaimHeld(s: Sys, t: Sys, i: nat, devices: map<DeviceId, Device>, op: Operation,
                                     caller: Caller, now: Instant, clock: nat -> Instant, ch: Choice, w: Worker)
    returns (n: nat)
    requires AtClaim(s, t, i, devices, op, caller, now, clock, ch, w) && op.processedAt.Some?
    ensures Mirrors(Steps(t, i, ch, n), i, SyncOperation(s.books, s.catalog, s.sessions, devices, s.ops, w.job.opId,
                                                         caller, now, clock))
  {
    hide Act, AuthorityRefusal, IntentRefusal, ActiveFlags, Reading, Stale;
    TwoSteps(t, i, ch);
    ClaimStep(s, t, i, ch, w);
    var a := PollOut(s, Steps(t, i, ch, 1), i, ch, w.(pc := Poll));
    StepsAdd(t, i, ch, 1, a);
    n := 1 + a;
    PolledOnce(s.ops, w.job.opId, now, clock);
  }

  lemma {:induction false} ExecutesWhenClaimable(s: Sys, devices: map<DeviceId, Device>, op: Operation, id: OpId,
                                                 caller: Caller, now: Instant, clock: nat -> Instant)
    requires id in s.ops && s.ops[id] == op && op.status == OpPending && op.processedAt.None?
    requires AuthorityRefusal(devices, op, caller).None? && IntentRefusal(s.books.stock, s.catalog, op).None?
    ensures SyncOperation(s.books, s.catalog, s.sessions, devices, s.ops, id, caller, now, clock)
            == Execute(s.books, s.catalog, s.sessions, devices, s.ops, id, now)
  {
    hide AuthorityRefusal, IntentRefusal, Execute;
  }

  lemma {:induction false} ClaimWon(s: Sys, t: Sys, i: nat, devices: map<DeviceId, Device>, op: Operation,
                                    caller: Caller, now: Instant, clock: nat -> Instant, ch: Choice, w: Worker)
    returns (n: nat)
    requires AtClaim(s, t, i, devices, op, caller, now, clock, ch, w) && op.processedAt.None?
    ensures Mirrors(Steps(t, i, ch, n), i, SyncOperation(s.books, s.catalog, s.sessions, devices, s.ops, w.job.opId,
                                                         caller, now, clock))
  {
    NonEmptyIntent(s, op);
    ExecutesWhenClaimable(s, devices, op, w.job.opId, caller, now, clock);
    assert ch.now == now;
    hide AuthorityRefusal, IntentRefusal, ChoiceOf, Reading, Steps, SyncOperation, Execute, Mirrors, Stands, RequestOf,
         ActiveFlags;
    n := ExecutesAlone(s, t, i, devices, op, now, ch, w);
    EndedMirrors(Steps(t, i, ch, n), i, s, devices, op, w.job.opId, now);
  }

  lemma {:induction false} ExecutesAlone(s: Sys, t: Sys, i: nat, devices: map<DeviceId, Device>, op: Operation,
                                         now: Instant, ch: Choice, w: Worker)
    returns (n: nat)
    requires s.devices == ActiveFlags(devices) && Stands(s, t, i, s.books, s.ops, w) && w.pc == Claim && Engine(w, op)
    requires w.job.opId in s.ops && s.ops[w.job.opId] == op && op.status == OpPending && op.processedAt.None?
             && ch.now == now
    ensures Ended(Steps(t, i, ch, n), i, CreateSale(s.books, s.catalog, s.sessions, devices, RequestOf(op), true),
                  s.ops[w.job.opId := op.(processedAt := Some(now))], w.job.opId)
  {
    hide Act, CreateSale, ActiveFlags, Steps, Ended, Stands, RequestOf, Accepted, Rejected;
    var claimed := s.ops[w.job.opId := op.(processedAt := Some(now))];
    ClaimStep(s, t, i, ch, w);
    TwoSteps(t, i, ch);
    assert Stands(s, Steps(t, i, ch, 1), i, s.books, claimed, w.(pc := ReadSession, claimed := true));
    var a := EngineAlone(s, Steps(t, i, ch, 1), i, ch, claimed, w.(pc := ReadSession, claimed := true), devices, op);
    StepsAdd(t, i, ch, 1, a);
    n := 1 + a;
  }

  /** How the engine's end shows in the sequential call. */
  lemma {:induction false} EndedMirrors(u: Sys, i: nat, s: Sys, devices: map<DeviceId, Device>, op: Operation, id: OpId,
                                        now: Instant)
    requires id in s.ops && s.ops[id] == op
    requires Ended(u, i, CreateSale(s.books, s.catalog, s.sessions, devices, RequestOf(op), true),
                   s.ops[id := op.(processedAt := Some(now))], id)
    ensures Mirrors(u, i, Execute(s.books, s.catalog, s.sessions, devices, s.ops, id, now))
  {
    hide CreateSale, RequestOf, Accepted, Rejected;
  }

  /** How a rejection shows in the sequential call. */
  lemma {:induction false} RejectedMirrors(s: Sys, u: Sys, i: nat, devices: map<DeviceId, Device>, op: Operation,
                                           caller: Caller, now: Instant, clock: nat -> Instant, code: Code, w: Worker)
    requires w.job.SyncJob? && w.job.opId in s.ops && s.ops[w.job.opId] == op && op.status == OpPending
    requires AuthorityRefusal(devices, op, caller).None? && IntentRefusal(s.books.stock, s.catalog, op) == Some(code)
    requires w.pc == Returned && w.result == Some(ResultOf(Rejected(s.ops, w.job.opId, code)[w.job.opId]))
    requires Stands(s, u, i, s.books, Rejected(s.ops, w.job.opId, code), w)
    ensures Mirrors(u, i, SyncOperation(s.books, s.catalog, s.sessions, devices, s.ops, w.job.opId, caller, now, clock))
  {
    hide AuthorityRefusal, IntentRefusal, Execute, AfterPolling;
  }

  /** From the claim to the end of the call. */
  lemma {:induction false} AfterAdmission(s: Sys, t: Sys, i: nat, devices: map<DeviceId, Device>, op: Operation,
                                          caller: Caller, now: Instant, clock: nat -> Instant, ch: Choice, w: Worker)
    returns (n: nat)
    requires AtClaim(s, t, i, devices, op, caller, now, clock, ch, w)
    ensures Mirrors(Steps(t, i, ch, n), i, SyncOperation(s.books, s.catalog, s.sessions, devices, s.ops, w.job.opId,
                                                         caller, now, clock))
  {
    hide AtClaim, Mirrors, Steps, SyncOperation;
    if op.processedAt.Some? {
      n := ClaimHeld(s, t, i, devices, op, caller, now, clock, ch, w);
    } else {
      n := ClaimWon(s, t, i, devices, op, caller, now, clock, ch, w);
    }
  }

  lemma {:induction false} AfterValidation(s: Sys, i: nat, devices: map<DeviceId, Device>, op: Operation,
                                           caller: Caller, now: Instant, clock: nat -> Instant, ch: Choice, w1: Worker)
    returns (n: nat)
    requires s.devices == ActiveFlags(devices) && w1.job.SyncJob? && w1.job.opId in s.ops && s.ops[w1.job.opId] == op
             && op.status == OpPending
    requires w1.request == Some(RequestOf(op)) && ch == ChoiceOf(s, devices, w1.job.opId, caller, now, clock)
    requires AuthorityRefusal(devices, op, caller).None?
    requires Stands(s, Steps(s, i, ch, 3), i, s.books, s.ops,
                    if ch.verdict.Some? then w1.(pc := Reject(ch.verdict.value)) else w1.(pc := Claim))
    ensures Mirrors(Steps(s, i, ch, n), i, SyncOperation(s.books, s.catalog, s.sessions, devices, s.ops, w1.job.opId,
                                                         caller, now, clock))
  {
    hide Steps, Stands, Mirrors, SyncOperation, AuthorityRefusal, IntentRefusal, ChoiceOf, RequestOf, ActiveFlags;
    var t := Steps(s, i, ch, 3);
    VerdictOfChoice(s, devices, w1.job.opId, caller, now, clock);
    if ch.verdict.Some? {
      AfterVerdict(s, t, i, devices, op, caller, now, clock, ch, w1);
      StepsAdd(s, i, ch, 3, 2);
      n := 5;
    } else {
      var a := AfterAdmission(s, t, i, devices, op, caller, now, clock, ch, w1.(pc := Claim));
      StepsAdd(s, i, ch, 3, a);
      n := 3 + a;
    }
  }

  lemma {:induction false} VerdictOfChoice(s: Sys, devices: map<DeviceId, Device>, id: OpId, caller: Caller,
                                           now: Instant, clock: nat -> Instant)
    requires id in s.ops
    ensures ChoiceOf(s, devices, id, caller, now, clock).verdict == IntentRefusal(s.books.stock, s.catalog, s.ops[id])
  {
    hide IntentRefusal, AuthorityRefusal, Reading;
  }

  /** A rejected call ends as the sequential one. */
  lemma {:induction false} AfterVerdict(s: Sys, t: Sys, i: nat, devices: map<DeviceId, Device>, op: Operation,
                                        caller: Caller, now: Instant, clock: nat -> Instant, ch: Choice, w1: Worker)
    requires w1.job.SyncJob? && w1.job.opId in s.ops && s.ops[w1.job.opId] == op && op.status == OpPending
    requires AuthorityRefusal(devices, op, caller).None?
    requires ch.verdict.Some? && ch.verdict == IntentRefusal(s.books.stock, s.catalog, op)
    requires Stands(s, t, i, s.books, s.ops, w1.(pc := Reject(ch.verdict.value)))
    ensures Mirrors(Steps(t, i, ch, 2), i,
                    SyncOperation(s.books, s.catalog, s.sessions, devices, s.ops, w1.job.opId, caller, now, clock))
  {
    hide SyncOperation, Mirrors, Stands, Steps, AuthorityRefusal, IntentRefusal;
    var code, id := ch.verdict.value, w1.job.opId;
    RejectAndReload(s, t, i, ch, s.books, s.ops, w1.(pc := Reject(code)), code);
    var w := w1.(pc := Returned, result := Some(ResultOf(Rejected(s.ops, id, code)[id])));
    hide Rejected, ResultOf;
    RejectedMirrors(s, Steps(t, i, ch, 2), i, devices, op, caller, now, clock, code, w);
  }

  lemma {:induction false} PolledOnce(ops: map<OpId, Operation>, id: OpId, now: Instant, clock: nat -> Instant)
    requires id in ops && ops[id].processedAt.Some?
    ensures AfterPolling(ops, id, clock)
            == if Stale(ops[id], Reading(ops[id], now, clock)) then ops[id := ops[id].(processedAt := None)] else ops
  {
  }

  lemma {:induction false} NonEmptyIntent(s: Sys, op: Operation)
    requires IntentRefusal(s.books.stock, s.catalog, op).None?
    ensures op.items != []
  {
  }
}
