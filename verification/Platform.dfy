/** The running platform: any number of sync calls, online sales and stock adjustments in
    flight at once, each advancing one Prisma call or one `$transaction` at a time, with the
    public order and payment calls, catalogue changes and crashes in between. */
module Platform {
  import opened Schema
  import opened Ledger
  import opened OrderPayments
  import opened StockLaws

  // ---------- calls in flight ----------

  datatype SaleRequest = SaleRequest(userId: UserId, sessionId: SessionId, items: seq<Line>,
                                     customerId: Option<CustomerId>, bookingId: Option<BookingId>,
                                     tender: Method, allowClosed: bool)

  datatype SyncResult = SyncResult(status: OpStatus, resultCode: Option<Code>,
                                   orderId: Option<OrderId>, paymentId: Option<PaymentId>)

  /** Where a sync or sale call stands: the next Prisma call it will make. */
  datatype Pc =
    | Load | Authorise | Validate | Reject(code: Code) | Reload | Claim | Poll | Release
    | ReadSession | ReadDevice | ReadCustomer | OrderTx | PaymentTx | CaptureTx | ReadOrder | Provenance
    | Finalize | Returned | Threw(error: Error) | Crashed

  datatype Job = SyncJob(opId: OpId, userId: UserId) | OnlineJob

  datatype Worker = Worker(job: Job, pc: Pc, loaded: Option<Operation>, request: Option<SaleRequest>,
                           session: Option<Session>, orderId: Option<OrderId>, paymentId: Option<PaymentId>,
                           claimed: bool, released: bool, result: Option<SyncResult>)

  datatype AdjustPc = AReadVariant | AReadStore | AUpdate | AReadBack | AReadExisting | ACreate | ARetry
                    | ASucceeded | AFailed(error: Error) | ACrashed

  /** An adjustment call; `applied` records that its write was committed. */
  datatype Adjust = Adjust(k: StockKey, delta: int, pc: AdjustPc, applied: bool)

  datatype Sys = Sys(books: Books, catalog: Catalog, sessions: map<SessionId, Session>,
                     devices: map<DeviceId, bool>, ops: map<OpId, Operation>,
                     workers: map<nat, Worker>, adjusts: map<nat, Adjust>, charged: map<OrderId, Pool>)

  /** What a step may read from outside the rows: authority and validation verdicts (their
      reads are spread over several calls, so any verdict is possible), the clock, and whether
      polling has run out. */
  datatype Choice = Choice(authorised: bool, verdict: Option<Code>, now: Instant, pollOver: bool)

  const CLAIM_STALENESS_MS: int := 300000

  function ResultOf(op: Operation): SyncResult {
    SyncResult(op.status, op.resultCode, op.resultOrderId, op.resultPaymentId)
  }

  function IntentLines(items: seq<IntentLine>): seq<Line> {
    seq(|items|, i requires 0 <= i < |items| => Line(items[i].variantId, items[i].quantity))
  }

  /** The sale a sync call asks the engine for: cash only, the recorded cashier and session. */
  function RequestOf(op: Operation): SaleRequest {
    SaleRequest(op.userId, op.sessionId, IntentLines(op.items), op.customerId, None, Cash, true)
  }

  // ---------- one step of a sync or sale call ----------

  datatype Effect = Effect(tx: Option<Tx>, ops: map<OpId, Operation>, worker: Worker)

  /** posOperation.updateMany where status is PENDING: persist a rejection. */
  function Rejected(ops: map<OpId, Operation>, id: OpId, code: Code): map<OpId, Operation> {
    if id in ops && ops[id].status == OpPending then
      ops[id := ops[id].(status := OpRejected, resultCode := Some(code))]
    else ops
  }

  predicate Claimable(ops: map<OpId, Operation>, id: OpId) {
    id in ops && ops[id].status == OpPending && ops[id].processedAt.None?
  }

  function Accepted(ops: map<OpId, Operation>, id: OpId, o: OrderId, p: PaymentId): map<OpId, Operation> {
    if id in ops && ops[id].status == OpPending then
      ops[id := ops[id].(status := OpAccepted, resultCode := None, resultOrderId := Some(o),
                         resultPaymentId := Some(p))]
    else ops
  }

  predicate Releasable(ops: map<OpId, Operation>, id: OpId) {
    id in ops && ops[id].status == OpPending
  }

  predicate Stale(op: Operation, now: Instant) {
    op.processedAt.Some? && now - op.processedAt.value > CLAIM_STALENESS_MS
  }

  /** The protocol part of a sync call (PosSyncService.syncOperation). */
  function ProtocolStep(s: Sys, w: Worker, ch: Choice): Effect
    requires w.job.SyncJob?
  {
    var id := w.job.opId;
    match w.pc
    case Load =>
      if id in s.ops then
        Effect(None, s.ops, w.(pc := Authorise, loaded := Some(s.ops[id]), request := Some(RequestOf(s.ops[id]))))
      else Effect(None, s.ops, w.(pc := Threw(OperationNotFound)))
    case Authorise =>
      if !ch.authorised then Effect(None, s.ops, w.(pc := Threw(Unauthorized)))
      else if w.loaded.None? || w.loaded.value.userId != w.job.userId then
        Effect(None, s.ops, w.(pc := Threw(OperationNotFound)))
      else if w.loaded.value.status != OpPending then
        Effect(None, s.ops, w.(pc := Returned, result := Some(ResultOf(w.loaded.value))))
      else Effect(None, s.ops, w.(pc := Validate))
    case Validate =>
      if ch.verdict.Some? then Effect(None, s.ops, w.(pc := Reject(ch.verdict.value)))
      else Effect(None, s.ops, w.(pc := Claim))
    case Reject(code) => Effect(None, Rejected(s.ops, id, code), w.(pc := Reload))
    case Claim =>
      if Claimable(s.ops, id) then
        Effect(None, s.ops[id := s.ops[id].(processedAt := Some(ch.now))], w.(pc := ReadSession, claimed := true))
      else Effect(None, s.ops, w.(pc := Poll))
    case Poll =>
      if id in s.ops && s.ops[id].status != OpPending then
        Effect(None, s.ops, w.(pc := Returned, result := Some(ResultOf(s.ops[id]))))
      else if id in s.ops && Stale(s.ops[id], ch.now) then Effect(None, s.ops, w.(pc := Release))
      else if ch.pollOver then Effect(None, s.ops, w.(pc := Threw(SyncInProgress)))
      else Effect(None, s.ops, w)
    case Release =>
      if Releasable(s.ops, id) then
        Effect(None, s.ops[id := s.ops[id].(processedAt := None)], w.(pc := Threw(SyncInProgress), released := true))
      else Effect(None, s.ops, w.(pc := Threw(SyncInProgress)))
    case Finalize =>
      if w.orderId.Some? && w.paymentId.Some? then
        Effect(None, Accepted(s.ops, id, w.orderId.value, w.paymentId.value), w.(pc := Reload))
      else Effect(None, s.ops, w)
    case Reload =>
      if id in s.ops then Effect(None, s.ops, w.(pc := Returned, result := Some(ResultOf(s.ops[id]))))
      else Effect(None, s.ops, w.(pc := Threw(OperationNotFound)))
    case _ => Effect(None, s.ops, w)
  }

  /** The engine's reads before its first transaction (PosSaleService.createSale). */
  function EngineRead(s: Sys, w: Worker): Effect
    requires w.request.Some?
  {
    var req := w.request.value;
    var stay := (pc: Pc) => Effect(None, s.ops, w.(pc := pc));
    match w.pc
    case ReadSession =>
      if req.sessionId !in s.sessions then stay(Threw(SessionNotFound))
      else if !s.sessions[req.sessionId].open && !req.allowClosed then stay(Threw(SessionNotOpen))
      else Effect(None, s.ops, w.(pc := ReadDevice, session := Some(s.sessions[req.sessionId])))
    case ReadDevice =>
      if w.session.None? || w.session.value.deviceId !in s.devices then stay(Threw(SessionNotFound))
      else if !s.devices[w.session.value.deviceId] then stay(Threw(DeviceNotActive))
      else if w.session.value.userId != req.userId then stay(Threw(SessionNotFound))
      else stay(ReadCustomer)
    case ReadCustomer =>
      if req.customerId.Some? && req.customerId.value !in s.catalog.customers then stay(Threw(CustomerNotFound))
      else stay(OrderTx)
    case ReadOrder =>
      if w.orderId.Some? && w.orderId.value in s.books.orders then stay(Provenance) else stay(Threw(OrderNotFound))
    case _ => stay(w.pc)
  }

  function EngineOrderReq(w: Worker): OrderReq
    requires w.request.Some? && w.session.Some?
  {
    var req := w.request.value;
    OrderReq(req.userId, req.customerId, req.items, Store(w.session.value.storeId), None, None)
  }

  function SaleRow(w: Worker): Sale
    requires w.request.Some? && w.session.Some? && w.paymentId.Some?
  {
    var session := w.session.value;
    Sale(w.paymentId.value, w.request.value.sessionId, session.deviceId, session.storeId, session.userId)
  }

  /** The engine's writes: T1 order, T5 payment, T2 capture, then the provenance row. */
  function EngineWrite(s: Sys, w: Worker): Effect
    requires w.request.Some? && w.session.Some?
  {
    match w.pc
    case OrderTx =>
      var tx := TxCreateOrder(s.catalog, EngineOrderReq(w));
      (match Apply(s.books, tx)
       case Committed(_, o) => Effect(Some(tx), s.ops, w.(pc := PaymentTx, orderId := Some(o)))
       case Aborted(error) =>
         if error == InsufficientStock && w.job.SyncJob? then Effect(Some(tx), s.ops, w.(pc := Reject(OUT_OF_STOCK)))
         else Effect(Some(tx), s.ops, w.(pc := Threw(error))))
    case PaymentTx =>
      if w.orderId.None? then Effect(None, s.ops, w)
      else
        var tx := TxCreatePayment(w.orderId.value, w.request.value.tender);
        (match Apply(s.books, tx)
         case Committed(_, p) =>
           Effect(Some(tx), s.ops, w.(pc := if w.request.value.tender == Cash then CaptureTx else Provenance,
                                      paymentId := Some(p)))
         case Aborted(error) => Effect(Some(tx), s.ops, w.(pc := Threw(error))))
    case CaptureTx =>
      if w.paymentId.None? then Effect(None, s.ops, w)
      else
        var tx := TxCapturePayment(w.paymentId.value);
        (match Apply(s.books, tx)
         case Committed(_, _) => Effect(Some(tx), s.ops, w.(pc := ReadOrder))
         case Aborted(error) => Effect(Some(tx), s.ops, w.(pc := Threw(error))))
    case Provenance =>
      if w.orderId.None? || w.paymentId.None? then Effect(None, s.ops, w)
      else
        var tx := TxInsertSale(w.orderId.value, SaleRow(w));
        (match Apply(s.books, tx)
         case Committed(_, _) => Effect(Some(tx), s.ops, w.(pc := if w.job.SyncJob? then Finalize else Returned))
         case Aborted(error) => Effect(Some(tx), s.ops, w.(pc := Threw(error))))
    case _ => Effect(None, s.ops, w)
  }

  function WorkerStep(s: Sys, w: Worker, ch: Choice): Effect {
    if w.pc.Load? || w.pc.Authorise? || w.pc.Validate? || w.pc.Reject? || w.pc.Claim? || w.pc.Poll? || w.pc.Release?
       || w.pc.Finalize? || w.pc.Reload?
    then if w.job.SyncJob? then ProtocolStep(s, w, ch) else Effect(None, s.ops, w)
    else if w.pc.OrderTx? || w.pc.PaymentTx? || w.pc.CaptureTx? || w.pc.Provenance?
    then if w.request.Some? && w.session.Some? then EngineWrite(s, w) else Effect(None, s.ops, w)
    else if w.request.Some? then EngineRead(s, w)
    else Effect(None, s.ops, w)
  }

  // ---------- one step of an adjustment (InventoryService.adjustScoped) ----------

  function AdjustStep(s: Sys, a: Adjust): (Option<Tx>, Adjust) {
    match a.pc
    case AReadVariant =>
      (None, a.(pc := if a.k.variantId in s.catalog.variants then AReadStore else AFailed(VariantNotFound)))
    case AReadStore =>
      (None, a.(pc := if a.k.pool.Global? || a.k.pool.storeId in s.catalog.stores then AUpdate
                else AFailed(StoreNotFound)))
    case AUpdate =>
      (Some(TxIncrement(a.k, a.delta)),
       if Increment(s.books, a.k, a.delta).Committed? then a.(pc := AReadBack, applied := true)
         else a.(pc := AReadExisting))
    case AReadBack =>
      (None, a.(pc := if a.k in s.books.stock then ASucceeded else AFailed(InsufficientStock)))
    case AReadExisting =>
      (None, a.(pc := if a.k in s.books.stock || a.delta < 0 then AFailed(InsufficientStock) else ACreate))
    case ACreate =>
      (Some(TxCreateStock(a.k, a.delta)),
       if CreateStock(s.books, a.k, a.delta).Committed? then a.(pc := ASucceeded, applied := true)
         else a.(pc := ARetry))
    case ARetry =>
      (Some(TxIncrement(a.k, a.delta)),
       if Increment(s.books, a.k, a.delta).Committed? then a.(pc := AReadBack, applied := true)
       else a.(pc := AFailed(InsufficientStock)))
    case _ => (None, a)
  }

  // ---------- actions ----------

  /** Administration of the surrounding tables: any catalogue, any cart contents. */
  datatype TableAction =
    | SetCatalog(catalog: Catalog)
    | SetCarts(carts: seq<Cart>)
    | AddBooking(bookingId: BookingId)
    | OpenSession(sessionId: SessionId, session: Session)
    | CloseSession(sessionId: SessionId)
    | SetDevice(deviceId: DeviceId, active: bool)

  datatype Action =
    | PublicCall(tx: Tx)
    | Administer(table: TableAction)
    | RecordIntent(id: OpId, sessionId: SessionId, userId: UserId, clientUuid: nat, seqNo: nat,
                   customerId: Option<CustomerId>, items: seq<IntentLine>)
    | CallSync(w: nat, opId: OpId, userId: UserId)
    | CallSale(w: nat, request: SaleRequest)
    | StepWorker(w: nat, choice: Choice)
    | CrashWorker(w: nat)
    | CallAdjust(c: nat, k: StockKey, delta: int)
    | StepAdjust(c: nat)
    | CrashAdjust(c: nat)

  function Commit(s: Sys, tx: Option<Tx>): Sys {
    if tx.None? then s
    else s.(books := Step(s.books, tx.value), charged := Charged(s.books, s.charged, tx.value))
  }

  /** The order and payment endpoints: orders placed here always use the global pool. */
  predicate Public(s: Sys, tx: Tx) {
    match tx
    case TxCreateOrder(cat, req) => cat == s.catalog && req.pool == Global
    case TxInsertSale(_, _) => false
    case TxIncrement(_, _) => false
    case TxCreateStock(_, _) => false
    case _ => true
  }

  /** An intent is recorded once per (device, client uuid); its provenance comes from the session
      of the caller (PosOperationService.recordOfflineSaleIntent). */
  predicate Recordable(s: Sys, a: Action)
    requires a.RecordIntent?
  {
    && a.id !in s.ops && a.items != []
    && a.sessionId in s.sessions && s.sessions[a.sessionId].userId == a.userId
    && forall x :: x in s.ops && s.ops[x].deviceId == s.sessions[a.sessionId].deviceId ==>
         s.ops[x].clientUuid != a.clientUuid && s.ops[x].seqNo != a.seqNo
  }

  function NewOperation(s: Sys, a: Action): Operation
    requires a.RecordIntent? && a.sessionId in s.sessions
  {
    var session := s.sessions[a.sessionId];
    Operation(session.deviceId, a.sessionId, session.storeId, session.userId, a.clientUuid, a.seqNo, a.customerId,
              a.items, OpPending, None, None, None, None)
  }

  function NewWorker(job: Job, pc: Pc, request: Option<SaleRequest>): Worker {
    Worker(job, pc, None, request, None, None, None, false, false, None)
  }

  function ActTable(s: Sys, t: TableAction): Sys {
    match t
    case SetCatalog(catalog) => s.(catalog := catalog)
    case SetCarts(carts) => s.(books := s.books.(carts := carts))
    case AddBooking(id) =>
      if id in s.books.bookings then s else s.(books := s.books.(bookings := s.books.bookings[id := None]))
    case OpenSession(id, session) =>
      if id in s.sessions then s else s.(sessions := s.sessions[id := session.(open := true)])
    case CloseSession(id) =>
      if id in s.sessions then s.(sessions := s.sessions[id := s.sessions[id].(open := false)]) else s
    case SetDevice(id, active) => s.(devices := s.devices[id := active])
  }

  function Act(s: Sys, a: Action): Sys {
    match a
    case PublicCall(tx) => if Public(s, tx) then Commit(s, Some(tx)) else s
    case Administer(table) => ActTable(s, table)
    case RecordIntent(id, _, _, _, _, _, _) =>
      if Recordable(s, a) then s.(ops := s.ops[id := NewOperation(s, a)]) else s
    case CallSync(w, opId, userId) =>
      if w in s.workers then s else s.(workers := s.workers[w := NewWorker(SyncJob(opId, userId), Load, None)])
    case CallSale(w, request) =>
      if w in s.workers || request.allowClosed || request.items == [] then s
      else s.(workers := s.workers[w := NewWorker(OnlineJob, ReadSession, Some(request))])
    case StepWorker(w, choice) =>
      if w !in s.workers then s
      else
        var e := WorkerStep(s, s.workers[w], choice);
        Commit(s, e.tx).(ops := e.ops, workers := s.workers[w := e.worker])
    case CrashWorker(w) =>
      if w in s.workers && !s.workers[w].pc.Returned? && !s.workers[w].pc.Threw?
      then s.(workers := s.workers[w := s.workers[w].(pc := Crashed)]) else s
    case CallAdjust(c, k, delta) =>
      if c in s.adjusts || delta == 0 then s else s.(adjusts := s.adjusts[c := Adjust(k, delta, AReadVariant, false)])
    case StepAdjust(c) =>
      if c !in s.adjusts then s
      else
        var e := AdjustStep(s, s.adjusts[c]);
        Commit(s, e.0).(adjusts := s.adjusts[c := e.1])
    case CrashAdjust(c) =>
      if c in s.adjusts && !s.adjusts[c].pc.ASucceeded? && !s.adjusts[c].pc.AFailed?
      then s.(adjusts := s.adjusts[c := s.adjusts[c].(pc := ACrashed)]) else s
  }

  function Exec(s: Sys, acts: seq<Action>): Sys
  {
    if acts == [] then s else Act(Exec(s, acts[..|acts| - 1]), acts[|acts| - 1])
  }

  /** A platform on which nothing has been ordered, recorded or called yet. */
  predicate Init(s: Sys) {
    && s.books.stock == map[] && s.books.orders == map[] && s.books.payments == map[] && s.books.sales == map[]
    && s.ops == map[] && s.workers == map[] && s.adjusts == map[] && s.charged == map[]
  }
}
