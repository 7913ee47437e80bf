/** What the point-of-sale calls compute when one caller runs them alone: the sale engine,
    the intent validation and the sync call. */
module PosFlows {
  import opened Schema
  import opened Lines
  import opened Ledger
  import opened Database
  import opened Orders
  import opened Platform

  // ---------- what the calls compute ----------

  datatype SaleOutcome = SaleOutcome(books: Books, result: Result<(OrderId, PaymentId)>)

  /** Why the engine refuses before its first transaction, if it does. */
  function ContextRefusal(sessions: map<SessionId, Session>, devices: map<DeviceId, Device>, req: SaleRequest,
                          offline: bool): Option<Error>
  {
    if offline && req.tender != Cash then Some(OfflineNotCash)
    else if req.sessionId !in sessions then Some(SessionNotFound)
    else
      var session := sessions[req.sessionId];
      if !session.open && !req.allowClosed then Some(SessionNotOpen)
      else if session.deviceId !in devices then Some(SessionNotFound)
      else if !devices[session.deviceId].active then Some(DeviceNotActive)
      else if session.userId != req.userId then Some(SessionNotFound)
      else None
  }

  /** Payment, capture when cash, and provenance of an order that has just been created. */
  function PayAndRecord(b: Books, req: SaleRequest, session: Session, o: OrderId): SaleOutcome {
    match CreatePayment(b, o, req.tender)
    case Aborted(error) => SaleOutcome(b, Err(error))
    case Committed(b1, p) =>
      var capture := if req.tender == Cash then CapturePayment(b1, p) else Committed(b1, p);
      if capture.Aborted? then SaleOutcome(b1, Err(capture.error))
      else
        match InsertSale(capture.books, o, Sale(p, req.sessionId, session.deviceId, session.storeId, session.userId))
        case Aborted(error) => SaleOutcome(capture.books, Err(error))
        case Committed(b3, _) => SaleOutcome(b3, Ok((o, p)))
  }

  /** The engine: four transactions, each kept once committed. */
  function CreateSale(b: Books, cat: Catalog, sessions: map<SessionId, Session>, devices: map<DeviceId, Device>,
                      req: SaleRequest, offline: bool): SaleOutcome
  {
    var refusal := ContextRefusal(sessions, devices, req, offline);
    if refusal.Some? then SaleOutcome(b, Err(refusal.value))
    else
      var session := sessions[req.sessionId];
      match PlaceOrder(b, cat, req.userId, CreateOrderDto(req.items, req.customerId, req.bookingId),
                       CreateOrderOptions(Store(session.storeId), None))
      case Aborted(error) => SaleOutcome(b, Err(error))
      case Committed(b1, o) => PayAndRecord(b1, req, session, o)
  }

  /** The current amount of a variant in a currency; a later row overwrites an earlier one. */
  function LastAmount(prices: seq<Price>, v: VariantId, c: Currency): Option<int>
  {
    if prices == [] then None
    else
      var last := prices[|prices| - 1];
      if last.variantId == v && last.currency == c then Some(last.amountMinor)
      else LastAmount(prices[..|prices| - 1], v, c)
  }

  /** The verdict on the first `n` intent lines: one currency, current price equal to the observed one. */
  function LineRefusal(prices: seq<Price>, items: seq<IntentLine>, n: nat): Option<Code>
    requires n <= |items|
  {
    if n == 0 then None
    else if LineRefusal(prices, items, n - 1).Some? then LineRefusal(prices, items, n - 1)
    else
      var line := items[n - 1];
      var amount := LastAmount(prices, line.variantId, line.currency);
      if line.currency != items[0].currency then Some(CURRENCY_MIX)
      else if amount.None? then Some(PRICE_NOT_FOUND)
      else if amount.value != line.observedUnitAmountMinor then Some(PRICE_CHANGED)
      else None
  }

  /** The typed rejection of an intent on the current server state, or none when it is executable. */
  function IntentRefusal(stock: map<StockKey, int>, cat: Catalog, op: Operation): Option<Code> {
    var lines := IntentLines(op.items);
    if op.items == [] then Some(EMPTY_INTENT)
    else if exists v :: v in Keys(lines) && v !in cat.variants then Some(VARIANT_NOT_FOUND)
    else if exists v :: v in Keys(lines) && !cat.variants[v] then Some(VARIANT_NOT_ACTIVE)
    else if LineRefusal(cat.prices, op.items, |op.items|).Some? then LineRefusal(cat.prices, op.items, |op.items|)
    else if !Covers(stock, Store(op.storeId), lines, Keys(lines)) then Some(OUT_OF_STOCK)
    else None
  }

  /** Who calls: the authenticated user, the presented device credential, and whether the user
      currently holds pos:create. */
  datatype Caller = Caller(userId: UserId, credential: Option<nat>, mayCreate: bool)

  function AuthorityRefusal(devices: map<DeviceId, Device>, op: Operation, caller: Caller): Option<Error> {
    if caller.credential.None? then Some(Unauthorized)
    else if op.deviceId !in devices then Some(DeviceNotFound)
    else if !devices[op.deviceId].active then Some(DeviceNotActive)
    else if devices[op.deviceId].credential != caller.credential.value then Some(Unauthorized)
    else if op.userId != caller.userId then Some(OperationNotFound)
    else if !caller.mayCreate then Some(Forbidden)
    else None
  }

  /** The presented credential is that of the operation's own device, which is active; the caller is the recorded
      cashier and may currently create sales. */
  predicate Entitled(devices: map<DeviceId, Device>, op: Operation, caller: Caller) {
    && op.deviceId in devices && devices[op.deviceId].active
    && caller.credential == Some(devices[op.deviceId].credential)
    && caller.userId == op.userId && caller.mayCreate
  }

  const RESULT_POLL_MAX: nat := 200

  datatype SyncOutcome = SyncOutcome(books: Books, ops: map<OpId, Operation>, result: Result<SyncResult>)

  /** A claim held by someone else: released when one of the polls finds it stale. */
  function AfterPolling(ops: map<OpId, Operation>, id: OpId, clock: nat -> Instant): map<OpId, Operation>
    requires id in ops
  {
    if exists i: nat :: i < RESULT_POLL_MAX && Stale(ops[id], clock(i)) then ops[id := ops[id].(processedAt := None)]
      else ops
  }

  function Execute(b: Books, cat: Catalog, sessions: map<SessionId, Session>, devices: map<DeviceId, Device>,
                   ops: map<OpId, Operation>, id: OpId, now: Instant): SyncOutcome
    requires id in ops
  {
    var claimed := ops[id := ops[id].(processedAt := Some(now))];
    var sale := CreateSale(b, cat, sessions, devices, RequestOf(ops[id]), true);
    match sale.result
    case Ok((o, p)) =>
      var settled := Accepted(claimed, id, o, p);
      SyncOutcome(sale.books, settled, Ok(ResultOf(settled[id])))
    case Err(error) =>
      if error == InsufficientStock then
        var settled := Rejected(claimed, id, OUT_OF_STOCK);
        SyncOutcome(sale.books, settled, Ok(ResultOf(settled[id])))
      else SyncOutcome(sale.books, claimed, Err(error))
  }

  /** One sync call with nobody else at work. */
  function SyncOperation(b: Books, cat: Catalog, sessions: map<SessionId, Session>, devices: map<DeviceId, Device>,
                         ops: map<OpId, Operation>, id: OpId, caller: Caller, now: Instant, clock: nat -> Instant)
                           : SyncOutcome
  {
    if id !in ops then SyncOutcome(b, ops, Err(OperationNotFound))
    else
      var op := ops[id];
      var refusal := AuthorityRefusal(devices, op, caller);
      var verdict := IntentRefusal(b.stock, cat, op);
      if refusal.Some? then SyncOutcome(b, ops, Err(refusal.value))
      else if op.status != OpPending then SyncOutcome(b, ops, Ok(ResultOf(op)))
      else if verdict.Some? then
        SyncOutcome(b, Rejected(ops, id, verdict.value), Ok(ResultOf(Rejected(ops, id, verdict.value)[id])))
      else if op.processedAt.Some? then SyncOutcome(b, AfterPolling(ops, id, clock), Err(SyncInProgress))
      else Execute(b, cat, sessions, devices, ops, id, now)
  }

  /** Once a line has been refused the intent stays refused. */
  lemma {:induction false} LineRefusalSticks(prices: seq<Price>, items: seq<IntentLine>, n: nat)
    requires n <= |items| && LineRefusal(prices, items, n).Some?
    ensures LineRefusal(prices, items, |items|) == LineRefusal(prices, items, n)
    decreases |items| - n
  {
    if n < |items| {
      LineRefusalSticks(prices, items, n + 1);
    }
  }
}
