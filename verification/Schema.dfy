/** The rows the commerce and point-of-sale services share, and the errors they throw.
    Server-generated ids are naturals; instants are integer milliseconds; amounts and
    quantities are mathematical integers. */
module Schema {
  datatype Option<+T> = None | Some(value: T) {
    function GetOr(default: T): T {
      match this case Some(v) => v case None => default
    }
  }

  type VariantId = int
  type StoreId = nat
  type UserId = nat
  type CustomerId = nat
  type BookingId = nat
  type CartId = nat
  type DeviceId = nat
  type SessionId = nat
  type OrderId = nat
  type PaymentId = nat
  type OpId = nat
  type Currency = string
  type Instant = int

  /** Request quantities are validated to be at least one before a service sees them. */
  type Quantity = q: int | 1 <= q witness 1

  /** A stock pool: the tenant-global one, or one store's. */
  datatype Pool = Global | Store(storeId: StoreId)

  /** One inventory row per (variant, pool): the partial unique indexes. */
  datatype StockKey = StockKey(variantId: VariantId, pool: Pool)

  datatype Line = Line(variantId: VariantId, quantity: Quantity)

  datatype Price = Price(variantId: VariantId, currency: Currency, amountMinor: int)

  /** `prices` lists the price rows in the order the database returns them. */
  datatype Catalog = Catalog(variants: map<VariantId, bool>, prices: seq<Price>,
                             customers: set<CustomerId>, stores: set<StoreId>)

  datatype OrderStatus = OrderPending | OrderPaid | OrderCancelled
  datatype OrderItem = OrderItem(variantId: VariantId, quantity: Quantity, currency: Currency,
                                 unitAmountMinor: int, lineTotalMinor: int)
  datatype Order = Order(userId: UserId, customerId: Option<CustomerId>, status: OrderStatus,
                         currency: Currency, subtotalMinor: int, items: seq<OrderItem>)

  datatype Method = Cash | Card
  datatype PaymentStatus = Processing | Captured | Failed
  datatype Payment = Payment(orderId: OrderId, status: PaymentStatus, tender: Method,
                             amountMinor: int, currency: Currency)

  /** Provenance of a point-of-sale order; the rows are keyed by their unique order id. */
  datatype Sale = Sale(paymentId: PaymentId, sessionId: SessionId, deviceId: DeviceId,
                       storeId: StoreId, userId: UserId)

  datatype CartStatus = CartOpen | CartConverted
  /** Cart items in creation order; `Cart` ids are positions in creation order. */
  datatype Cart = Cart(userId: UserId, status: CartStatus, items: seq<Line>)

  datatype Session = Session(deviceId: DeviceId, storeId: StoreId, userId: UserId, open: bool)

  /** Why an offline operation was rejected (`resultCode`). */
  datatype Code = EMPTY_INTENT | VARIANT_NOT_FOUND | VARIANT_NOT_ACTIVE | CURRENCY_MIX
                | PRICE_NOT_FOUND | PRICE_CHANGED | OUT_OF_STOCK

  datatype IntentLine = IntentLine(variantId: VariantId, quantity: Quantity,
                                   currency: Currency, observedUnitAmountMinor: int)
  datatype OpStatus = OpPending | OpAccepted | OpRejected
  datatype Operation = Operation(deviceId: DeviceId, sessionId: SessionId, storeId: StoreId,
                                 userId: UserId, clientUuid: nat, seqNo: nat,
                                 customerId: Option<CustomerId>, items: seq<IntentLine>,
                                 status: OpStatus, resultCode: Option<Code>,
                                 resultOrderId: Option<OrderId>,
                                 resultPaymentId: Option<PaymentId>,
                                 processedAt: Option<Instant>)

  datatype Error =
    | OrderNotFound | VariantNotFound | VariantNotActive | PriceNotFound | CurrencyMismatch
    | InsufficientStock | CartEmpty | CustomerNotFound | OrderNotPending | BookingTaken
    | CapturedExists | PaymentNotFound | FailedCannotCapture | CapturedCannotFail
    | StoreNotFound | UniqueViolation | SessionNotFound | SessionNotOpen | DeviceNotActive
    | DeviceNotFound | OfflineNotCash | OperationNotFound | Unauthorized | Forbidden
    | SyncInProgress | SequenceTaken | CartItemNotFound

  datatype Result<+T> = Ok(value: T) | Err(error: Error)
}
