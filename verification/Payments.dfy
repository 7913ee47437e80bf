/** PaymentService: creation, capture and failure, each one `$transaction`. */
module Payments {
  import opened Schema
  import opened Ledger
  import opened Database

  class PaymentService {
    const prisma: Prisma

    constructor (prisma: Prisma)
      ensures this.prisma == prisma
    {
      this.prisma := prisma;
    }

    method CreatePayment(o: OrderId, tender: Method) returns (r: Result<PaymentId>)
      modifies prisma`payments, prisma`nextId
      ensures var tx := Ledger.CreatePayment(old(prisma.View()), o, tender);
              prisma.View() == After(old(prisma.View()), tx) && r == Outcome(tx)
    {
      if o !in prisma.orders {
        return Err(OrderNotFound);
      }
      var order := prisma.orders[o];
      if order.status != OrderPending {
        return Err(OrderNotPending);
      }
      if exists p :: p in prisma.payments && prisma.payments[p].orderId == o && prisma.payments[p].status == Captured {
        assert HasCaptured(prisma.View(), o);
        return Err(CapturedExists);
      }
      assert !HasCaptured(prisma.View(), o);
      var p := prisma.nextId;
      prisma.nextId := p + 1;
      prisma.payments := prisma.payments[p := Payment(o, Processing, tender, order.subtotalMinor, order.currency)];
      return Ok(p);
    }

    /** Captures the payment and its order together; when the order is no longer pending the
        payment's move is rolled back with it. */
    method CapturePayment(p: PaymentId) returns (r: Result<PaymentId>)
      modifies prisma`stock, prisma`orders, prisma`payments, prisma`sales, prisma`bookings, prisma`carts, prisma`nextId
      ensures var tx := Ledger.CapturePayment(old(prisma.View()), p);
              prisma.View() == After(old(prisma.View()), tx) && r == Outcome(tx)
    {
      var snapshot := prisma.View();
      if p !in prisma.payments {
        return Err(PaymentNotFound);
      }
      var payment := prisma.payments[p];
      match payment.status
      case Captured =>
        return Ok(p);
      case Failed =>
        return Err(FailedCannotCapture);
      case Processing =>
        var _ := prisma.MoveProcessingPayment(p, Captured);
        var updatedOrder := prisma.MovePendingOrder(payment.orderId, OrderPaid);
        if updatedOrder == 0 {
          prisma.Restore(snapshot);
          return Err(OrderNotPending);
        }
        return Ok(p);
    }

    method FailPayment(p: PaymentId) returns (r: Result<PaymentId>)
      modifies prisma`payments
      ensures var tx := Ledger.FailPayment(old(prisma.View()), p);
              prisma.View() == After(old(prisma.View()), tx) && r == Outcome(tx)
    {
      if p !in prisma.payments {
        return Err(PaymentNotFound);
      }
      match prisma.payments[p].status
      case Failed =>
        return Ok(p);
      case Captured =>
        return Err(CapturedCannotFail);
      case Processing =>
        var _ := prisma.MoveProcessingPayment(p, Failed);
        return Ok(p);
    }
  }
}
