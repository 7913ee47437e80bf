/** The tables behind the Prisma client: one mutable field per table, plus the single
    conditional writes (`updateMany`, `create`) the services are built from. */
module Database {
  import opened Schema
  import opened Ledger

  datatype Device = Device(active: bool, credential: nat)

  class Prisma {
    var stock: map<StockKey, int>
    var orders: map<OrderId, Order>
    var payments: map<PaymentId, Payment>
    var sales: map<OrderId, Sale>
    var bookings: map<BookingId, Option<OrderId>>
    var carts: seq<Cart>
    var nextId: nat
    var catalog: Catalog
    var sessions: map<SessionId, Session>
    var devices: map<DeviceId, Device>
    var operations: map<OpId, Operation>

    /** The commerce rows as one value. */
    function View(): Books
      reads this
    {
      Books(stock, orders, payments, sales, bookings, carts, nextId)
    }

    /** Rolling a transaction back puts every commerce row back. */
    method Restore(snapshot: Books)
      modifies this`stock, this`orders, this`payments, this`sales, this`bookings, this`carts, this`nextId
      ensures View() == snapshot
    {
      stock, orders, payments, sales := snapshot.stock, snapshot.orders, snapshot.payments, snapshot.sales;
      bookings, carts, nextId := snapshot.bookings, snapshot.carts, snapshot.nextId;
    }

    /** inventory.updateMany where quantityOnHand >= atLeast: the number of rows changed. */
    method AddToStock(k: StockKey, atLeast: int, change: int) returns (count: nat)
      modifies this`stock
      ensures count == (if k in old(stock) && atLeast <= old(stock)[k] then 1 else 0)
      ensures stock == if count == 1 then old(stock)[k := old(stock)[k] + change] else old(stock)
    {
      if k in stock && atLeast <= stock[k] {
        stock := stock[k := stock[k] + change];
        return 1;
      }
      return 0;
    }

    /** order.updateMany where status is PENDING. */
    method MovePendingOrder(o: OrderId, status: OrderStatus) returns (count: nat)
      modifies this`orders
      ensures count == (if o in old(orders) && old(orders)[o].status == OrderPending then 1 else 0)
      ensures orders == if count == 1 then old(orders)[o := old(orders)[o].(status := status)] else old(orders)
    {
      if o in orders && orders[o].status == OrderPending {
        orders := orders[o := orders[o].(status := status)];
        return 1;
      }
      return 0;
    }

    /** payment.updateMany where status is PROCESSING. */
    method MoveProcessingPayment(p: PaymentId, status: PaymentStatus) returns (count: nat)
      modifies this`payments
      ensures count == (if p in old(payments) && old(payments)[p].status == Processing then 1 else 0)
      ensures payments == if count == 1 then old(payments)[p := old(payments)[p].(status := status)] else old(payments)
    {
      if p in payments && payments[p].status == Processing {
        payments := payments[p := payments[p].(status := status)];
        return 1;
      }
      return 0;
    }
  }
}
