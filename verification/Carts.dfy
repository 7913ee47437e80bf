/** The shopping cart: items merged per variant, live totals per currency, and their agreement with
    what a checkout charges. */
module Carts {
  import opened Schema
  import opened Lines
  import opened Ledger
  import opened Orders
  import opened PosTheorems

  // ---------- items ----------

  /** The unique index on (cart, variant). */
  predicate OnePerVariant(items: seq<Line>) {
    forall i, j :: 0 <= i < j < |items| ==> items[i].variantId != items[j].variantId
  }

  predicate CartsOk(carts: seq<Cart>) {
    forall c :: 0 <= c < |carts| ==> OnePerVariant(carts[c].items)
  }

  function IndexOf(items: seq<Line>, v: VariantId, from: nat): (i: Option<nat>)
    requires from <= |items|
    ensures i.Some? ==> from <= i.value < |items| && items[i.value].variantId == v
    ensures i.None? <==> forall k :: from <= k < |items| ==> items[k].variantId != v
    decreases |items| - from
  {
    if from == |items| then None else if items[from].variantId == v then Some(from) else IndexOf(items, v, from + 1)
  }

  /** addItem: increment the variant's item, or append a new one. */
  function Merge(items: seq<Line>, v: VariantId, quantity: Quantity): seq<Line> {
    match IndexOf(items, v, 0)
    case Some(i) => items[i := Line(v, items[i].quantity + quantity)]
    case None => items + [Line(v, quantity)]
  }

  /** updateItem: set the quantity of an existing item. */
  function SetQuantity(items: seq<Line>, v: VariantId, quantity: Quantity): seq<Line> {
    match IndexOf(items, v, 0)
    case Some(i) => items[i := Line(v, quantity)]
    case None => items
  }

  /** removeItem. */
  function Without(items: seq<Line>, v: VariantId): seq<Line> {
    match IndexOf(items, v, 0)
    case Some(i) => items[..i] + items[i + 1..]
    case None => items
  }

  /** The quantity of one variant after replacing an item by another of the same variant. */
  lemma {:induction false} QtyOfReplaced(items: seq<Line>, i: nat, quantity: Quantity, w: VariantId)
    requires i < |items|
    ensures QtyOf(items[i := Line(items[i].variantId, quantity)], w)
            == QtyOf(items, w) + if items[i].variantId == w then quantity - items[i].quantity else 0
  {
    var n := |items| - 1;
    var changed := items[i := Line(items[i].variantId, quantity)];
    if i < n {
      QtyOfReplaced(items[..n], i, quantity, w);
      assert changed[..n] == items[..n][i := Line(items[i].variantId, quantity)];
    } else {
      assert changed[..n] == items[..n];
    }
  }

  lemma {:induction false} QtyOfConcat(a: seq<Line>, b: seq<Line>, w: VariantId)
    ensures QtyOf(a + b, w) == QtyOf(a, w) + QtyOf(b, w)
  {
    if b != [] {
      QtyOfConcat(a, b[..|b| - 1], w);
      assert (a + b)[..|a + b| - 1] == a + b[..|b| - 1];
    } else {
      assert a + b == a;
    }
  }

  lemma {:induction false} QtyOfOne(l: Line, w: VariantId)
    ensures QtyOf([l], w) == if l.variantId == w then l.quantity else 0
  {
    assert [l][..0] == [];
  }

  lemma {:induction false} AbsentIsZero(items: seq<Line>, w: VariantId)
    requires forall k :: 0 <= k < |items| ==> items[k].variantId != w
    ensures QtyOf(items, w) == 0
  {
    if items != [] {
      AbsentIsZero(items[..|items| - 1], w);
    }
  }

  /** With one item per variant, a variant's quantity is its item's. */
  lemma {:induction false} QtyOfItem(items: seq<Line>, i: nat)
    requires OnePerVariant(items) && i < |items|
    ensures QtyOf(items, items[i].variantId) == items[i].quantity
  {
    var n := |items| - 1;
    if i < n {
      QtyOfItem(items[..n], i);
    } else {
      AbsentIsZero(items[..n], items[i].variantId);
    }
  }

  /** Merging adds exactly the quantity to exactly the variant and keeps one item per variant. */
  lemma {:induction false} MergeAdds(items: seq<Line>, v: VariantId, quantity: Quantity, w: VariantId)
    requires OnePerVariant(items)
    ensures OnePerVariant(Merge(items, v, quantity))
    ensures QtyOf(Merge(items, v, quantity), w) == QtyOf(items, w) + if w == v then quantity else 0
  {
    match IndexOf(items, v, 0)
    case Some(i) =>
      QtyOfReplaced(items, i, items[i].quantity + quantity, w);
    case None =>
      QtyOfConcat(items, [Line(v, quantity)], w);
      QtyOfOne(Line(v, quantity), w);
  }

  /** Setting a quantity leaves that quantity and every other variant as it was. */
  lemma {:induction false} SetQuantitySets(items: seq<Line>, v: VariantId, quantity: Quantity, w: VariantId)
    requires OnePerVariant(items) && IndexOf(items, v, 0).Some?
    ensures OnePerVariant(SetQuantity(items, v, quantity))
    ensures QtyOf(SetQuantity(items, v, quantity), w) == if w == v then quantity as int else QtyOf(items, w)
  {
    var i := IndexOf(items, v, 0).value;
    QtyOfReplaced(items, i, quantity, w);
    QtyOfItem(items, i);
  }

  lemma {:induction false} QtyOfRemoved(items: seq<Line>, i: nat, w: VariantId)
    requires i < |items|
    ensures QtyOf(items[..i] + items[i + 1..], w)
            == QtyOf(items, w) - if items[i].variantId == w then items[i].quantity else 0
  {
    var front, back := items[..i], items[i + 1..];
    QtyOfConcat(front, [items[i]] + back, w);
    QtyOfConcat([items[i]], back, w);
    QtyOfConcat(front, back, w);
    QtyOfOne(items[i], w);
    hide QtyOf;
    assert items == front + ([items[i]] + back);
  }

  /** Removing an item removes its variant and nothing else. */
  lemma {:induction false} WithoutRemoves(items: seq<Line>, v: VariantId, w: VariantId)
    requires OnePerVariant(items)
    ensures OnePerVariant(Without(items, v))
    ensures QtyOf(Without(items, v), w) == if w == v then 0 else QtyOf(items, w)
  {
    match IndexOf(items, v, 0)
    case Some(i) =>
      QtyOfRemoved(items, i, w);
      QtyOfItem(items, i);
      hide QtyOf;
    case None =>
      if w == v { AbsentIsZero(items, v); }
  }

  // ---------- totals ----------

  /** An item's line totals: one per price row of its variant. */
  function LineTotals(rows: seq<Price>, quantity: int): seq<(Currency, int)> {
    seq(|rows|, i requires 0 <= i < |rows| => (rows[i].currency, rows[i].amountMinor * quantity))
  }

  function SumIn(totals: seq<(Currency, int)>, c: Currency): int {
    if totals == [] then 0
    else
      var last := totals[|totals| - 1];
      SumIn(totals[..|totals| - 1], c) + if last.0 == c then last.1 else 0
  }

  /** The sum of the cart's line totals in one currency. */
  function CartTotal(prices: seq<Price>, items: seq<Line>, c: Currency): int {
    if items == [] then 0
    else
      var last := items[|items| - 1];
      CartTotal(prices, items[..|items| - 1], c) + SumIn(LineTotals(RowsOf(prices, last.variantId), last.quantity), c)
  }

  predicate HasRow(rows: seq<Price>, c: Currency) {
    exists row :: row in rows && row.currency == c
  }

  /** Some item has a price in the currency. */
  predicate Offered(prices: seq<Price>, items: seq<Line>, c: Currency) {
    exists i :: 0 <= i < |items| && HasRow(RowsOf(prices, items[i].variantId), c)
  }

  // ---------- agreement with checkout ----------

  lemma {:induction false} FindAppend(rows: seq<Price>, r: Price, c: Currency)
    ensures Find(rows + [r], c) == if Find(rows, c).Some? then Find(rows, c) else if r.currency
            == c then Some(r) else None
  {
    if rows == [] {
      assert [r][1..] == [] && [] + [r] == [r];
    } else {
      FindAppend(rows[1..], r, c);
      assert (rows + [r])[1..] == rows[1..] + [r];
    }
  }

  predicate DistinctCurrencies(rows: seq<Price>) {
    forall i, j :: 0 <= i < j < |rows| ==> rows[i].currency != rows[j].currency
  }

  lemma {:induction false} RowsDistinct(prices: seq<Price>, v: VariantId)
    requires UniquePrices(prices)
    ensures DistinctCurrencies(RowsOf(prices, v))
  {
    if prices != [] {
      var n := |prices| - 1;
      RowsDistinct(prices[..n], v);
      var front := RowsOf(prices[..n], v);
      forall row | row in front
        ensures prices[n].variantId == v ==> row.currency != prices[n].currency
      {
        RowsOfIn(prices[..n], v, row);
      }
    }
  }

  /** With one price per currency, a line total is the unit amount times the quantity. */
  lemma {:induction false} SumInIsUnit(rows: seq<Price>, quantity: int, c: Currency)
    requires DistinctCurrencies(rows)
    ensures SumIn(LineTotals(rows, quantity), c)
            == match Find(rows, c) case Some(p) => p.amountMinor * quantity case None => 0
  {
    if rows != [] {
      var n := |rows| - 1;
      SumInIsUnit(rows[..n], quantity, c);
      assert LineTotals(rows, quantity)[..n] == LineTotals(rows[..n], quantity);
      FindAppend(rows[..n], rows[n], c);
      FindIn(rows[..n], c);
      assert rows == rows[..n] + [rows[n]];
    }
  }

  lemma {:induction false} LineTotalIsUnit(prices: seq<Price>, v: VariantId, quantity: int, c: Currency)
    requires UniquePrices(prices)
    ensures SumIn(LineTotals(RowsOf(prices, v), quantity), c) == Unit(prices, v, c) * quantity
  {
    RowsDistinct(prices, v);
    SumInIsUnit(RowsOf(prices, v), quantity, c);
  }

  lemma {:induction false} CartTotalIsValue(prices: seq<Price>, items: seq<Line>, c: Currency)
    requires UniquePrices(prices)
    ensures CartTotal(prices, items, c) == ValueOf(items, UnitFn(prices, c))
  {
    if items != [] {
      var last := items[|items| - 1];
      CartTotalIsValue(prices, items[..|items| - 1], c);
      LineTotalIsUnit(prices, last.variantId, last.quantity, c);
    }
  }

  /** With one item per variant, aggregation keeps the items in their order. */
  lemma {:induction false} KeysOfCart(items: seq<Line>)
    requires OnePerVariant(items)
    ensures |Keys(items)| == |items| && forall i :: 0 <= i < |items| ==> Keys(items)[i] == items[i].variantId
  {
    if items != [] {
      var n := |items| - 1;
      KeysOfCart(items[..n]);
      AbsentIsZero(items[..n], items[n].variantId);
    }
  }

  function CartOrder(b: Books, userId: UserId, customerId: Option<CustomerId>, pool: Pool, bookingId: Option<BookingId>)
    : OrderReq
    requires FirstOpenCart(b.carts, userId, 0).Some?
  {
    var c := FirstOpenCart(b.carts, userId, 0);
    OrderReq(userId, customerId, b.carts[c.value].items, pool, bookingId, c)
  }

  /** The order a cart checkout creates is the cart: its currency is one the cart offers, its subtotal
      is the cart's total in that currency, and its lines are the cart's items, one for one, at the
      displayed line totals. */
  lemma {:induction false} CheckoutAgrees(b: Books, cat: Catalog, userId: UserId, customerId: Option<CustomerId>,
                                          bookingId: Option<BookingId>, pool: Pool)
    requires UniquePrices(cat.prices) && CartsOk(b.carts)
    requires PlaceOrder(b, cat, userId, CreateOrderDto([], customerId, bookingId),
                        CreateOrderOptions(pool, bookingId)).Committed?
    ensures FirstOpenCart(b.carts, userId, 0).Some?
    ensures var items := b.carts[FirstOpenCart(b.carts, userId, 0).value].items;
            var tx := PlaceOrder(b, cat, userId, CreateOrderDto([], customerId, bookingId),
                                 CreateOrderOptions(pool, bookingId));
            && tx.id in tx.books.orders
            && var order := tx.books.orders[tx.id];
               && Offered(cat.prices, items, order.currency)
               && order.subtotalMinor == CartTotal(cat.prices, items, order.currency)
               && |order.items| == |items|
               && forall i :: 0 <= i < |items| ==>
                    && order.items[i].variantId == items[i].variantId && order.items[i].quantity == items[i].quantity
                    && order.items[i].currency == order.currency
                    && order.items[i].lineTotalMinor
                       == SumIn(LineTotals(RowsOf(cat.prices, items[i].variantId), items[i].quantity), order.currency)
  {
    hide UniquePrices, Charge, CartTotal, LineTotals, SumIn, Offered, RowsOf, Covers;
    var req := CartOrder(b, userId, customerId, pool, bookingId);
    var items := req.items;
    OrderMatchesCart(cat, req);
    var order := NewOrder(cat, req);
    forall i | 0 <= i < |items|
      ensures order.items[i].lineTotalMinor
              == SumIn(LineTotals(RowsOf(cat.prices, items[i].variantId), items[i].quantity), order.currency)
    {
      LineTotalIsUnit(cat.prices, items[i].variantId, items[i].quantity, order.currency);
    }
  }

  lemma {:induction false} ItemAt(ks: seq<VariantId>, lines: seq<Line>, prices: seq<Price>, c: Currency, i: nat)
    requires forall v :: v in ks ==> 1 <= QtyOf(lines, v)
    requires i < |ks|
    ensures ItemsFor(ks, lines, prices, c)[i]
            == OrderItem(ks[i], QtyOf(lines, ks[i]), c, Unit(prices, ks[i], c),
                         Unit(prices, ks[i], c) * QtyOf(lines, ks[i]))
  {
    if i < |ks| - 1 {
      ItemAt(ks[..|ks| - 1], lines, prices, c, i);
    }
  }

  lemma {:induction false} OrderMatchesCart(cat: Catalog, req: OrderReq)
    requires UniquePrices(cat.prices) && OnePerVariant(req.items) && CatalogRefusal(cat, req.items).None?
    ensures var order, items := NewOrder(cat, req), req.items;
            && Offered(cat.prices, items, order.currency)
            && order.subtotalMinor == CartTotal(cat.prices, items, order.currency)
            && |order.items| == |items|
            && forall i :: 0 <= i < |items| ==>
                 order.items[i] == OrderItem(items[i].variantId, items[i].quantity, order.currency,
                                             Unit(cat.prices, items[i].variantId, order.currency),
                                             Unit(cat.prices, items[i].variantId, order.currency) * items[i].quantity)
  {
    hide UniquePrices, Unit, RowsOf, ValueByKey, ValueOf, CartTotal, PriceRefusal, ItemsFor;
    var items, ks := req.items, Keys(req.items);
    var c := NewOrder(cat, req).currency;
    KeysOfCart(items);
    AggregationPreservesValue(items, UnitFn(cat.prices, c));
    CartTotalIsValue(cat.prices, items, c);
    PricedEarlier(cat.prices, ks, 1, |ks|);
    FirstRowOffered(cat.prices, items);
    forall i | 0 <= i < |items|
      ensures NewOrder(cat, req).items[i] == OrderItem(items[i].variantId, items[i].quantity, c,
                                                       Unit(cat.prices, items[i].variantId, c),
                                                       Unit(cat.prices, items[i].variantId, c) * items[i].quantity)
    {
      ItemAt(ks, items, cat.prices, c, i);
      QtyOfItem(items, i);
    }
  }

  lemma {:induction false} FirstRowOffered(prices: seq<Price>, items: seq<Line>)
    requires items != [] && |Keys(items)| == |items| && Keys(items)[0] == items[0].variantId
    requires PriceRefusal(prices, Keys(items), 1).None?
    ensures Target(prices, Keys(items)).Some? && Offered(prices, items, Target(prices, Keys(items)).value)
  {
    var rows := RowsOf(prices, items[0].variantId);
    assert PriceRefusal(prices, Keys(items), 0).None?;
    assert rows != [] && rows[0] in rows;
    assert HasRow(rows, Target(prices, Keys(items)).value);
  }

  // ---------- whole calls ----------

  /** The caller's open cart, created when there is none. */
  function WithOpenCart(carts: seq<Cart>, u: UserId): seq<Cart> {
    if FirstOpenCart(carts, u, 0).Some? then carts else carts + [Cart(u, CartOpen, [])]
  }

  lemma {:induction false} OpenCartExists(carts: seq<Cart>, u: UserId, from: nat)
    requires from <= |carts| && FirstOpenCart(carts, u, from).None?
    ensures FirstOpenCart(carts + [Cart(u, CartOpen, [])], u, from) == Some(|carts|)
    decreases |carts| - from
  {
    if from < |carts| {
      OpenCartExists(carts, u, from + 1);
    }
  }

  /** Where getOrCreateCart finds the cart. */
  function OpenCart(carts: seq<Cart>, u: UserId): (c: CartId)
    ensures c < |WithOpenCart(carts, u)|
    ensures FirstOpenCart(WithOpenCart(carts, u), u, 0) == Some(c)
  {
    if FirstOpenCart(carts, u, 0).Some? then FirstOpenCart(carts, u, 0).value
    else
      assert FirstOpenCart(carts + [Cart(u, CartOpen, [])], u, 0) == Some(|carts|) by { OpenCartExists(carts, u, 0); }
      |carts|
  }

  function SetItems(carts: seq<Cart>, c: CartId, items: seq<Line>): seq<Cart>
    requires c < |carts|
  {
    carts[c := carts[c].(items := items)]
  }

  /** A cart call works on the caller's earliest open cart, or on a new empty one; no other cart is touched. */
  lemma {:induction false} CartOfCall(carts: seq<Cart>, u: UserId)
    ensures var carts', c := WithOpenCart(carts, u), OpenCart(carts, u);
            && c < |carts'| && carts'[c].userId == u && carts'[c].status == CartOpen
            && (forall k :: 0 <= k < c ==> carts'[k].userId != u || carts'[k].status != CartOpen)
            && (if exists k :: 0 <= k < |carts| && carts[k].userId == u && carts[k].status == CartOpen
                then carts' == carts
                else c == |carts| && carts' == carts + [Cart(u, CartOpen, [])])
  {
  }

  /** Writing a cart's items changes nothing else of it, and no other cart. */
  lemma {:induction false} OnlyItems(carts: seq<Cart>, c: CartId, items: seq<Line>)
    requires c < |carts|
    ensures var carts' := SetItems(carts, c, items);
            && |carts'| == |carts| && carts'[c] == Cart(carts[c].userId, carts[c].status, items)
            && forall d :: 0 <= d < |carts| && d != c ==> carts'[d] == carts[d]
  {
  }
}
