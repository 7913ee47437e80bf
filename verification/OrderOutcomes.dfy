/** What the order and payment calls do, said of the rows alone: when each call commits, which error it gives
    otherwise, and what it leaves behind. */
module OrderOutcomes {
  import opened Schema
  import opened Lines
  import opened Ledger
  import opened OrderPayments
  import opened Orders
  import opened PosTheorems
  import Carts

  // ---------- prices ----------

  /** Row `k` is the first of the variant. */
  predicate FirstRow(prices: seq<Price>, v: VariantId, k: int) {
    && 0 <= k < |prices| && prices[k].variantId == v
    && forall j :: 0 <= j < k ==> prices[j].variantId != v
  }

  /** The currency of the variant's first price row. */
  ghost predicate FirstCurrency(prices: seq<Price>, v: VariantId, c: Currency) {
    exists k :: FirstRow(prices, v, k) && prices[k].currency == c
  }

  /** Row `k` is the first of the variant in the currency. */
  predicate FirstRowIn(prices: seq<Price>, v: VariantId, c: Currency, k: int) {
    && 0 <= k < |prices| && prices[k].variantId == v && prices[k].currency == c
    && forall j :: 0 <= j < k ==> prices[j].variantId != v || prices[j].currency != c
  }

  /** What the variant costs in the currency. */
  ghost predicate Costs(prices: seq<Price>, v: VariantId, c: Currency, amount: int) {
    exists k :: FirstRowIn(prices, v, c, k) && prices[k].amountMinor == amount
  }

  lemma {:induction false} FirstRowIs(prices: seq<Price>, v: VariantId) returns (k: int)
    ensures RowsOf(prices, v) == [] ==> forall j :: 0 <= j < |prices| ==> prices[j].variantId != v
    ensures RowsOf(prices, v) != [] ==> FirstRow(prices, v, k) && prices[k] == RowsOf(prices, v)[0]
  {
    if prices == [] {
      k := 0;
    } else {
      var n := |prices| - 1;
      k := FirstRowIs(prices[..n], v);
      if RowsOf(prices[..n], v) == [] { k := n; }
    }
  }

  lemma {:induction false} PriceInNext(prices: seq<Price>, v: VariantId, c: Currency)
    requires prices != []
    ensures var front, last := prices[..|prices| - 1], prices[|prices| - 1];
            PriceIn(prices, v, c) == if PriceIn(front, v, c).None? && last.variantId == v && last.currency == c
                                     then Some(last) else PriceIn(front, v, c)
  {
    var front, last := prices[..|prices| - 1], prices[|prices| - 1];
    if last.variantId == v {
      Carts.FindAppend(RowsOf(front, v), last, c);
    } else {
      assert RowsOf(prices, v) == RowsOf(front, v);
    }
    hide Find;
  }

  lemma {:induction false} FirstRowInIs(prices: seq<Price>, v: VariantId, c: Currency) returns (k: int)
    ensures PriceIn(prices, v, c).None? ==>
              forall j :: 0 <= j < |prices| ==> prices[j].variantId != v || prices[j].currency != c
    ensures PriceIn(prices, v, c).Some? ==> FirstRowIn(prices, v, c, k) && PriceIn(prices, v, c) == Some(prices[k])
  {
    if prices == [] {
      k := 0;
    } else {
      var n := |prices| - 1;
      k := FirstRowInIs(prices[..n], v, c);
      PriceInNext(prices, v, c);
      hide PriceIn;
      if PriceIn(prices[..n], v, c).None? { k := n; }
    }
  }

  /** The engine's unit amount is what the variant costs. */
  lemma {:induction false} UnitIs(prices: seq<Price>, v: VariantId, c: Currency)
    requires PriceIn(prices, v, c).Some?
    ensures Costs(prices, v, c, Unit(prices, v, c))
  {
    var k := FirstRowInIs(prices, v, c);
    hide PriceIn;
  }

  predicate HasRow(prices: seq<Price>, v: VariantId) {
    exists k :: 0 <= k < |prices| && prices[k].variantId == v
  }

  predicate HasRowIn(prices: seq<Price>, v: VariantId, c: Currency) {
    exists k :: 0 <= k < |prices| && prices[k].variantId == v && prices[k].currency == c
  }

  /** The line's variant has a price in the currency of the first line's first price row. */
  ghost predicate LinePriced(prices: seq<Price>, items: seq<Line>, i: int) {
    && 0 <= i < |items|
    && exists c :: FirstCurrency(prices, items[0].variantId, c) && HasRowIn(prices, items[i].variantId, c)
  }

  /** The line that decides: all before it are priced, and it fails with this error. */
  ghost predicate FirstUnpriced(prices: seq<Price>, items: seq<Line>, i: int, e: Error) {
    && 0 <= i < |items| && !LinePriced(prices, items, i)
    && (forall j :: 0 <= j < i ==> LinePriced(prices, items, j))
    && match e
       case PriceNotFound => !HasRow(prices, items[i].variantId)
       case CurrencyMismatch => HasRow(prices, items[i].variantId)
       case _ => false
  }

  /** The engine's test of one line. */
  lemma {:induction false} LineTest(prices: seq<Price>, items: seq<Line>, i: int)
    requires 0 <= i < |items|
    ensures HasRow(prices, items[i].variantId) <==> RowsOf(prices, items[i].variantId) != []
    ensures var rows := RowsOf(prices, items[0].variantId);
            LinePriced(prices, items, i)
            <==> rows != [] && PriceIn(prices, items[i].variantId, rows[0].currency).Some?
  {
    var first := items[0].variantId;
    var rows := RowsOf(prices, first);
    var k := FirstRowIs(prices, first);
    var l := FirstRowIs(prices, items[i].variantId);
    if rows != [] {
      assert FirstCurrency(prices, first, rows[0].currency);
      var j := FirstRowInIs(prices, items[i].variantId, rows[0].currency);
    }
    hide PriceIn, RowsOf;
  }

  /** The keys of a longer list of lines are priced like those of the shorter one, and then the new line. */
  lemma {:induction false} NextPriced(prices: seq<Price>, items: seq<Line>)
    requires |items| > 1
    ensures var n := |items| - 1;
            var ks, front := Keys(items), Keys(items[..n]);
            var before, after := PriceRefusal(prices, front, |front|), PriceRefusal(prices, ks, |ks|);
            var rows := RowsOf(prices, items[n].variantId);
            var first := RowsOf(prices, items[0].variantId);
            && (before.Some? || items[n].variantId in front ==> after == before)
            && (before.None? && items[n].variantId !in front ==>
                  after == if rows == [] then Some(PriceNotFound)
                           else if first == [] || PriceIn(prices, items[n].variantId, first[0].currency).None? then
                             Some(CurrencyMismatch)
                           else None)
  {
    var n := |items| - 1;
    var ks, front := Keys(items), Keys(items[..n]);
    FirstKey(items);
    FirstKey(items[..n]);
    var v := items[n].variantId;
    assert ks == if v in front then front else front + [v];
    assert front[0] == items[0].variantId;
    hide RowsOf, PriceIn, QtyOf, Keys;
    if v !in front {
      SamePrefix(prices, front, v, |front|);
      assert ks[|ks| - 1] == v && ks[0] == front[0];
    }
  }

  lemma {:induction false} SamePrefix(prices: seq<Price>, ks: seq<VariantId>, v: VariantId, n: nat)
    requires ks != [] && n <= |ks|
    ensures PriceRefusal(prices, ks + [v], n) == PriceRefusal(prices, ks, n)
  {
    if n != 0 { SamePrefix(prices, ks, v, n - 1); }
    hide RowsOf, PriceIn;
  }

  lemma {:induction false} OneLine(prices: seq<Price>, items: seq<Line>)
    requires |items| == 1
    ensures Keys(items) == [items[0].variantId]
    ensures PriceRefusal(prices, Keys(items), |Keys(items)|)
            == if RowsOf(prices, items[0].variantId) == [] then Some(PriceNotFound) else None
  {
    assert items[..0] == [];
    var ks := Keys(items);
    assert PriceRefusal(prices, ks, 0).None?;
    var rows := RowsOf(prices, items[0].variantId);
    hide RowsOf;
  }

  /** Later lines do not matter to earlier ones. */
  lemma {:induction false} SameLine(prices: seq<Price>, items: seq<Line>, n: int, i: int)
    requires 0 <= i < n <= |items|
    ensures LinePriced(prices, items[..n], i) <==> LinePriced(prices, items, i)
  {
  }

  lemma {:induction false} SameUnpriced(prices: seq<Price>, items: seq<Line>, n: int, i: int, e: Error)
    requires 0 <= i < n <= |items|
    ensures FirstUnpriced(prices, items[..n], i, e) <==> FirstUnpriced(prices, items, i, e)
  {
    forall j | 0 <= j <= i
      ensures LinePriced(prices, items[..n], j) <==> LinePriced(prices, items, j)
    {
      SameLine(prices, items, n, j);
    }
    hide LinePriced, HasRow;
  }

  /** The line that decides is the same one under every error. */
  lemma {:induction false} DecidedEarlier(prices: seq<Price>, items: seq<Line>, n: int, before: Option<Error>)
    requires 0 < n <= |items| && before.Some?
    requires forall e :: before == Some(e) <==> exists i :: FirstUnpriced(prices, items[..n], i, e)
    ensures exists i :: 0 <= i < |items| && !LinePriced(prices, items, i)
    ensures forall e :: before == Some(e) <==> exists i :: FirstUnpriced(prices, items, i, e)
  {
    var k :| FirstUnpriced(prices, items[..n], k, before.value);
    SameUnpriced(prices, items, n, k, before.value);
    assert !LinePriced(prices, items, k);
    forall i, e | FirstUnpriced(prices, items, i, e)
      ensures before == Some(e)
    {
      assert i == k;
      SameUnpriced(prices, items, n, i, e);
      hide LinePriced, HasRow;
    }
    hide FirstUnpriced;
  }

  /** After lines that are all priced the last one decides by itself. */
  lemma {:induction false} LastLineDecides(prices: seq<Price>, items: seq<Line>)
    requires |items| > 1
    requires PriceRefusal(prices, Keys(items[..|items| - 1]), |Keys(items[..|items| - 1])|).None?
    requires forall i :: 0 <= i < |items| - 1 ==> LinePriced(prices, items, i)
    ensures var r, n := PriceRefusal(prices, Keys(items), |Keys(items)|), |items| - 1;
            && (r.None? <==> LinePriced(prices, items, n))
            && (r.Some? ==> r.value == if HasRow(prices, items[n].variantId) then CurrencyMismatch else PriceNotFound)
  {
    var n := |items| - 1;
    NextPriced(prices, items);
    LineTest(prices, items, n);
    hide PriceRefusal, RowsOf, PriceIn, HasRow, QtyOf;
    if items[n].variantId in Keys(items[..n]) {
      var j := KeyHasLine(items[..n], items[n].variantId);
      assert LinePriced(prices, items, j);
    }
    hide LinePriced;
  }

  /** The last line is the one that decides when all before it are priced. */
  lemma {:induction false} DecidedLast(prices: seq<Price>, items: seq<Line>, n: int, r: Option<Error>)
    requires n == |items| - 1 >= 0 && forall i :: 0 <= i < n ==> LinePriced(prices, items, i)
    requires r.None? <==> LinePriced(prices, items, n)
    requires r.Some? ==> r.value == if HasRow(prices, items[n].variantId) then CurrencyMismatch else PriceNotFound
    ensures r.None? <==> forall i :: 0 <= i < |items| ==> LinePriced(prices, items, i)
    ensures forall e :: r == Some(e) <==> exists i :: FirstUnpriced(prices, items, i, e)
  {
    hide LinePriced, HasRow;
    assert r.Some? ==> FirstUnpriced(prices, items, n, r.value);
    forall i, e | FirstUnpriced(prices, items, i, e)
      ensures r == Some(e)
    {
      assert i == n;
    }
  }

  /** Pricing succeeds exactly when every line is priced, and otherwise the first line that is not decides. */
  lemma {:induction false} PricingVerdict(prices: seq<Price>, items: seq<Line>)
    requires items != []
    ensures var r := PriceRefusal(prices, Keys(items), |Keys(items)|);
            && (r.None? <==> forall i :: 0 <= i < |items| ==> LinePriced(prices, items, i))
            && forall e :: r == Some(e) <==> exists i :: FirstUnpriced(prices, items, i, e)
  {
    hide *;
    var n := |items| - 1;
    if n == 0 {
      PricingOne(prices, items);
    } else {
      var front := items[..n];
      PricingVerdict(prices, front);
      NextPriced(prices, items);
      var before := PriceRefusal(prices, Keys(front), |Keys(front)|);
      if before.Some? {
        DecidedEarlier(prices, items, n, before);
      } else {
        forall i | 0 <= i < n
          ensures LinePriced(prices, items, i)
        {
          SameLine(prices, items, n, i);
        }
        LastLineDecides(prices, items);
        DecidedLast(prices, items, n, PriceRefusal(prices, Keys(items), |Keys(items)|));
      }
    }
  }

  lemma {:induction false} PricingOne(prices: seq<Price>, items: seq<Line>)
    requires |items| == 1
    ensures var r := PriceRefusal(prices, Keys(items), |Keys(items)|);
            && (r.None? <==> forall i :: 0 <= i < |items| ==> LinePriced(prices, items, i))
            && forall e :: r == Some(e) <==> exists i :: FirstUnpriced(prices, items, i, e)
  {
    hide *;
    LineTest(prices, items, 0);
    OneLine(prices, items);
    if RowsOf(prices, items[0].variantId) != [] { RowFound(prices, items[0].variantId); }
    DecidedLast(prices, items, 0, PriceRefusal(prices, Keys(items), |Keys(items)|));
  }

  /** A variant's first price row is found in its own currency. */
  lemma {:induction false} RowFound(prices: seq<Price>, v: VariantId)
    requires RowsOf(prices, v) != []
    ensures PriceIn(prices, v, RowsOf(prices, v)[0].currency).Some?
  {
  }

  // ---------- order creation ----------

  /** The cart a checkout takes: the user's earliest open one. */
  predicate EarliestOpen(carts: seq<Cart>, u: UserId, c: int) {
    && 0 <= c < |carts| && carts[c].userId == u && carts[c].status == CartOpen
    && forall k :: 0 <= k < c ==> carts[k].userId != u || carts[k].status != CartOpen
  }

  lemma {:induction false} FirstOpenIs(carts: seq<Cart>, u: UserId, c: int)
    ensures EarliestOpen(carts, u, c) <==> FirstOpenCart(carts, u, 0) == Some(c)
  {
    var found := FirstOpenCart(carts, u, 0);
    if found.Some? && EarliestOpen(carts, u, c) {
      assert !(found.value < c) && !(c < found.value);
    }
  }

  /** What a call orders: the lines it sends or, when it sends none, those of the cart it checks out. */
  ghost predicate Asks(carts: seq<Cart>, u: UserId, dto: CreateOrderDto, items: seq<Line>) {
    && items != []
    && (if dto.items != [] then items == dto.items
        else exists c :: EarliestOpen(carts, u, c) && carts[c].items == items)
  }

  predicate CustomerKnown(cat: Catalog, dto: CreateOrderDto) {
    dto.customerId.None? || dto.customerId.value in cat.customers
  }

  predicate AllKnown(cat: Catalog, items: seq<Line>) {
    forall i :: 0 <= i < |items| ==> items[i].variantId in cat.variants
  }

  predicate AllActive(cat: Catalog, items: seq<Line>) {
    forall i :: 0 <= i < |items| ==> items[i].variantId in cat.variants && cat.variants[items[i].variantId]
  }

  ghost predicate AllPriced(cat: Catalog, items: seq<Line>) {
    forall i :: 0 <= i < |items| ==> LinePriced(cat.prices, items, i)
  }

  /** The pool has a row for every variant asked for, with at least its total quantity. */
  ghost predicate InPool(stock: map<StockKey, int>, pool: Pool, items: seq<Line>) {
    forall v :: 1 <= QtyOf(items, v) ==> StockKey(v, pool) in stock && QtyOf(items, v) <= stock[StockKey(v, pool)]
  }

  predicate Linkable(bookings: map<BookingId, Option<OrderId>>, id: Option<BookingId>) {
    id.None? || (id.value in bookings && bookings[id.value].None?)
  }

  /** Everything an order needs. */
  ghost predicate Placeable(b: Books, cat: Catalog, dto: CreateOrderDto, options: CreateOrderOptions,
                            items: seq<Line>)
  {
    && CustomerKnown(cat, dto) && AllActive(cat, items) && AllPriced(cat, items)
    && InPool(b.stock, options.pool, items) && Linkable(b.bookings, options.bookingId)
  }

  /** The first need that is not met, and its error. */
  ghost predicate Unplaceable(b: Books, cat: Catalog, dto: CreateOrderDto, options: CreateOrderOptions,
                              items: seq<Line>, e: Error)
  {
    if !CustomerKnown(cat, dto) then e == CustomerNotFound
    else if !AllKnown(cat, items) then e == VariantNotFound
    else if !AllActive(cat, items) then e == VariantNotActive
    else if !AllPriced(cat, items) then exists i :: FirstUnpriced(cat.prices, items, i, e)
    else if !InPool(b.stock, options.pool, items) then e == InsufficientStock
    else !Linkable(b.bookings, options.bookingId) && e == BookingTaken
  }

  /** The keys of the lines are the variants they name. */
  lemma {:induction false} KeysAreLines(cat: Catalog, items: seq<Line>)
    ensures (exists v :: v in Keys(items) && v !in cat.variants) <==> !AllKnown(cat, items)
    ensures AllActive(cat, items) <==> forall v :: v in Keys(items) ==> v in cat.variants && cat.variants[v]
    ensures items == [] <==> Keys(items) == []
  {
    var ks := Keys(items);
    forall i | 0 <= i < |items|
      ensures items[i].variantId in ks
    {
      LineIsKey(items, i);
    }
    assert items != [] ==> items[0].variantId in ks;
    forall v | v in ks
      ensures exists i :: 0 <= i < |items| && items[i].variantId == v
    {
      KeyIsLine(items, v);
    }
    hide Keys, QtyOf;
    assert ks != [] ==> ks[0] in ks;
  }

  /** The guarded decrements succeed exactly when the pool has what the lines ask for. */
  lemma {:induction false} CoversIs(stock: map<StockKey, int>, pool: Pool, items: seq<Line>)
    ensures Covers(stock, pool, items, Keys(items)) <==> InPool(stock, pool, items)
  {
    var ks := Keys(items);
    assert forall v :: v in ks <==> 1 <= QtyOf(items, v);
    hide Keys, QtyOf;
    if Covers(stock, pool, items, ks) {
      forall v | 1 <= QtyOf(items, v)
        ensures StockKey(v, pool) in stock && QtyOf(items, v) <= stock[StockKey(v, pool)]
      {
        var i :| 0 <= i < |ks| && ks[i] == v;
      }
    }
    if InPool(stock, pool, items) {
      forall i | 0 <= i < |ks|
        ensures StockKey(ks[i], pool) in stock && QtyOf(items, ks[i]) <= stock[StockKey(ks[i], pool)]
      {
        assert ks[i] in ks;
      }
    }
  }

  /** The request that reaches the order transaction. */
  lemma {:induction false} RequestOfCall(b: Books, cat: Catalog, u: UserId, dto: CreateOrderDto,
                                         options: CreateOrderOptions, items: seq<Line>)
    requires Asks(b.carts, u, dto, items)
    ensures var cart := if dto.items == [] then FirstOpenCart(b.carts, u, 0) else None;
            PlaceOrder(b, cat, u, dto, options)
            == if !CustomerKnown(cat, dto) then Aborted(CustomerNotFound)
               else CreateOrder(b, cat, OrderReq(u, dto.customerId, items, options.pool, options.bookingId, cart))
    ensures dto.items == [] ==> FirstOpenCart(b.carts, u, 0).Some?
  {
    if dto.items == [] {
      var c :| EarliestOpen(b.carts, u, c) && b.carts[c].items == items;
      FirstOpenIs(b.carts, u, c);
    }
    hide CreateOrder;
  }

  /** A call has nothing to order exactly when it is answered that the cart is empty. */
  lemma {:induction false} NothingAsked(b: Books, cat: Catalog, u: UserId, dto: CreateOrderDto,
                                        options: CreateOrderOptions)
    ensures (forall items :: !Asks(b.carts, u, dto, items))
            <==> PlaceOrder(b, cat, u, dto, options) == Aborted(CartEmpty)
  {
    hide CreateOrder;
    var cart := FirstOpenCart(b.carts, u, 0);
    if dto.items != [] {
      assert Asks(b.carts, u, dto, dto.items);
    } else if cart.Some? {
      FirstOpenIs(b.carts, u, cart.value);
      assert EarliestOpen(b.carts, u, cart.value);
      assert b.carts[cart.value].items != [] ==> Asks(b.carts, u, dto, b.carts[cart.value].items);
    }
    if items :| Asks(b.carts, u, dto, items) {
      RequestOfCall(b, cat, u, dto, options, items);
      RefusalOf(b, cat, OrderReq(u, dto.customerId, items, options.pool, options.bookingId,
                                 if dto.items == [] then cart else None));
    }
  }

  lemma {:induction false} CatalogVerdict(cat: Catalog, items: seq<Line>)
    requires items != []
    ensures var e := CatalogRefusal(cat, items);
            && (e.None? <==> AllActive(cat, items) && AllPriced(cat, items))
            && (!AllKnown(cat, items) ==> e == Some(VariantNotFound))
            && (AllKnown(cat, items) && !AllActive(cat, items) ==> e == Some(VariantNotActive))
            && (AllActive(cat, items) && !AllPriced(cat, items) ==>
                  e.Some? && exists i :: FirstUnpriced(cat.prices, items, i, e.value))
  {
    KeysAreLines(cat, items);
    PricingVerdict(cat.prices, items);
    var e := PriceRefusal(cat.prices, Keys(items), |Keys(items)|);
    assert e.Some? ==> exists i :: FirstUnpriced(cat.prices, items, i, e.value);
    hide Keys, PriceRefusal, LinePriced, FirstUnpriced;
  }

  lemma {:induction false} Thrown(b: Books, cat: Catalog, req: OrderReq)
    ensures var r, e := CreateOrder(b, cat, req), CatalogRefusal(cat, req.items);
            var f := WriteRefusal(b, req, Keys(req.items));
            && (r.Committed? <==> e.None? && f.None?)
            && (e.Some? ==> r == Aborted(e.value))
            && (e.None? && f.Some? ==> r == Aborted(f.value))
    ensures WriteRefusal(b, req, Keys(req.items))
            == if !Covers(b.stock, req.pool, req.items, Keys(req.items)) then Some(InsufficientStock)
               else if !BookingFree(b, req.bookingId) then Some(BookingTaken) else None
  {
    hide CatalogRefusal, Keys, Covers, NewOrder, Charge;
  }

  /** When the order transaction commits, and what it throws otherwise. */
  lemma {:induction false} RefusalOf(b: Books, cat: Catalog, req: OrderReq)
    requires req.items != []
    ensures var r := CreateOrder(b, cat, req);
            var priced := AllPriced(cat, req.items);
            var stocked := InPool(b.stock, req.pool, req.items);
            && (r.Committed? <==> && AllActive(cat, req.items) && priced && stocked
                                  && Linkable(b.bookings, req.bookingId))
            && (!AllKnown(cat, req.items) ==> r == Aborted(VariantNotFound))
            && (AllKnown(cat, req.items) && !AllActive(cat, req.items) ==> r == Aborted(VariantNotActive))
            && (AllActive(cat, req.items) && !priced ==>
                  r.Aborted? && exists i :: FirstUnpriced(cat.prices, req.items, i, r.error))
            && (AllActive(cat, req.items) && priced && !stocked ==> r == Aborted(InsufficientStock))
            && (AllActive(cat, req.items) && priced && stocked && !Linkable(b.bookings, req.bookingId)
                ==> r == Aborted(BookingTaken))
  {
    Thrown(b, cat, req);
    CatalogVerdict(cat, req.items);
    CoversIs(b.stock, req.pool, req.items);
    assert Linkable(b.bookings, req.bookingId) <==> BookingFree(b, req.bookingId);
    hide *;
  }

  /** A call is committed exactly when everything it needs is there, and otherwise it is told the first need
      that is not met. */
  lemma {:induction false} PlacedOrTold(b: Books, cat: Catalog, u: UserId, dto: CreateOrderDto,
                                        options: CreateOrderOptions, items: seq<Line>)
    requires Asks(b.carts, u, dto, items)
    ensures var r := PlaceOrder(b, cat, u, dto, options);
            && (r.Committed? <==> Placeable(b, cat, dto, options, items))
            && forall e :: r == Aborted(e) <==> Unplaceable(b, cat, dto, options, items, e)
  {
    RequestOfCall(b, cat, u, dto, options, items);
    hide PlaceOrder;
    var req := OrderReq(u, dto.customerId, items, options.pool, options.bookingId,
                        if dto.items == [] then FirstOpenCart(b.carts, u, 0) else None);
    RefusalOf(b, cat, req);
    hide CreateOrder, AllPriced, InPool, Linkable, AllActive, AllKnown, CustomerKnown, Asks, FirstUnpriced;
    var r := CreateOrder(b, cat, req);
    if r.Aborted? { OnlyOneUnpriced(cat.prices, items, r.error); }
  }

  lemma {:induction false} OnlyOneUnpriced(prices: seq<Price>, items: seq<Line>, e: Error)
    ensures (exists i :: FirstUnpriced(prices, items, i, e)) ==>
              forall d, j :: FirstUnpriced(prices, items, j, d) ==> d == e
  {
    if i :| FirstUnpriced(prices, items, i, e) { OneUnpriced(prices, items, i, e); }
    hide FirstUnpriced;
  }

  lemma {:induction false} OneUnpriced(prices: seq<Price>, items: seq<Line>, i: int, e: Error)
    requires FirstUnpriced(prices, items, i, e)
    ensures forall d, j :: FirstUnpriced(prices, items, j, d) ==> d == e
  {
    hide LinePriced, HasRow;
    forall d, j | FirstUnpriced(prices, items, j, d)
      ensures j == i
    {
    }
  }

  /** The rows are the same but for one, which is new or changed. */
  ghost predicate SameBut<Row>(rows: map<nat, Row>, rows': map<nat, Row>, id: nat) {
    forall x :: x != id ==> (x in rows' <==> x in rows) && (x in rows ==> rows'[x] == rows[x])
  }

  /** The row of an order that has just been placed for these lines. */
  ghost predicate OrderFor(row: Order, prices: seq<Price>, u: UserId, dto: CreateOrderDto, items: seq<Line>) {
    && row.userId == u && row.customerId == dto.customerId && row.status == OrderPending
    && items != [] && FirstCurrency(prices, items[0].variantId, row.currency)
    && row.subtotalMinor == LineTotals(row.items)
    && ItemsOf(row.items, row.currency, prices, items)
  }

  /** One order line per variant asked for. */
  ghost predicate ItemsOf(lines: seq<OrderItem>, c: Currency, prices: seq<Price>, items: seq<Line>) {
    && (forall v :: 1 <= QtyOf(items, v) <==> exists i :: 0 <= i < |lines| && lines[i].variantId == v)
    && (forall i, j :: 0 <= i < j < |lines| ==> lines[i].variantId != lines[j].variantId)
    && forall i :: 0 <= i < |lines| ==> ItemFor(lines[i], c, prices, items)
  }

  /** One line of it: the total quantity asked for, at what the variant costs in the order's currency. */
  ghost predicate ItemFor(item: OrderItem, c: Currency, prices: seq<Price>, items: seq<Line>) {
    && item.quantity == QtyOf(items, item.variantId) && item.currency == c
    && Costs(prices, item.variantId, c, item.unitAmountMinor)
    && item.lineTotalMinor == item.unitAmountMinor * item.quantity
  }

  /** Exactly the lines' quantities have left the pool. */
  ghost predicate Charged(stock: map<StockKey, int>, stock': map<StockKey, int>, pool: Pool, items: seq<Line>) {
    forall k :: (k in stock' <==> k in stock)
                && OnHand(stock', k) == OnHand(stock, k) - if k.pool == pool then QtyOf(items, k.variantId) else 0
  }

  /** A committed call leaves the order asked for, and the pool charged with it; no other order, no payment and
      no provenance row changes. */
  lemma {:induction false} PlacedOrderIs(b: Books, cat: Catalog, u: UserId, dto: CreateOrderDto,
                                         options: CreateOrderOptions, items: seq<Line>)
    requires Asks(b.carts, u, dto, items) && PlaceOrder(b, cat, u, dto, options).Committed?
    ensures var r := PlaceOrder(b, cat, u, dto, options);
            && r.id == b.nextId && r.books.nextId == b.nextId + 1
            && r.id in r.books.orders && OrderFor(r.books.orders[r.id], cat.prices, u, dto, items)
            && SameBut(b.orders, r.books.orders, r.id)
            && r.books.payments == b.payments && r.books.sales == b.sales
            && Charged(b.stock, r.books.stock, options.pool, items)
  {
    hide *;
    RequestOfCall(b, cat, u, dto, options, items);
    assert items != [] by { AsksSome(b, u, dto, items); }
    var cart := if dto.items == [] then FirstOpenCart(b.carts, u, 0) else None;
    var req := OrderReq(u, dto.customerId, items, options.pool, options.bookingId, cart);
    Thrown(b, cat, req);
    CreatedRows(b, cat, req);
    ChargedExactly(b.stock, req.pool, items);
    RowFor(cat, u, dto, req);
    NewRow(b.orders, b.nextId, NewOrder(cat, req));
  }

  lemma {:induction false} AsksSome(b: Books, u: UserId, dto: CreateOrderDto, items: seq<Line>)
    requires Asks(b.carts, u, dto, items)
    ensures items != []
  {
  }

  lemma {:induction false} NewRow<Row>(rows: map<nat, Row>, id: nat, row: Row)
    ensures SameBut(rows, rows[id := row], id)
  {
  }

  lemma {:induction false} CreatedRows(b: Books, cat: Catalog, req: OrderReq)
    requires CreateOrder(b, cat, req).Committed?
    ensures var r := CreateOrder(b, cat, req);
            && r.id == b.nextId && r.books.nextId == b.nextId + 1
            && r.books.orders == b.orders[b.nextId := NewOrder(cat, req)]
            && r.books.payments == b.payments && r.books.sales == b.sales
            && r.books.stock == Charge(b.stock, req.pool, req.items, Keys(req.items))
            && Covers(b.stock, req.pool, req.items, Keys(req.items))
  {
    hide NewOrder, Charge, CatalogRefusal, Covers, Keys;
  }

  lemma {:induction false} ChargedExactly(stock: map<StockKey, int>, pool: Pool, items: seq<Line>)
    requires Covers(stock, pool, items, Keys(items))
    ensures Charged(stock, Charge(stock, pool, items, Keys(items)), pool, items)
  {
    var ks := Keys(items);
    CoversIs(stock, pool, items);
    hide QtyOf, Charge, Covers, Keys;
    forall k
      ensures var stock' := Charge(stock, pool, items, ks);
              (k in stock' <==> k in stock)
              && OnHand(stock', k) == OnHand(stock, k) - if k.pool == pool then QtyOf(items, k.variantId) else 0
    {
      ChargeAt(stock, pool, items, ks, k);
    }
  }

  lemma {:induction false} RowFor(cat: Catalog, u: UserId, dto: CreateOrderDto, req: OrderReq)
    requires req.userId == u && req.customerId == dto.customerId && req.items != []
    requires CatalogRefusal(cat, req.items).None?
    ensures OrderFor(NewOrder(cat, req), cat.prices, u, dto, req.items)
  {
    var items, prices := req.items, cat.prices;
    var row := NewOrder(cat, req);
    CatalogVerdict(cat, items);
    FirstKey(items);
    PricedIn(prices, items);
    assert row.currency == RowsOf(prices, items[0].variantId)[0].currency;
    ItemsForSound(Keys(items), items, prices, row.currency);
    RowLines(prices, items, row.currency);
    hide CatalogRefusal, AllPriced, FirstCurrency, RowsOf, PriceIn, ItemsFor, UnitFn, Keys, QtyOf, ItemsOf, LineTotals,
         Costs, ValueByKey, AllKnown, AllActive, FirstUnpriced;
  }

  lemma {:induction false} RowLines(prices: seq<Price>, items: seq<Line>, c: Currency)
    requires forall v :: v in Keys(items) ==> Costs(prices, v, c, Unit(prices, v, c))
    ensures ItemsOf(ItemsFor(Keys(items), items, prices, c), c, prices, items)
  {
    var lines := ItemsFor(Keys(items), items, prices, c);
    hide Costs, Unit, ItemsFor, Keys, QtyOf, ItemFor, ItemsOf;
    forall i | 0 <= i < |lines|
      ensures ItemFor(lines[i], c, prices, items)
    {
      RowLine(prices, items, c, i);
    }
    LinesAreItems(Keys(items), lines, c, prices, items);
  }

  lemma {:induction false} LinesAreItems(ks: seq<VariantId>, lines: seq<OrderItem>, c: Currency, prices: seq<Price>,
                                         items: seq<Line>)
    requires ks == Keys(items) && |lines| == |ks| && forall i :: 0 <= i < |ks| ==> lines[i].variantId == ks[i]
    requires forall i :: 0 <= i < |lines| ==> ItemFor(lines[i], c, prices, items)
    ensures ItemsOf(lines, c, prices, items)
  {
    forall v
      ensures 1 <= QtyOf(items, v) <==> exists i :: 0 <= i < |lines| && lines[i].variantId == v
    {
      assert v in ks <==> 1 <= QtyOf(items, v);
      hide *;
      LineOfVariant(ks, lines, v);
    }
    forall i, j | 0 <= i < j < |lines|
      ensures lines[i].variantId != lines[j].variantId
    {
      assert ks[i] != ks[j];
    }
    hide QtyOf, ItemFor, Keys;
  }

  lemma {:induction false} RowLine(prices: seq<Price>, items: seq<Line>, c: Currency, i: nat)
    requires i < |Keys(items)|
    requires forall v :: v in Keys(items) ==> Costs(prices, v, c, Unit(prices, v, c))
    ensures ItemFor(ItemsFor(Keys(items), items, prices, c)[i], c, prices, items)
  {
    var ks := Keys(items);
    ItemsForSound(ks, items, prices, c);
    hide Unit, Costs, ItemsFor, UnitFn, Keys, QtyOf, LineTotals, ValueByKey;
    assert ks[i] in ks;
  }

  /** Order lines that follow the keys name exactly these variants. */
  lemma {:induction false} LineOfVariant(ks: seq<VariantId>, lines: seq<OrderItem>, v: VariantId)
    requires |lines| == |ks| && forall i :: 0 <= i < |ks| ==> lines[i].variantId == ks[i]
    ensures v in ks <==> exists i :: 0 <= i < |lines| && lines[i].variantId == v
  {
    if v in ks {
      var i :| 0 <= i < |ks| && ks[i] == v;
      assert lines[i].variantId == v;
    }
  }

  /** Lines that are all priced are so in one currency, and the engine's unit amounts are what they cost. */
  lemma {:induction false} PricedIn(prices: seq<Price>, items: seq<Line>)
    requires items != [] && forall i :: 0 <= i < |items| ==> LinePriced(prices, items, i)
    ensures RowsOf(prices, items[0].variantId) != []
    ensures var c := RowsOf(prices, items[0].variantId)[0].currency;
            && FirstCurrency(prices, items[0].variantId, c)
            && forall v :: v in Keys(items) ==> Costs(prices, v, c, Unit(prices, v, c))
  {
    LineTest(prices, items, 0);
    var k := FirstRowIs(prices, items[0].variantId);
    var c := RowsOf(prices, items[0].variantId)[0].currency;
    forall v | v in Keys(items)
      ensures Costs(prices, v, c, Unit(prices, v, c))
    {
      var i := KeyHasLine(items, v);
      LineTest(prices, items, i);
      UnitIs(prices, v, c);
    }
  }

  /** A committed checkout converts the cart it sold, keeps that cart's owner and items, and leaves every other
      cart alone. A call with lines of its own leaves all carts alone. */
  lemma {:induction false} SoldCartIsConverted(b: Books, cat: Catalog, u: UserId, dto: CreateOrderDto,
                                               options: CreateOrderOptions)
    requires PlaceOrder(b, cat, u, dto, options).Committed?
    ensures var carts := PlaceOrder(b, cat, u, dto, options).books.carts;
            && (dto.items != [] ==> carts == b.carts)
            && (dto.items == [] ==>
                  exists c :: EarliestOpen(b.carts, u, c)
                              && |carts| == |b.carts| && carts[c] == Cart(u, CartConverted, b.carts[c].items)
                              && forall d :: 0 <= d < |carts| && d != c ==> carts[d] == b.carts[d])
  {
    if dto.items == [] {
      var cart := FirstOpenCart(b.carts, u, 0);
      assert cart.Some?;
      FirstOpenIs(b.carts, u, cart.value);
    }
    hide Keys, NewOrder, Charge, CatalogRefusal, WriteRefusal;
  }

  /** So the same cart is not sold twice: the next open cart of the user, if any, is a later one. */
  lemma {:induction false} NextCartIsLater(b: Books, cat: Catalog, u: UserId, dto: CreateOrderDto,
                                           options: CreateOrderOptions, c: int, d: int)
    requires dto.items == [] && PlaceOrder(b, cat, u, dto, options).Committed?
    requires EarliestOpen(b.carts, u, c)
    ensures EarliestOpen(PlaceOrder(b, cat, u, dto, options).books.carts, u, d)
            <==> && c < d < |b.carts| && b.carts[d].userId == u && b.carts[d].status == CartOpen
                 && forall k :: c < k < d ==> b.carts[k].userId != u || b.carts[k].status != CartOpen
  {
    SoldCartIsConverted(b, cat, u, dto, options);
    hide PlaceOrder;
    var carts := PlaceOrder(b, cat, u, dto, options).books.carts;
    var sold :| EarliestOpen(b.carts, u, sold) && |carts| == |b.carts|
                && carts[sold] == Cart(u, CartConverted, b.carts[sold].items)
                && forall k :: 0 <= k < |carts| && k != sold ==> carts[k] == b.carts[k];
    assert sold == c;
  }

  /** And with no later open cart, another checkout is refused. */
  lemma {:induction false} NoSecondCheckout(b: Books, cat: Catalog, u: UserId, dto: CreateOrderDto,
                                            options: CreateOrderOptions, c: int, cat': Catalog,
                                            again: CreateOrderDto, options': CreateOrderOptions)
    requires dto.items == [] && again.items == [] && PlaceOrder(b, cat, u, dto, options).Committed?
    requires EarliestOpen(b.carts, u, c)
    requires forall k :: c < k < |b.carts| ==> b.carts[k].userId != u || b.carts[k].status != CartOpen
    ensures PlaceOrder(PlaceOrder(b, cat, u, dto, options).books, cat', u, again, options') == Aborted(CartEmpty)
  {
    var b' := PlaceOrder(b, cat, u, dto, options).books;
    hide PlaceOrder;
    forall d
      ensures !EarliestOpen(b'.carts, u, d)
    {
      NextCartIsLater(b, cat, u, dto, options, c, d);
    }
    hide EarliestOpen;
    NothingAsked(b', cat', u, again, options');
  }

  /** A committed call links the requested booking, which was there and free, to the new order; no other booking
      changes, and none does when none was requested. */
  lemma {:induction false} BookingIsLinked(b: Books, cat: Catalog, u: UserId, dto: CreateOrderDto,
                                           options: CreateOrderOptions)
    requires PlaceOrder(b, cat, u, dto, options).Committed?
    ensures var r, id := PlaceOrder(b, cat, u, dto, options), options.bookingId;
            && (id.None? ==> r.books.bookings == b.bookings)
            && (id.Some? ==> && id.value in b.bookings && b.bookings[id.value].None?
                             && id.value in r.books.bookings && r.books.bookings[id.value] == Some(r.id)
                             && SameBut(b.bookings, r.books.bookings, id.value))
  {
    hide Keys, NewOrder, Charge, CatalogRefusal, FirstOpenCart, Covers, ConvertCart;
  }

  // ---------- cancellation ----------

  /** Units of a variant on an order's lines. */
  function UnitsOf(items: seq<OrderItem>, v: VariantId): nat {
    if items == [] then 0
    else
      var last := items[|items| - 1];
      UnitsOf(items[..|items| - 1], v) + if last.variantId == v then last.quantity else 0
  }

  lemma {:induction false} UnitsAreQty(items: seq<OrderItem>, v: VariantId)
    ensures QtyOf(ItemLines(items), v) == UnitsOf(items, v)
  {
    if items != [] {
      UnitsAreQty(items[..|items| - 1], v);
      assert ItemLines(items)[..|items| - 1] == ItemLines(items[..|items| - 1]);
    }
  }

  /** Exactly the order's units have come back to the pool. */
  ghost predicate Returned(stock: map<StockKey, int>, stock': map<StockKey, int>, pool: Pool, items: seq<OrderItem>) {
    forall k :: OnHand(stock', k)
                == OnHand(stock, k) + if k.pool == pool then UnitsOf(items, k.variantId) else 0
  }

  /** An order is cancelled exactly when it is pending; its units go back to the store of its provenance row, or
      to the global pool when it has none, and of the other rows none changes. */
  lemma {:induction false} Cancelled(b: Books, o: OrderId)
    ensures var r := CancelOrder(b, o);
            && (o !in b.orders ==> r == Aborted(OrderNotFound))
            && (o in b.orders && b.orders[o].status != OrderPending ==> r == Aborted(OrderNotPending))
            && (o in b.orders && b.orders[o].status == OrderPending ==>
                  && r.Committed? && o in r.books.orders
                  && r.books.orders[o] == b.orders[o].(status := OrderCancelled)
                  && SameBut(b.orders, r.books.orders, o)
                  && Returned(b.stock, r.books.stock, if o in b.sales then Store(b.sales[o].storeId) else Global,
                              b.orders[o].items)
                  && r.books == b.(stock := r.books.stock, orders := r.books.orders))
  {
    if o in b.orders && b.orders[o].status == OrderPending {
      ReturnedExactly(b.stock, RestockPool(b, o), b.orders[o].items);
      NewRow(b.orders, o, b.orders[o].(status := OrderCancelled));
    }
    hide Restock, Keys, Returned, ItemLines, QtyOf, SameBut;
  }

  lemma {:induction false} ReturnedExactly(stock: map<StockKey, int>, pool: Pool, items: seq<OrderItem>)
    ensures Returned(stock, Restock(stock, pool, ItemLines(items), Keys(ItemLines(items))), pool, items)
  {
    var lines := ItemLines(items);
    forall k
      ensures OnHand(Restock(stock, pool, lines, Keys(lines)), k)
              == OnHand(stock, k) + if k.pool == pool then UnitsOf(items, k.variantId) else 0
    {
      RestockAt(stock, pool, lines, Keys(lines), k);
      UnitsAreQty(items, k.variantId);
      hide Restock, UnitsOf, ItemLines, QtyOf;
    }
  }

  // ---------- payments ----------

  /** A payment is created exactly for a pending order without a captured payment: processing, with the order's
      amount and currency. */
  lemma {:induction false} PaymentCreated(b: Books, o: OrderId, tender: Method)
    ensures var r := CreatePayment(b, o, tender);
            var paid := exists p :: p in b.payments && b.payments[p].orderId == o && b.payments[p].status == Captured;
            && (o !in b.orders ==> r == Aborted(OrderNotFound))
            && (o in b.orders && b.orders[o].status != OrderPending ==> r == Aborted(OrderNotPending))
            && (o in b.orders && b.orders[o].status == OrderPending && paid ==> r == Aborted(CapturedExists))
            && (o in b.orders && b.orders[o].status == OrderPending && !paid ==>
                  && r.Committed? && r.id == b.nextId && r.id in r.books.payments
                  && r.books.payments[r.id]
                     == Payment(o, Processing, tender, b.orders[o].subtotalMinor, b.orders[o].currency)
                  && SameBut(b.payments, r.books.payments, r.id)
                  && r.books == b.(payments := r.books.payments, nextId := b.nextId + 1))
  {
  }

  /** A capture moves a processing payment of a pending order, and that order, together; it repeats without effect,
      and otherwise says what is in the way. */
  lemma {:induction false} PaymentCaptured(b: Books, p: PaymentId)
    ensures var r := CapturePayment(b, p);
            && (p !in b.payments ==> r == Aborted(PaymentNotFound))
            && (p in b.payments ==>
                  var pay, o := b.payments[p], b.payments[p].orderId;
                  var open := o in b.orders && b.orders[o].status == OrderPending;
                  && (pay.status == Captured ==> r == Committed(b, p))
                  && (pay.status == Failed ==> r == Aborted(FailedCannotCapture))
                  && (pay.status == Processing && !open ==> r == Aborted(OrderNotPending))
                  && (pay.status == Processing && open ==>
                        && r.Committed? && r.id == p
                        && p in r.books.payments && r.books.payments[p] == pay.(status := Captured)
                        && o in r.books.orders && r.books.orders[o] == b.orders[o].(status := OrderPaid)
                        && SameBut(b.payments, r.books.payments, p) && SameBut(b.orders, r.books.orders, o)
                        && r.books == b.(payments := r.books.payments, orders := r.books.orders)))
  {
  }

  /** A failure moves a processing payment and nothing else; it repeats without effect, and never undoes a
      capture. */
  lemma {:induction false} PaymentFailed(b: Books, p: PaymentId)
    ensures var r := FailPayment(b, p);
            && (p !in b.payments ==> r == Aborted(PaymentNotFound))
            && (p in b.payments ==>
                  var pay := b.payments[p];
                  && (pay.status == Failed ==> r == Committed(b, p))
                  && (pay.status == Captured ==> r == Aborted(CapturedCannotFail))
                  && (pay.status == Processing ==>
                        && r.Committed? && r.id == p
                        && p in r.books.payments && r.books.payments[p] == pay.(status := Failed)
                        && SameBut(b.payments, r.books.payments, p)
                        && r.books == b.(payments := r.books.payments)))
  {
  }

  /** A provenance row is inserted exactly when neither its order nor its payment has one. */
  lemma {:induction false} SaleInserted(b: Books, o: OrderId, sale: Sale)
    ensures var r := InsertSale(b, o, sale);
            var taken := o in b.sales || exists x :: x in b.sales && b.sales[x].paymentId == sale.paymentId;
            && (taken ==> r == Aborted(UniqueViolation))
            && (!taken ==> && r.Committed? && o in r.books.sales && r.books.sales[o] == sale
                           && SameBut(b.sales, r.books.sales, o) && r.books == b.(sales := r.books.sales))
  {
  }
}
