/** CartService over the cart rows, changed in place. */
module CartAdministration {
  import opened Schema
  import opened Ledger
  import opened Database
  import opened Orders
  import opened Carts

  /** A cart item's id stands for its unique (cart, variant) pair. */
  datatype ItemId = ItemId(cartId: CartId, variantId: VariantId)

  class CartService {
    const prisma: Prisma

    constructor (prisma: Prisma)
      ensures this.prisma == prisma
    {
      this.prisma := prisma;
    }

    method GetOrCreateCart(u: UserId) returns (c: CartId)
      modifies prisma`carts
      ensures prisma.carts == WithOpenCart(old(prisma.carts), u) && c == OpenCart(old(prisma.carts), u)
      ensures CartsOk(old(prisma.carts)) ==> CartsOk(prisma.carts)
    {
      var existing := FirstOpenCart(prisma.carts, u, 0);
      if existing.Some? {
        return existing.value;
      }
      prisma.carts := prisma.carts + [Cart(u, CartOpen, [])];
      return |prisma.carts| - 1;
    }

    /** Finds the item of a variant in a cart. */
    method FindItem(c: CartId, v: VariantId) returns (i: Option<nat>)
      requires c < |prisma.carts|
      ensures i == IndexOf(prisma.carts[c].items, v, 0)
    {
      var items := prisma.carts[c].items;
      for k := 0 to |items|
        invariant IndexOf(items, v, 0) == IndexOf(items, v, k)
      {
        if items[k].variantId == v {
          return Some(k);
        }
      }
      return None;
    }

    method AddItem(u: UserId, v: VariantId, quantity: Quantity) returns (r: Result<CartId>)
      requires CartsOk(prisma.carts)
      modifies prisma`carts
      ensures CartsOk(prisma.carts)
      ensures v !in prisma.catalog.variants ==> r == Err(VariantNotFound) && prisma.carts == old(prisma.carts)
      ensures v in prisma.catalog.variants ==>
                var carts, c := WithOpenCart(old(prisma.carts), u), OpenCart(old(prisma.carts), u);
                r == Ok(c) && prisma.carts == SetItems(carts, c, Merge(carts[c].items, v, quantity))
    {
      if v !in prisma.catalog.variants {
        return Err(VariantNotFound);
      }
      var c := GetOrCreateCart(u);
      var items := prisma.carts[c].items;
      MergeAdds(items, v, quantity, v);
      var existing := FindItem(c, v);
      if existing.Some? {
        items := items[existing.value := Line(v, items[existing.value].quantity + quantity)];
      } else {
        items := items + [Line(v, quantity)];
      }
      prisma.carts := prisma.carts[c := prisma.carts[c].(items := items)];
      return Ok(c);
    }

    method UpdateItem(u: UserId, id: ItemId, quantity: Quantity) returns (r: Result<CartId>)
      requires CartsOk(prisma.carts)
      modifies prisma`carts
      ensures CartsOk(prisma.carts)
      ensures var carts, c := WithOpenCart(old(prisma.carts), u), OpenCart(old(prisma.carts), u);
              if id.cartId == c && IndexOf(carts[c].items, id.variantId, 0).Some?
              then r == Ok(c) && prisma.carts == SetItems(carts, c, SetQuantity(carts[c].items, id.variantId, quantity))
              else r == Err(CartItemNotFound) && prisma.carts == carts
    {
      var c := GetOrCreateCart(u);
      if id.cartId != c {
        return Err(CartItemNotFound);
      }
      var found := FindItem(c, id.variantId);
      if found.None? {
        return Err(CartItemNotFound);
      }
      SetQuantitySets(prisma.carts[c].items, id.variantId, quantity, id.variantId);
      var items := prisma.carts[c].items[found.value := Line(id.variantId, quantity)];
      prisma.carts := prisma.carts[c := prisma.carts[c].(items := items)];
      return Ok(c);
    }

    method RemoveItem(u: UserId, id: ItemId) returns (r: Result<CartId>)
      requires CartsOk(prisma.carts)
      modifies prisma`carts
      ensures CartsOk(prisma.carts)
      ensures var carts, c := WithOpenCart(old(prisma.carts), u), OpenCart(old(prisma.carts), u);
              if id.cartId == c && IndexOf(carts[c].items, id.variantId, 0).Some?
              then r == Ok(c) && prisma.carts == SetItems(carts, c, Without(carts[c].items, id.variantId))
              else r == Err(CartItemNotFound) && prisma.carts == carts
    {
      var c := GetOrCreateCart(u);
      if id.cartId != c {
        return Err(CartItemNotFound);
      }
      var found := FindItem(c, id.variantId);
      if found.None? {
        return Err(CartItemNotFound);
      }
      var i, items := found.value, prisma.carts[c].items;
      WithoutRemoves(items, id.variantId, id.variantId);
      prisma.carts := prisma.carts[c := prisma.carts[c].(items := items[..i] + items[i + 1..])];
      return Ok(c);
    }

    /** The per-currency totals of enrichCart: every price row of every item, accumulated. */
    method EnrichTotals(items: seq<Line>) returns (totals: map<Currency, int>)
      ensures forall c :: c in totals <==> Offered(prisma.catalog.prices, items, c)
      ensures forall c :: c in totals ==> totals[c] == CartTotal(prisma.catalog.prices, items, c)
    {
      hide HasRow, RowsOf, SumIn, LineTotals;
      var prices := prisma.catalog.prices;
      var priceMap := OrderService.GroupPrices(prices);
      totals := map[];
      for i := 0 to |items|
        invariant forall c :: c in totals <==> Offered(prices, items[..i], c)
        invariant forall c :: Amount(totals, c) == CartTotal(prices, items[..i], c)
      {
        var v := items[i].variantId;
        var rows := if v in priceMap then priceMap[v] else [];
        assert rows == RowsOf(prices, v);
        totals := AddRows(totals, rows, items[i].quantity);
        assert items[..i + 1][..i] == items[..i];
        OfferedExtend(prices, items[..i], items[i]);
        assert items[..i + 1] == items[..i] + [items[i]];
      }
      assert items[..|items|] == items;
      assert forall c :: c in totals ==> totals[c] == Amount(totals, c);
    }

    /** The inner loop: one item's price rows. */
    method AddRows(start: map<Currency, int>, rows: seq<Price>, quantity: int) returns (totals: map<Currency, int>)
      ensures forall c :: c in totals <==> c in start || HasRow(rows, c)
      ensures forall c :: Amount(totals, c) == Amount(start, c) + SumIn(LineTotals(rows, quantity), c)
    {
      totals := start;
      for j := 0 to |rows|
        invariant forall c :: c in totals <==> c in start || HasRow(rows[..j], c)
        invariant forall c :: Amount(totals, c) == Amount(start, c) + SumIn(LineTotals(rows[..j], quantity), c)
      {
        var pr := rows[j];
        var existing := if pr.currency in totals then totals[pr.currency] else 0;
        totals := totals[pr.currency := existing + pr.amountMinor * quantity];
        assert LineTotals(rows[..j + 1], quantity)[..j] == LineTotals(rows[..j], quantity);
        HasRowExtend(rows[..j], pr);
        assert rows[..j + 1] == rows[..j] + [pr];
      }
      assert rows[..|rows|] == rows;
    }
  }

  function Amount(totals: map<Currency, int>, c: Currency): int {
    if c in totals then totals[c] else 0
  }

  lemma {:induction false} HasRowExtend(rows: seq<Price>, row: Price)
    ensures forall c :: HasRow(rows + [row], c) <==> HasRow(rows, c) || row.currency == c
  {
    forall c
      ensures HasRow(rows + [row], c) <==> HasRow(rows, c) || row.currency == c
    {
      assert row in rows + [row];
      if HasRow(rows, c) {
        var r :| r in rows && r.currency == c;
        assert r in rows + [row];
      }
    }
  }

  lemma {:induction false} OfferedExtend(prices: seq<Price>, items: seq<Line>, item: Line)
    ensures forall c ::
              Offered(prices, items + [item], c)
              <==> Offered(prices, items, c) || HasRow(RowsOf(prices, item.variantId), c)
  {
    hide HasRow;
    forall c
      ensures Offered(prices, items + [item], c)
              <==> Offered(prices, items, c) || HasRow(RowsOf(prices, item.variantId), c)
    {
      var more := items + [item];
      assert more[|items|] == item;
      assert forall i :: 0 <= i < |items| ==> more[i] == items[i];
    }
  }
}
