/** InventoryService.adjustScoped run on its own, and its agreement with the stepped call that
    the platform interleaves. */
module Inventory {
  import opened Schema
  import opened Ledger
  import opened Database
  import opened Platform
  import OrderPayments
  import StockLaws

  /** The refusal of an adjustment that meets no interference, if any. */
  function AdjustRefusal(stock: map<StockKey, int>, cat: Catalog, k: StockKey, delta: int): Option<Error> {
    if k.variantId !in cat.variants then Some(VariantNotFound)
    else if k.pool.Store? && k.pool.storeId !in cat.stores then Some(StoreNotFound)
    else if OnHand(stock, k) + delta < 0 then Some(InsufficientStock)
    else None
  }

  /** An adjustment is refused exactly for an unknown variant, an unknown store, or a pool that would go below zero, in
      this order. */
  lemma {:induction false} AdjustNeeds(stock: map<StockKey, int>, cat: Catalog, v: VariantId, pool: Pool, delta: int)
    ensures var k := StockKey(v, pool);
            var e, onHand := AdjustRefusal(stock, cat, k, delta), if k in stock then stock[k] else 0;
            var known := v in cat.variants;
            var placed := pool == Global || pool.storeId in cat.stores;
            && (!known ==> e == Some(VariantNotFound))
            && (known && !placed ==> e == Some(StoreNotFound))
            && (known && placed && onHand + delta < 0 ==> e == Some(InsufficientStock))
            && (known && placed && 0 <= onHand + delta ==> e.None?)
  {
  }

  class InventoryService {
    const prisma: Prisma

    constructor (prisma: Prisma)
      ensures this.prisma == prisma
    {
      this.prisma := prisma;
    }

    /** Adds a signed delta to one pool, creating its row on the first positive adjustment. */
    method AdjustScoped(k: StockKey, delta: int) returns (r: Result<int>)
      requires k in prisma.stock ==> 0 <= prisma.stock[k]
      modifies prisma`stock
      ensures var refusal := AdjustRefusal(old(prisma.stock), prisma.catalog, k, delta);
              && (refusal.Some? ==> r == Err(refusal.value) && prisma.stock == old(prisma.stock))
              && (refusal.None? ==>
                    && r == Ok(OnHand(old(prisma.stock), k) + delta)
                    && prisma.stock == old(prisma.stock)[k := OnHand(old(prisma.stock), k) + delta])
    {
      if k.variantId !in prisma.catalog.variants {
        return Err(VariantNotFound);
      }
      if k.pool.Store? && k.pool.storeId !in prisma.catalog.stores {
        return Err(StoreNotFound);
      }
      var updated := prisma.AddToStock(k, -delta, delta);
      if updated == 1 {
        return Ok(prisma.stock[k]);
      }
      if k !in prisma.stock {
        if delta < 0 {
          return Err(InsufficientStock);
        }
        prisma.stock := prisma.stock[k := delta];
        return Ok(delta);
      }
      return Err(InsufficientStock);
    }
  }

  /** One call stepped alone until it answers. */
  function Alone(s: Sys, c: nat, steps: nat): Sys
    decreases steps
  {
    if steps == 0 then s else Alone(Act(s, StepAdjust(c)), c, steps - 1)
  }

  /** What one step of a call leaves behind. */
  lemma {:induction false} StepEffect(s: Sys, c: nat)
    requires c in s.adjusts
    ensures var s', e := Act(s, StepAdjust(c)), AdjustStep(s, s.adjusts[c]);
            && c in s'.adjusts && s'.adjusts[c] == e.1 && s'.catalog == s.catalog
            && s'.books.stock == Commit(s, e.0).books.stock
  {
    hide AdjustStep, OrderPayments.Step, StockLaws.Charged;
  }

  /** A call that has answered takes no further step. */
  lemma {:induction false} EndedStays(s: Sys, c: nat, steps: nat)
    requires c in s.adjusts && (s.adjusts[c].pc.AFailed? || s.adjusts[c].pc.ASucceeded?)
    ensures var s' := Alone(s, c, steps);
            c in s'.adjusts && s'.adjusts[c] == s.adjusts[c] && s'.books.stock == s.books.stock
    decreases steps
  {
    hide Act;
    if steps != 0 {
      StepEffect(s, c);
      EndedStays(Act(s, StepAdjust(c)), c, steps - 1);
    }
  }

  /** The call whose guarded update matched no row. */
  lemma {:induction false} FromMiss(s: Sys, c: nat, steps: nat)
    requires 3 <= steps && c in s.adjusts && s.adjusts[c].pc.AReadExisting?
    requires var a := s.adjusts[c]; a.k in s.books.stock ==> s.books.stock[a.k] < -a.delta
    ensures var a, s' := s.adjusts[c], Alone(s, c, steps);
            && c in s'.adjusts
            && (a.k in s.books.stock || a.delta < 0 ==>
                  s'.adjusts[c].pc == AFailed(InsufficientStock) && s'.books.stock == s.books.stock)
            && (a.k !in s.books.stock && 0 <= a.delta ==>
                  s'.adjusts[c].pc == ASucceeded && s'.books.stock == s.books.stock[a.k := a.delta])
  {
    hide Act, Increment;
    var s1 := Act(s, StepAdjust(c));
    StepEffect(s, c);
    if s1.adjusts[c].pc.ACreate? {
      StepEffect(s1, c);
      EndedStays(Act(s1, StepAdjust(c)), c, steps - 2);
    } else {
      EndedStays(s1, c, steps - 1);
    }
  }

  /** The call from its guarded update on. */
  lemma {:induction false} FromUpdate(s: Sys, c: nat, steps: nat)
    requires 4 <= steps && c in s.adjusts && s.adjusts[c].pc.AUpdate?
    requires var k := s.adjusts[c].k; k in s.books.stock ==> 0 <= s.books.stock[k]
    ensures var a, s' := s.adjusts[c], Alone(s, c, steps);
            var left := OnHand(s.books.stock, a.k) + a.delta;
            && c in s'.adjusts
            && (left < 0 ==> s'.adjusts[c].pc == AFailed(InsufficientStock) && s'.books.stock == s.books.stock)
            && (0 <= left ==> s'.adjusts[c].pc == ASucceeded && s'.books.stock == s.books.stock[a.k := left])
  {
    hide Act, CreateStock;
    var s1 := Act(s, StepAdjust(c));
    StepEffect(s, c);
    assert Alone(s, c, steps) == Alone(s1, c, steps - 1);
    if s1.adjusts[c].pc.AReadBack? {
      StepEffect(s1, c);
      EndedStays(Act(s1, StepAdjust(c)), c, steps - 2);
    } else {
      FromMiss(s1, c, steps - 1);
    }
  }

  /** Without interference the stepped call and the method agree: same refusal, same stock. */
  lemma {:induction false} AloneIsAdjustScoped(s: Sys, c: nat, steps: nat)
    requires 6 <= steps && c in s.adjusts && s.adjusts[c].pc.AReadVariant? && !s.adjusts[c].applied
    requires var k := s.adjusts[c].k; k in s.books.stock ==> 0 <= s.books.stock[k]
    ensures var a, s' := s.adjusts[c], Alone(s, c, steps);
            var refusal := AdjustRefusal(s.books.stock, s.catalog, a.k, a.delta);
            && c in s'.adjusts
            && (refusal.Some? ==> s'.adjusts[c].pc == AFailed(refusal.value) && s'.books.stock == s.books.stock)
            && (refusal.None? ==> s'.adjusts[c].pc == ASucceeded
                                  && s'.books.stock == s.books.stock[a.k := OnHand(s.books.stock, a.k) + a.delta])
  {
    hide Act;
    var s1 := Act(s, StepAdjust(c));
    var s2 := Act(s1, StepAdjust(c));
    StepEffect(s, c);
    StepEffect(s1, c);
    assert Alone(s, c, steps) == Alone(s1, c, steps - 1) == Alone(s2, c, steps - 2);
    if s1.adjusts[c].pc.AFailed? {
      EndedStays(s1, c, steps - 1);
    } else if s2.adjusts[c].pc.AFailed? {
      EndedStays(s2, c, steps - 2);
    } else {
      FromUpdate(s2, c, steps - 2);
    }
  }
}
