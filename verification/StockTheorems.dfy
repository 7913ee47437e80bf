/** Stock conservation over every interleaving of orders, cancellations, sales, sync calls and
    adjustments stepped statement by statement. */
module StockTheorems {
  import opened Schema
  import opened Ledger
  import opened OrderPayments
  import opened StockLaws
  import opened Sums
  import opened Platform
  import opened PlatformSafety
  import opened PlatformSteps
  import opened SyncTheorems

  // ---------- net adjustments ----------

  /** What an adjustment call has put into a pool's row so far. */
  ghost function Put(a: Adjust, k: StockKey): int {
    if a.applied && a.k == k then a.delta else 0
  }

  ghost function PutOf(a: Adjust, v: VariantId): int {
    if a.applied then (if a.k.variantId == v then a.delta else 0) else 0
  }

  ghost function PoolPuts(adjusts: map<nat, Adjust>, k: StockKey): map<nat, int> {
    map c | c in adjusts :: Put(adjusts[c], k)
  }

  ghost function Puts(adjusts: map<nat, Adjust>, v: VariantId): map<nat, int> {
    map c | c in adjusts :: PutOf(adjusts[c], v)
  }

  /** Net of the adjustments that returned success. */
  ghost function Succeeded(adjusts: map<nat, Adjust>, v: VariantId): map<nat, int> {
    map c | c in adjusts :: if adjusts[c].pc.ASucceeded? && adjusts[c].k.variantId == v then adjusts[c].delta else 0
  }

  /** No adjustment is between its write and its answer, or crashed there. */
  ghost predicate Quiet(s: Sys) {
    forall c :: c in s.adjusts && s.adjusts[c].applied ==> s.adjusts[c].pc.ASucceeded?
  }

  lemma {:induction false} QuietPuts(s: Sys, v: VariantId)
    requires Inv(s) && Quiet(s)
    ensures Puts(s.adjusts, v) == Succeeded(s.adjusts, v)
  {
    hide BooksOk, OpsOk, WorkerOk;
    forall c | c in s.adjusts
      ensures Puts(s.adjusts, v)[c] == Succeeded(s.adjusts, v)[c]
    {
      assert AdjustOk(s, s.adjusts[c]);
    }
  }

  // ---------- one action, one commit ----------

  /** The ledger commit an action makes, if any. */
  ghost function TxOf(s: Sys, a: Action): Option<Tx> {
    match a
    case PublicCall(tx) => if Public(s, tx) then Some(tx) else None
    case StepWorker(i, ch) => if i in s.workers then WorkerStep(s, s.workers[i], ch).tx else None
    case StepAdjust(c) => if c in s.adjusts then AdjustStep(s, s.adjusts[c]).0 else None
    case _ => None
  }

  /** The adjustment calls after an action. */
  ghost function AdjustsAfter(s: Sys, a: Action): map<nat, Adjust> {
    match a
    case StepAdjust(c) => if c in s.adjusts then s.adjusts[c := AdjustStep(s, s.adjusts[c]).1] else s.adjusts
    case CallAdjust(c, k, delta) =>
      if c in s.adjusts || delta == 0 then s.adjusts else s.adjusts[c := Adjust(k, delta, AReadVariant, false)]
    case CrashAdjust(c) =>
      if c in s.adjusts && !s.adjusts[c].pc.ASucceeded? && !s.adjusts[c].pc.AFailed?
      then s.adjusts[c := s.adjusts[c].(pc := ACrashed)] else s.adjusts
    case _ => s.adjusts
  }

  lemma {:induction false} CommitAdjusts(s: Sys, tx: Option<Tx>)
    ensures Commit(s, tx).adjusts == s.adjusts
  {
  }

  lemma {:induction false} AdjustsOnly(s: Sys, a: Action)
    ensures Act(s, a).adjusts == AdjustsAfter(s, a)
  {
    if a.Administer? { TableRows(s, a.table); }
    if a.PublicCall? { CommitAdjusts(s, Some(a.tx)); }
    if a.StepWorker? && a.w in s.workers { CommitAdjusts(s, WorkerStep(s, s.workers[a.w], a.choice).tx); }
    if a.StepAdjust? && a.c in s.adjusts { CommitAdjusts(s, AdjustStep(s, s.adjusts[a.c]).0); }
    hide Commit, WorkerStep, AdjustStep, Public, Recordable, NewOperation, ActTable, NewWorker;
  }

  /** The rows a ledger commit writes. */
  ghost predicate SameLedger(s: Sys, t: Sys) {
    s.books.stock == t.books.stock && s.books.orders == t.books.orders && s.books.sales == t.books.sales
      && s.charged == t.charged
  }

  lemma {:induction false} LedgerOnly(s: Sys, a: Action)
    ensures SameLedger(Act(s, a), Commit(s, TxOf(s, a)))
  {
    hide Step, Charged, WorkerStep, AdjustStep, Public, Recordable, NewOperation, ActTable, NewWorker, Commit;
    if a.Administer? {
      TableRows(s, a.table);
      NoCommit(s);
    } else if a.StepWorker? || a.StepAdjust? || a.PublicCall? {
      NoCommit(s);
    } else {
      OtherLedger(s, a);
    }
  }

  lemma {:induction false} NoCommit(s: Sys)
    ensures Commit(s, None) == s
  {
  }

  lemma {:induction false} OtherLedger(s: Sys, a: Action)
    requires !a.Administer? && !a.StepWorker? && !a.StepAdjust? && !a.PublicCall?
    ensures SameLedger(Act(s, a), Commit(s, TxOf(s, a)))
  {
    hide Step, Charged, WorkerStep, AdjustStep, Public, Recordable, NewOperation, ActTable, NewWorker;
  }

  /** Every action changes stock, orders and charges by at most one ledger commit. */
  lemma {:induction false} OneCommit(s: Sys, a: Action)
    ensures SameLedger(Act(s, a), Commit(s, TxOf(s, a)))
    ensures Act(s, a).adjusts == AdjustsAfter(s, a)
  {
    hide Act, Commit, TxOf, AdjustsAfter;
    LedgerOnly(s, a);
    AdjustsOnly(s, a);
  }

  /** Sync and sale calls never write stock rows directly. */
  lemma {:induction false} WorkersNeverAdjust(s: Sys, w: Worker, ch: Choice)
    ensures var tx := WorkerStep(s, w, ch).tx;
            tx.Some? ==> !tx.value.TxIncrement? && !tx.value.TxCreateStock? && !tx.value.TxCancelOrder?
  {
    hide ProtocolStep, EngineRead, EngineWrite;
    if w.job.SyncJob? { ProtocolCommitsNothing(s, w, ch); }
    if w.request.Some? {
      EngineReadCommitsNothing(s, w);
      if w.session.Some? { EngineCommits(s, w); }
    }
  }

  lemma {:induction false} ProtocolCommitsNothing(s: Sys, w: Worker, ch: Choice)
    requires w.job.SyncJob?
    ensures ProtocolStep(s, w, ch).tx.None?
  {
  }

  lemma {:induction false} EngineReadCommitsNothing(s: Sys, w: Worker)
    requires w.request.Some?
    ensures EngineRead(s, w).tx.None?
  {
  }

  lemma {:induction false} EngineCommits(s: Sys, w: Worker)
    requires w.request.Some? && w.session.Some?
    ensures var tx := EngineWrite(s, w).tx;
            tx.Some? ==> !tx.value.TxIncrement? && !tx.value.TxCreateStock? && !tx.value.TxCancelOrder?
  {
    hide Apply, EngineOrderReq, SaleRow;
  }

  /** An adjustment's write is recorded as applied exactly when it was committed, once. */
  lemma {:induction false} AdjustInjects(s: Sys, a: Adjust, v: VariantId, k: StockKey)
    requires AdjustOk(s, a)
    ensures var e := AdjustStep(s, a);
            && (e.0.Some? ==> PutOf(e.1, v) == PutOf(a, v) + InjectedOf(s.books, e.0.value, v)
                              && Put(e.1, k) == Put(a, k) + Injected(s.books, e.0.value, k))
            && (e.0.None? ==> PutOf(e.1, v) == PutOf(a, v) && Put(e.1, k) == Put(a, k))
            && (e.0.Some? ==> e.0.value.TxIncrement? || e.0.value.TxCreateStock?)
  {
  }

  lemma {:induction false} PutsChange(adjusts: map<nat, Adjust>, c: nat, a: Adjust, v: VariantId, k: StockKey)
    ensures Sum(Puts(adjusts[c := a], v)) == Sum(Puts(adjusts, v)) + PutOf(a, v)
            - if c in adjusts then PutOf(adjusts[c], v) else 0
    ensures Sum(PoolPuts(adjusts[c := a], k)) == Sum(PoolPuts(adjusts, k)) + Put(a, k)
            - if c in adjusts then Put(adjusts[c], k) else 0
  {
    assert Puts(adjusts[c := a], v) == Puts(adjusts, v)[c := PutOf(a, v)];
    SumUpdate(Puts(adjusts, v), c, PutOf(a, v));
    assert PoolPuts(adjusts[c := a], k) == PoolPuts(adjusts, k)[c := Put(a, k)];
    SumUpdate(PoolPuts(adjusts, k), c, Put(a, k));
  }

  /** How one action moves the net adjustments: by exactly what its commit injects. */
  lemma {:induction false} PutsStep(s: Sys, a: Action, v: VariantId, k: StockKey)
    requires Inv(s)
    ensures var s', tx := Act(s, a), TxOf(s, a);
            && Sum(Puts(s'.adjusts, v)) == Sum(Puts(s.adjusts, v))
               + (if tx.Some? then InjectedOf(s.books, tx.value, v) else 0)
            && Sum(PoolPuts(s'.adjusts, k)) == Sum(PoolPuts(s.adjusts, k))
               + (if tx.Some? then Injected(s.books, tx.value, k) else 0)
  {
    hide BooksOk, OpsOk, WorkerOk, Act, WorkerStep, AdjustStep;
    OneCommit(s, a);
    match a
    case StepAdjust(c) =>
      if c in s.adjusts {
        assert AdjustOk(s, s.adjusts[c]);
        AdjustInjects(s, s.adjusts[c], v, k);
        PutsChange(s.adjusts, c, AdjustStep(s, s.adjusts[c]).1, v, k);
      }
    case CallAdjust(c, key, delta) => PutsChange(s.adjusts, c, Adjust(key, delta, AReadVariant, false), v, k);
    case CrashAdjust(c) =>
      if c in s.adjusts { PutsChange(s.adjusts, c, s.adjusts[c].(pc := ACrashed), v, k); }
    case StepWorker(i, ch) =>
      if i in s.workers { WorkersNeverAdjust(s, s.workers[i], ch); }
    case _ =>
  }

  // ---------- total conservation ----------

  lemma {:induction false} TotalAct(s: Sys, a: Action, v: VariantId)
    requires Inv(s)
    ensures Total(Act(s, a).books, v) - Sum(Puts(Act(s, a).adjusts, v)) == Total(s.books, v) - Sum(Puts(s.adjusts, v))
  {
    hide Act, Sound, TxOf, Step, InjectedOf;
    OneCommit(s, a);
    PutsStep(s, a, v, StockKey(v, Global));
    if TxOf(s, a).Some? {
      TotalStep(s.books, TxOf(s, a).value, v);
    }
  }

  /** Over any run, whatever starts it, stock plus held units drifts exactly with the net adjustments. */
  lemma {:induction false} TotalRun(s: Sys, acts: seq<Action>, v: VariantId)
    requires Inv(s)
    ensures var s' := Exec(s, acts);
            Total(s'.books, v) - Sum(Puts(s'.adjusts, v)) == Total(s.books, v) - Sum(Puts(s.adjusts, v))
  {
    hide Inv, Act, Total;
    if acts != [] {
      TotalRun(s, acts[..|acts| - 1], v);
      ExecOk(s, acts[..|acts| - 1]);
      TotalAct(Exec(s, acts[..|acts| - 1]), acts[|acts| - 1], v);
    }
  }

  lemma {:induction false} EmptyTotals(s: Sys, v: VariantId, k: StockKey)
    requires Init(s)
    ensures Total(s.books, v) == 0 && Sum(Puts(s.adjusts, v)) == 0
    ensures PoolTotal(s.books, s.charged, k) == 0 && Sum(PoolPuts(s.adjusts, k)) == 0
  {
    SumZero(map x | x in s.books.stock && x.variantId == v :: s.books.stock[x]);
    SumZero(HeldBy(s.books.orders, v));
    SumZero(Puts(s.adjusts, v));
    SumZero(PoolHeldBy(s.books.orders, s.charged, k));
    SumZero(PoolPuts(s.adjusts, k));
  }

  /** Total conservation: in every reachable state no pool is negative, and a variant's stock over
      all pools plus what non-cancelled orders hold is the net of the applied adjustments, which
      are the successful ones whenever none is left between its write and its answer. */
  lemma {:induction false} StockConserved(s: Sys, v: VariantId)
    requires Reachable(s)
    ensures NonNegative(s.books.stock)
    ensures OnShelves(s.books.stock, v) + HeldTotal(s.books.orders, v) == Sum(Puts(s.adjusts, v))
    ensures Quiet(s) ==> OnShelves(s.books.stock, v) + HeldTotal(s.books.orders, v) == Sum(Succeeded(s.adjusts, v))
  {
    hide Inv, Act;
    var s0: Sys, acts: seq<Action> :| Init(s0) && Exec(s0, acts) == s;
    InitOk(s0);
    EmptyTotals(s0, v, StockKey(v, Global));
    TotalRun(s0, acts, v);
    ReachableOk(s);
    SoundBooks(s);
    if Quiet(s) { QuietPuts(s, v); }
  }

  /** No pool is negative, whatever orders, cancellations, sales, sync calls and adjustments have run. */
  lemma {:induction false} NeverNegative(s: Sys, k: StockKey)
    requires Reachable(s)
    ensures 0 <= OnHand(s.books.stock, k)
  {
    hide OpsOk, WorkerOk;
    ReachableOk(s);
    assert NonNegative(s.books.stock);
  }

  lemma {:induction false} SoundBooks(s: Sys)
    requires Inv(s)
    ensures NonNegative(s.books.stock)
  {
  }

  /** An adjustment that failed has put nothing anywhere, and one that succeeded its delta. */
  lemma {:induction false} FailedPutsNothing(s: Sys, c: nat)
    requires Reachable(s) && c in s.adjusts
    ensures s.adjusts[c].pc.AFailed? ==> forall k :: Put(s.adjusts[c], k) == 0
    ensures s.adjusts[c].pc.ASucceeded? ==> Put(s.adjusts[c], s.adjusts[c].k) == s.adjusts[c].delta
  {
    hide BooksOk, OpsOk, WorkerOk;
    ReachableOk(s);
    assert AdjustOk(s, s.adjusts[c]);
  }

  // ---------- conservation pool by pool ----------

  /** A cancellation that will restock the pool its order was charged to: the order was charged to
      the global pool, or its sale row has been written. */
  predicate CarefulCancel(s: Sys, a: Action) {
    a.PublicCall? && a.tx.TxCancelOrder? && a.tx.o in s.charged ==>
      s.charged[a.tx.o] == Global || a.tx.o in s.books.sales
  }

  predicate CarefulRun(s: Sys, acts: seq<Action>)
  {
    acts == [] ||
    (CarefulRun(s, acts[..|acts| - 1]) && CarefulCancel(Exec(s, acts[..|acts| - 1]), acts[|acts| - 1]))
  }

  /** The restock pool is the charged pool exactly when the cancellation is careful. */
  lemma {:induction false} RestockIsCharged(s: Sys, o: OrderId)
    requires Inv(s) && o in s.books.orders
    ensures o in s.charged
    ensures RestockPool(s.books, o) == s.charged[o] <==> s.charged[o] == Global || o in s.books.sales
  {
    hide Sound, NonNegative, OpsOk, WorkerOk;
  }

  /** Cancelling a pending order keeps every pool's books balanced exactly when it was charged to the
      global pool or its sale row exists. */
  lemma {:induction false} CancelBalancedIff(s: Sys, o: OrderId)
    requires Inv(s) && o in s.books.orders && s.books.orders[o].status == OrderPending
    ensures var s' := Act(s, PublicCall(TxCancelOrder(o)));
            (forall k :: PoolTotal(s'.books, s'.charged, k) == PoolTotal(s.books, s.charged, k))
            <==> (s.charged[o] == Global || o in s.books.sales)
  {
    RestockIsCharged(s, o);
    CancelAct(s, o);
    hide Inv, Act, PoolTotal, CancelOrder;
    CancelKeepsPoolsIff(s.books, s.charged, o);
  }

  lemma {:induction false} CancelAct(s: Sys, o: OrderId)
    requires Inv(s) && o in s.books.orders && s.books.orders[o].status == OrderPending
    ensures Sound(s.books) && CancelOrder(s.books, o).Committed?
    ensures var s' := Act(s, PublicCall(TxCancelOrder(o)));
            s'.books == CancelOrder(s.books, o).books && s'.charged == s.charged
  {
    hide OpsOk, WorkerOk, NonNegative, Sound, AdjustOk, Restock;
  }

  lemma {:induction false} PoolAct(s: Sys, a: Action, k: StockKey)
    requires Inv(s) && CarefulCancel(s, a)
    ensures var s' := Act(s, a);
            PoolTotal(s'.books, s'.charged, k) - Sum(PoolPuts(s'.adjusts, k))
            == PoolTotal(s.books, s.charged, k) - Sum(PoolPuts(s.adjusts, k))
  {
    hide Act, Sound, Step, Charged, Injected, WorkerStep, AdjustStep, NonNegative, OpsOk, WorkerOk, AdjustOk;
    OneCommit(s, a);
    PutsStep(s, a, k.variantId, k);
    if TxOf(s, a).Some? {
      var tx := TxOf(s, a).value;
      if tx.TxCancelOrder? && tx.o in s.books.orders {
        RestockIsCharged(s, tx.o);
        OnlyPublicCancels(s, a);
      }
      PoolStep(s.books, s.charged, tx, k);
    }
  }

  lemma {:induction false} OnlyPublicCancels(s: Sys, a: Action)
    requires Inv(s) && TxOf(s, a).Some? && TxOf(s, a).value.TxCancelOrder?
    ensures a.PublicCall? && a.tx == TxOf(s, a).value
  {
    hide BooksOk, OpsOk, WorkerOk, WorkerStep, AdjustStep;
    if a.StepWorker? {
      WorkersNeverAdjust(s, s.workers[a.w], a.choice);
    } else if a.StepAdjust? {
      assert AdjustOk(s, s.adjusts[a.c]);
      AdjustInjects(s, s.adjusts[a.c], 0, StockKey(0, Global));
    }
  }

  lemma {:induction false} PoolRun(s: Sys, acts: seq<Action>, k: StockKey)
    requires Inv(s) && CarefulRun(s, acts)
    ensures var s' := Exec(s, acts);
            PoolTotal(s'.books, s'.charged, k) - Sum(PoolPuts(s'.adjusts, k))
            == PoolTotal(s.books, s.charged, k) - Sum(PoolPuts(s.adjusts, k))
  {
    hide Inv, Act, PoolTotal, CarefulCancel;
    if acts != [] {
      PoolRun(s, acts[..|acts| - 1], k);
      ExecOk(s, acts[..|acts| - 1]);
      PoolAct(Exec(s, acts[..|acts| - 1]), acts[|acts| - 1], k);
    }
  }

  /** Per-pool conservation: when point-of-sale orders are only cancelled once their sale row
      exists, every pool on its own balances, in every state of every such run. */
  lemma {:induction false} PoolConserved(s0: Sys, acts: seq<Action>, k: StockKey)
    requires Init(s0) && CarefulRun(s0, acts)
    ensures var s := Exec(s0, acts);
            OnHand(s.books.stock, k) + Sum(PoolHeldBy(s.books.orders, s.charged, k)) == Sum(PoolPuts(s.adjusts, k))
  {
    hide Act, CarefulRun;
    InitOk(s0);
    EmptyTotals(s0, k.variantId, k);
    PoolRun(s0, acts, k);
  }

  /** What a careless cancellation does: the units leave the pool that was charged and enter the
      global one. */
  lemma {:induction false} EarlyCancelMovesStock(s: Sys, o: OrderId, k: StockKey)
    requires Inv(s) && o in s.books.orders && s.books.orders[o].status == OrderPending
    requires o in s.charged && s.charged[o] != Global && o !in s.books.sales
    ensures var t, held := Act(s, PublicCall(TxCancelOrder(o))), Held(s.books.orders[o], k.variantId);
            && PoolTotal(t.books, t.charged, k)
               == PoolTotal(s.books, s.charged, k) + (if k.pool == Global then held else 0)
                  - (if k.pool == s.charged[o] then held else 0)
            && t.charged == s.charged && t.adjusts == s.adjusts
  {
    CancelAct(s, o);
    AdjustsOnly(s, PublicCall(TxCancelOrder(o)));
    hide Inv, Act, PoolTotal, CancelOrder, Held;
    CancelOrderPool(s.books, s.charged, o, k);
  }
}
