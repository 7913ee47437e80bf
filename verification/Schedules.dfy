/** Building runs of the platform: how a call can always be brought to its next milestone. */
module Schedules {
  import opened Schema
  import opened Lines
  import opened Ledger
  import opened OrderPayments
  import opened StockLaws
  import opened Platform
  import opened PlatformSafety
  import opened PlatformSteps
  import opened SyncTheorems
  import opened PosTheorems
  import Inventory
  import SoloSync

  lemma {:induction false} ExecConcat(s: Sys, a: seq<Action>, b: seq<Action>)
    ensures Exec(s, a + b) == Exec(Exec(s, a), b)
  {
    hide Act;
    if b == [] {
      assert a + b == a;
    } else {
      var n := |b| - 1;
      ExecConcat(s, a, b[..n]);
      assert (a + b)[..|a + b| - 1] == a + b[..n];
    }
  }

  lemma {:induction false} ExecOne(s: Sys, a: Action)
    ensures Exec(s, [a]) == Act(s, a)
  {
    hide Act;
    assert [a][..|[a]| - 1] == [];
    assert Exec(s, [a][..|[a]| - 1]) == s;
  }

  lemma {:induction false} ExecSnoc(s: Sys, acts: seq<Action>, a: Action)
    ensures Exec(s, acts + [a]) == Act(Exec(s, acts), a)
  {
    ExecConcat(s, acts, [a]);
    ExecOne(Exec(s, acts), a);
  }

  lemma {:induction false} FreshNat(used: set<nat>) returns (n: nat)
    ensures forall x :: x in used ==> x < n
  {
    if used == {} {
      n := 0;
    } else {
      var x :| x in used;
      var m := FreshNat(used - {x});
      assert forall y :: y in used ==> y == x || y in used - {x};
      n := if x < m then m else x + 1;
    }
  }

  // ---------- surroundings ----------

  /** Of the calls only `i` moved. */
  ghost predicate OnlyCall(s: Sys, t: Sys, i: nat) {
    i in t.workers && t.workers == s.workers[i := t.workers[i]]
  }

  /** No call and no operation moved. */
  ghost predicate Backstage(s: Sys, t: Sys) {
    t.workers == s.workers && t.ops == s.ops && t.sessions == s.sessions && t.charged == s.charged
    && t.books == s.books.(stock := t.books.stock)
  }

  /** Only stock moved. */
  ghost predicate OnlyStock(s: Sys, t: Sys) {
    Backstage(s, t) && t.catalog == s.catalog && t.devices == s.devices
  }

  // ---------- stock ----------

  lemma {:induction false} StockWriteFrame(s: Sys, tx: Tx)
    requires tx.TxIncrement? || tx.TxCreateStock?
    ensures OnlyStock(s, Commit(s, Some(tx))) && Commit(s, Some(tx)).adjusts == s.adjusts
  {
  }

  lemma {:induction false} AdjustWrites(s: Sys, a: Adjust)
    ensures var tx := AdjustStep(s, a).0; tx.Some? ==> tx.value.TxIncrement? || tx.value.TxCreateStock?
  {
  }

  lemma {:induction false} AdjustFrame(s: Sys, c: nat)
    requires c in s.adjusts
    ensures OnlyStock(s, Act(s, StepAdjust(c))) && c in Act(s, StepAdjust(c)).adjusts
  {
    AdjustWrites(s, s.adjusts[c]);
    var tx := AdjustStep(s, s.adjusts[c]).0;
    if tx.Some? { StockWriteFrame(s, tx.value); }
    hide AdjustStep, Step, Charged;
  }

  lemma {:induction false} AloneRun(s: Sys, c: nat, n: nat) returns (acts: seq<Action>)
    requires c in s.adjusts
    ensures Exec(s, acts) == Inventory.Alone(s, c, n) && OnlyStock(s, Inventory.Alone(s, c, n))
    decreases n
  {
    if n == 0 {
      acts := [];
    } else {
      AdjustFrame(s, c);
      hide Act;
      var rest := AloneRun(Act(s, StepAdjust(c)), c, n - 1);
      acts := [StepAdjust(c)] + rest;
      ExecOne(s, StepAdjust(c));
      ExecConcat(s, [StepAdjust(c)], rest);
    }
  }

  /** Any pool of a known variant and store can be stocked up; an adjustment takes at most six steps. */
  lemma {:induction false} StockUp(s: Sys, k: StockKey, delta: int, steps: nat) returns (acts: seq<Action>)
    requires Inv(s) && 1 <= delta && k.variantId in s.catalog.variants && 6 <= steps
    requires k.pool.Store? ==> k.pool.storeId in s.catalog.stores
    ensures OnlyStock(s, Exec(s, acts))
    ensures Exec(s, acts).books.stock == s.books.stock[k := OnHand(s.books.stock, k) + delta]
  {
    PoolsHold(s, k);
    var c := FreshNat(s.adjusts.Keys);
    var call := CallAdjust(c, k, delta);
    var s1 := s.(adjusts := s.adjusts[c := Adjust(k, delta, AReadVariant, false)]);
    hide Act, Inv, Inventory.Alone, Exec;
    CalledAdjust(s, c, k, delta);
    StockedAlone(s1, c, k, delta, steps);
    var rest := AloneRun(s1, c, steps);
    acts := [call] + rest;
    ExecOne(s, call);
    ExecConcat(s, [call], rest);
  }

  lemma {:induction false} CalledAdjust(s: Sys, c: nat, k: StockKey, delta: int)
    requires c !in s.adjusts && delta != 0
    ensures Act(s, CallAdjust(c, k, delta)) == s.(adjusts := s.adjusts[c := Adjust(k, delta, AReadVariant, false)])
  {
  }

  lemma {:induction false} StockedAlone(s: Sys, c: nat, k: StockKey, delta: int, steps: nat)
    requires 6 <= steps && c in s.adjusts && s.adjusts[c] == Adjust(k, delta, AReadVariant, false)
    requires 1 <= delta && 0 <= OnHand(s.books.stock, k) && k.variantId in s.catalog.variants
    requires k.pool.Store? ==> k.pool.storeId in s.catalog.stores
    ensures Inventory.Alone(s, c, steps).books.stock == s.books.stock[k := OnHand(s.books.stock, k) + delta]
  {
    assert Inventory.AdjustRefusal(s.books.stock, s.catalog, k, delta).None?;
    hide *;
    Inventory.AloneIsAdjustScoped(s, c, steps);
  }

  lemma {:induction false} StockAll(s: Sys, store: StoreId, lines: seq<Line>, ks: seq<VariantId>)
    returns (acts: seq<Action>)
    requires Inv(s) && store in s.catalog.stores
    requires forall v :: v in ks ==> v in s.catalog.variants && 1 <= QtyOf(lines, v)
    ensures OnlyStock(s, Exec(s, acts)) && Covers(Exec(s, acts).books.stock, Store(store), lines, ks)
  {
    hide Act, Inv, QtyOf;
    acts := [];
    assert Exec(s, []) == s;
    if ks != [] {
      var n := |ks| - 1;
      assert ks == ks[..n] + [ks[n]];
      var front := StockAll(s, store, lines, ks[..n]);
      var t, k := Exec(s, front), StockKey(ks[n], Store(store));
      ExecOk(s, front);
      assert 0 <= OnHand(t.books.stock, k) by { PoolsHold(t, k); }
      var last := StockUp(t, k, QtyOf(lines, ks[n]), 6);
      acts := front + last;
      ExecConcat(s, front, last);
    }
  }

  lemma {:induction false} PoolsHold(s: Sys, k: StockKey)
    requires Inv(s)
    ensures 0 <= OnHand(s.books.stock, k)
  {
    assert NonNegative(s.books.stock);
  }

  // ---------- a catalogue that can serve an intent ----------

  /** Every requested variant active and priced, the customer known. */
  function Plenty(op: Operation): Catalog {
    var ks := Keys(IntentLines(op.items));
    Catalog(map v | v in ks :: true, seq(|ks|, i requires 0 <= i < |ks| => Price(ks[i], "EUR", 1)),
            if op.customerId.Some? then {op.customerId.value} else {}, {op.storeId})
  }

  lemma {:induction false} PlentyPrices(op: Operation, v: VariantId)
    requires v in Keys(IntentLines(op.items))
    ensures var rows := RowsOf(Plenty(op).prices, v);
            rows != [] && rows[0].currency == "EUR" && PriceIn(Plenty(op).prices, v, "EUR").Some?
  {
    hide Keys;
    var ks, prices := Keys(IntentLines(op.items)), Plenty(op).prices;
    var rows := RowsOf(prices, v);
    var i :| 0 <= i < |ks| && ks[i] == v;
    assert prices[i] == Price(v, "EUR", 1) && prices[i] in prices;
    RowsOfIn(prices, v, prices[i]);
    RowsOfIn(prices, v, rows[0]);
    FindIn(rows, "EUR");
  }

  lemma {:induction false} PlentySuffices(op: Operation)
    requires op.items != []
    ensures CatalogRefusal(Plenty(op), IntentLines(op.items)).None?
  {
    var lines := IntentLines(op.items);
    var ks := Keys(lines);
    FirstKey(lines);
    forall v | v in ks {
      PlentyPrices(op, v);
    }
    hide Keys, RowsOf, Find, PriceIn;
    Priceable(Plenty(op).prices, ks, |ks|, "EUR");
  }

  // ---------- a call in the engine reaches its order ----------

  /** Before its order is committed. */
  predicate BeforeOrder(pc: Pc) { pc.ReadSession? || pc.ReadDevice? || pc.ReadCustomer? || pc.OrderTx? }

  /** Nothing stands in the way of the operation's order. */
  ghost predicate Ready(s: Sys, op: Operation) {
    && op.deviceId in s.devices && s.devices[op.deviceId]
    && !SoloSync.CustomerMissing(s.catalog, op)
    && OrderRefusal(s.books, s.catalog, IntentOrder(op)).None?
  }

  lemma {:induction false} ReadyFrom(s: Sys, op: Operation)
    requires op.items != [] && s.catalog == Plenty(op) && op.deviceId in s.devices && s.devices[op.deviceId]
    requires var lines := IntentLines(op.items); Covers(s.books.stock, Store(op.storeId), lines, Keys(lines))
    ensures Ready(s, op)
  {
    PlentySuffices(op);
    hide CatalogRefusal, Covers, Keys;
  }

  /** Administration and stock adjustments alone can make everything ready. */
  lemma {:induction false} Prepare(s: Sys, op: Operation) returns (acts: seq<Action>)
    requires Inv(s) && op.items != []
    ensures Backstage(s, Exec(s, acts)) && Ready(Exec(s, acts), op)
  {
    var lines := IntentLines(op.items);
    var first, second := Administer(SetDevice(op.deviceId, true)), Administer(SetCatalog(Plenty(op)));
    var s1 := Act(s, first);
    var s2 := Act(s1, second);
    assert s2 == s.(devices := s.devices[op.deviceId := true], catalog := Plenty(op));
    ActOk(s, first);
    ActOk(s1, second);
    hide Act, Inv, Keys, QtyOf, Ready;
    var stock := StockAll(s2, op.storeId, lines, Keys(lines));
    acts := [first] + ([second] + stock);
    ExecOne(s, first);
    ExecOne(s1, second);
    ExecConcat(s, [first], [second] + stock);
    ExecConcat(s1, [second], stock);
    ReadyFrom(Exec(s, acts), op);
  }

  function Rank(pc: Pc): nat {
    if pc.ReadSession? then 3 else if pc.ReadDevice? then 2 else if pc.ReadCustomer? then 1 else 0
  }

  /** Sync call `i` on operation `id` is in the engine, before its order. */
  ghost predicate Selling(s: Sys, i: nat, id: OpId) {
    i in s.workers && s.workers[i].job.SyncJob? && s.workers[i].job.opId == id && BeforeOrder(s.workers[i].pc)
  }

  /** What the invariant says of such a call. */
  lemma {:induction false} SellingFacts(s: Sys, i: nat, id: OpId)
    requires Inv(s) && Selling(s, i, id)
    ensures id in s.ops && Provenanced(s, s.ops[id])
    ensures var w, op := s.workers[i], s.ops[id];
            && w.claimed && w.request == Some(RequestOf(op))
            && (!w.pc.ReadSession? ==> w.session.Some? && SameSession(w.session.value, s.sessions[op.sessionId]))
  {
    hide BooksOk, Delivered;
    assert WorkerOk(s, s.workers[i]);
    assert OpOk(s, s.ops[id]);
  }

  /** After a call's own step. */
  ghost predicate Moved(s: Sys, t: Sys, i: nat) {
    && OnlyCall(s, t, i) && i in s.workers && t.ops == s.ops && t.sessions == s.sessions && t.devices == s.devices
    && t.catalog == s.catalog
    && t.workers[i].job == s.workers[i].job && t.workers[i].claimed == s.workers[i].claimed
    && t.workers[i].released == s.workers[i].released
  }

  /** One more read of the engine. */
  lemma {:induction false} ReadOn(s: Sys, i: nat, id: OpId, ch: Choice)
    requires Inv(s) && Selling(s, i, id) && id in s.ops && Ready(s, s.ops[id]) && !s.workers[i].pc.OrderTx?
    ensures var t := Act(s, StepWorker(i, ch));
            && Moved(s, t, i) && t.books == s.books && t.charged == s.charged && Selling(t, i, id)
            && Rank(t.workers[i].pc) < Rank(s.workers[i].pc)
  {
    SellingFacts(s, i, id);
    ReadOnSteps(s, i, id, ch);
    hide *;
    ReadFrame(s, i, ch);
  }

  /** An engine read moves nothing but its own call. */
  lemma {:induction false} ReadFrame(s: Sys, i: nat, ch: Choice)
    requires i in s.workers && s.workers[i].request.Some? && Reading(s.workers[i].pc)
    ensures Moved(s, Act(s, StepWorker(i, ch)), i)
    ensures var t := Act(s, StepWorker(i, ch)); t.books == s.books && t.charged == s.charged
  {
    EngineReadShape(s, s.workers[i]);
    hide EngineRead, Step, Charged;
  }

  lemma {:induction false} ReadOnSteps(s: Sys, i: nat, id: OpId, ch: Choice)
    requires Selling(s, i, id) && id in s.ops && Ready(s, s.ops[id]) && !s.workers[i].pc.OrderTx?
    requires Provenanced(s, s.ops[id]) && s.workers[i].request == Some(RequestOf(s.ops[id]))
    requires !s.workers[i].pc.ReadSession? ==>
      s.workers[i].session.Some? && SameSession(s.workers[i].session.value, s.sessions[s.ops[id].sessionId])
    ensures var t := Act(s, StepWorker(i, ch)); Selling(t, i, id) && Rank(t.workers[i].pc) < Rank(s.workers[i].pc)
  {
    var w := s.workers[i];
    assert SoloSync.Stands(s, s, i, s.books, s.ops, w);
    hide Act, OrderRefusal;
    if w.pc.ReadSession? {
      SoloSync.SessionStep(s, s, i, ch, s.ops, w);
    } else if w.pc.ReadDevice? {
      SoloSync.DeviceStep(s, s, i, ch, s.ops, w);
    } else {
      SoloSync.CustomerStep(s, s, i, ch, s.ops, w);
    }
  }

  // ---------- the order ----------

  /** The engine's order is that of the operation it serves. */
  lemma {:induction false} SellingRequest(s: Sys, i: nat, id: OpId)
    requires Inv(s) && Selling(s, i, id) && s.workers[i].pc.OrderTx?
    ensures id in s.ops && s.workers[i].request.Some? && s.workers[i].session.Some?
    ensures EngineOrderReq(s.workers[i]) == IntentOrder(s.ops[id])
  {
    SellingFacts(s, i, id);
  }

  /** The order transaction of a ready operation commits. */
  lemma {:induction false} OrderNow(s: Sys, i: nat, id: OpId, ch: Choice)
    requires Inv(s) && Selling(s, i, id) && id in s.ops && Ready(s, s.ops[id]) && s.workers[i].pc.OrderTx?
    ensures var t, o := Act(s, StepWorker(i, ch)), s.books.nextId;
            && Moved(s, t, i) && t.workers[i].orderId == Some(o) && t.workers[i].pc == PaymentTx
            && t.books == CreateOrder(s.books, s.catalog, IntentOrder(s.ops[id])).books
            && t.charged == s.charged[o := Store(s.ops[id].storeId)]
  {
    SellingRequest(s, i, id);
    assert CreateOrder(s.books, s.catalog, IntentOrder(s.ops[id])).Committed?;
    StepWorkerTables(s, i, ch);
    OrderNowEffect(s, i, ch);
    hide Inv, Ready, CreateOrder, IntentOrder, RequestOf;
  }

  lemma {:induction false} OrderNowEffect(s: Sys, i: nat, ch: Choice)
    requires i in s.workers && s.workers[i].pc.OrderTx? && s.workers[i].job.SyncJob?
    requires s.workers[i].request.Some? && s.workers[i].session.Some?
    requires var tx := CreateOrder(s.books, s.catalog, EngineOrderReq(s.workers[i])); tx.Committed?
    ensures var tx, t := CreateOrder(s.books, s.catalog, EngineOrderReq(s.workers[i])), Act(s, StepWorker(i, ch));
            && Moved(s, t, i) && t.books == tx.books && t.workers[i]
               == s.workers[i].(pc := PaymentTx, orderId := Some(tx.id))
            && t.charged == s.charged[s.books.nextId := EngineOrderReq(s.workers[i]).pool]
  {
    hide CreateOrder, EngineOrderReq;
  }

  /** A call in the engine reaches its order once everything is ready. */
  lemma {:induction false} ToOrder(s: Sys, i: nat, id: OpId, ch: Choice) returns (acts: seq<Action>)
    requires Inv(s) && Selling(s, i, id) && id in s.ops && Ready(s, s.ops[id])
    ensures var t, o := Exec(s, acts), s.books.nextId;
            && Moved(s, t, i) && t.workers[i].orderId == Some(o) && t.workers[i].pc == PaymentTx
            && t.books == CreateOrder(s.books, s.catalog, IntentOrder(s.ops[id])).books
            && t.charged == s.charged[o := Store(s.ops[id].storeId)]
    decreases Rank(s.workers[i].pc)
  {
    hide Act, Inv, Ready, CreateOrder, IntentOrder;
    var step := StepWorker(i, ch);
    ExecOne(s, step);
    if s.workers[i].pc.OrderTx? {
      OrderNow(s, i, id, ch);
      acts := [step];
    } else {
      var t := Act(s, step);
      ReadOn(s, i, id, ch);
      ActOk(s, step);
      assert Ready(t, t.ops[id]) by { SameReady(s, t, s.ops[id]); }
      var rest := ToOrder(t, i, id, ch);
      acts := [step] + rest;
      ExecConcat(s, [step], rest);
    }
  }

  lemma {:induction false} SameReady(s: Sys, t: Sys, op: Operation)
    requires Ready(s, op) && t.books == s.books && t.catalog == s.catalog && t.devices == s.devices
    ensures Ready(t, op)
  {
  }

  /** From any state, a sync call in the engine can be brought to its order. */
  lemma {:induction false} AdvanceToOrder(s: Sys, i: nat, id: OpId) returns (acts: seq<Action>)
    requires Inv(s) && Selling(s, i, id)
    ensures var t := Exec(s, acts);
            && OnlyCall(s, t, i) && t.ops == s.ops && t.workers[i].orderId.Some? && t.workers[i].job == s.workers[i].job
            && t.workers[i].claimed == s.workers[i].claimed && t.workers[i].released == s.workers[i].released
  {
    SellingFacts(s, i, id);
    assert s.ops[id].items != [];
    hide Act, Inv, Ready;
    var first := Prepare(s, s.ops[id]);
    var t := Exec(s, first);
    ExecOk(s, first);
    var second := ToOrder(t, i, id, Choice(true, None, 0, false));
    acts := first + second;
    ExecConcat(s, first, second);
  }

  // ---------- a new call ----------

  lemma {:induction false} StepsRun(s: Sys, i: nat, ch: Choice, n: nat) returns (acts: seq<Action>)
    requires i in s.workers
    ensures Exec(s, acts) == SoloSync.Steps(s, i, ch, n)
    ensures OnlyCall(s, SoloSync.Steps(s, i, ch, n), i)
    decreases n
  {
    hide Act;
    if n == 0 {
      acts := [];
    } else {
      var step := StepWorker(i, ch);
      StepWorkerTables(s, i, ch);
      var rest := StepsRun(Act(s, step), i, ch, n - 1);
      acts := [step] + rest;
      ExecOne(s, step);
      ExecConcat(s, [step], rest);
    }
  }

  /** What a fresh call on an operation has become, beside everything else as it was. */
  ghost predicate Joined(s: Sys, t: Sys, i: nat, ops: map<OpId, Operation>, w: Worker) {
    && t.workers == s.workers[i := w] && t.ops == ops && t.books == s.books
    && t.catalog == s.catalog && t.sessions == s.sessions && t.devices == s.devices
  }

  /** The call after load, authorisation and validation. */
  function Admitted(op: Operation, id: OpId, pc: Pc): Worker {
    SoloSync.Loaded(NewWorker(SyncJob(id, op.userId), Load, None), op).(pc := pc)
  }

  /** A new call on a pending operation gets past validation, with any verdict. */
  lemma {:induction false} NewCall(s: Sys, i: nat, id: OpId, ch: Choice) returns (acts: seq<Action>)
    requires i !in s.workers && id in s.ops && s.ops[id].status == OpPending && ch.authorised
    ensures Joined(s, Exec(s, acts), i, s.ops,
                   Admitted(s.ops[id], id, if ch.verdict.Some? then Reject(ch.verdict.value) else Claim))
  {
    var op, call := s.ops[id], CallSync(i, id, s.ops[id].userId);
    var w0 := NewWorker(SyncJob(id, op.userId), Load, None);
    var s1 := s.(workers := s.workers[i := w0]);
    assert Act(s, call) == s1;
    hide Act;
    var rest := StepsRun(s1, i, ch, 3);
    acts := [call] + rest;
    ExecOne(s, call);
    ExecConcat(s, [call], rest);
    NewCallSteps(s1, i, id, ch, w0);
    hide SoloSync.Steps;
  }

  lemma {:induction false} NewCallSteps(s: Sys, i: nat, id: OpId, ch: Choice, w0: Worker)
    requires i in s.workers && s.workers[i] == w0 && id in s.ops && s.ops[id].status == OpPending && ch.authorised
    requires w0 == NewWorker(SyncJob(id, s.ops[id].userId), Load, None)
    ensures SoloSync.Stands(s, SoloSync.Steps(s, i, ch, 3), i, s.books, s.ops,
                            Admitted(s.ops[id], id, if ch.verdict.Some? then Reject(ch.verdict.value) else Claim))
  {
    hide Act, RequestOf;
    SoloSync.TwoSteps(s, i, ch);
    SoloSync.StepsSnoc(s, i, ch, 2);
    SoloSync.LoadStep(s, i, ch, w0);
    var w1 := SoloSync.Loaded(w0, s.ops[id]).(pc := Authorise);
    SoloSync.AuthoriseStep(s, SoloSync.Steps(s, i, ch, 1), i, ch, w1);
    SoloSync.ValidateStep(s, SoloSync.Steps(s, i, ch, 2), i, ch, w1.(pc := Validate));
  }

  /** Another step of a call that has joined. */
  lemma {:induction false} JoinedStep(s: Sys, t: Sys, i: nat, ops: map<OpId, Operation>, w: Worker, ch: Choice,
                                      ops': map<OpId, Operation>, w': Worker)
    requires Joined(s, t, i, ops, w) && WorkerStep(t, w, ch) == Effect(None, ops', w')
    ensures Joined(s, Act(t, StepWorker(i, ch)), i, ops', w')
  {
    hide WorkerStep;
    assert t.workers[i] == w && s.workers[i := w][i := w'] == s.workers[i := w'];
  }

  /** On an open claim a new call enters the engine. */
  lemma {:induction false} NewClaim(s: Sys, i: nat, id: OpId, now: Instant) returns (acts: seq<Action>)
    requires i !in s.workers && Claimable(s.ops, id)
    ensures Joined(s, Exec(s, acts), i, s.ops[id := s.ops[id].(processedAt := Some(now))],
                   Admitted(s.ops[id], id, ReadSession).(claimed := true))
  {
    var ch, w := Choice(true, None, now, false), Admitted(s.ops[id], id, Claim);
    hide Act;
    var first := NewCall(s, i, id, ch);
    var t := Exec(s, first);
    acts := first + [StepWorker(i, ch)];
    ExecSnoc(s, first, StepWorker(i, ch));
    assert WorkerStep(t, w, ch)
           == Effect(None, s.ops[id := s.ops[id].(processedAt := Some(now))], w.(pc := ReadSession, claimed := true));
    hide WorkerStep;
    JoinedStep(s, t, i, s.ops, w, ch, s.ops[id := s.ops[id].(processedAt := Some(now))],
               w.(pc := ReadSession, claimed := true));
  }

  /** On a held claim a new call finds it stale, once enough time has passed, and releases it. */
  lemma {:induction false} NewRelease(s: Sys, i: nat, id: OpId) returns (acts: seq<Action>)
    requires i !in s.workers && id in s.ops && s.ops[id].status == OpPending && s.ops[id].processedAt.Some?
    ensures Joined(s, Exec(s, acts), i, s.ops[id := s.ops[id].(processedAt := None)],
                   Admitted(s.ops[id], id, Threw(SyncInProgress)).(released := true))
  {
    var op := s.ops[id];
    var ch := Choice(true, None, op.processedAt.value + CLAIM_STALENESS_MS + 1, false);
    var step, w := StepWorker(i, ch), Admitted(op, id, Claim);
    var ops', w' := s.ops[id := op.(processedAt := None)], w.(pc := Threw(SyncInProgress), released := true);
    hide Act;
    var first := NewCall(s, i, id, ch);
    var t0 := Exec(s, first);
    var t1 := Act(t0, step);
    var t2 := Act(t1, step);
    acts := first + [step] + [step] + [step];
    ExecSnoc(s, first, step);
    ExecSnoc(s, first + [step], step);
    ExecSnoc(s, first + [step] + [step], step);
    assert WorkerStep(t0, w, ch) == Effect(None, s.ops, w.(pc := Poll));
    JoinedStep(s, t0, i, s.ops, w, ch, s.ops, w.(pc := Poll));
    assert WorkerStep(t1, w.(pc := Poll), ch) == Effect(None, s.ops, w.(pc := Release));
    JoinedStep(s, t1, i, s.ops, w.(pc := Poll), ch, s.ops, w.(pc := Release));
    assert WorkerStep(t2, w.(pc := Release), ch) == Effect(None, ops', w');
    hide WorkerStep;
    JoinedStep(s, t2, i, s.ops, w.(pc := Release), ch, ops', w');
  }

  /** A new call settles a pending operation with any verdict. */
  lemma {:induction false} NewRejection(s: Sys, i: nat, id: OpId, code: Code) returns (acts: seq<Action>)
    requires i !in s.workers && id in s.ops && s.ops[id].status == OpPending
    ensures Joined(s, Exec(s, acts), i, s.ops[id := s.ops[id].(status := OpRejected, resultCode := Some(code))],
                   Admitted(s.ops[id], id, Reload))
  {
    var ch, w := Choice(true, Some(code), 0, false), Admitted(s.ops[id], id, Reject(code));
    hide Act;
    var first := NewCall(s, i, id, ch);
    var t, step := Exec(s, first), StepWorker(i, ch);
    acts := first + [step];
    ExecSnoc(s, first, step);
    var ops' := s.ops[id := s.ops[id].(status := OpRejected, resultCode := Some(code))];
    assert WorkerStep(t, w, ch) == Effect(None, ops', w.(pc := Reload));
    hide WorkerStep;
    JoinedStep(s, t, i, s.ops, w, ch, ops', w.(pc := Reload));
  }
}
