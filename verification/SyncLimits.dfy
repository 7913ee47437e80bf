/** How far the sync guarantees go: exactly when a rejected operation can have an order, and how often a
    released one can be sold. */
module SyncLimits {
  import opened Schema
  import opened Ledger
  import opened OrderPayments
  import opened Platform
  import opened PlatformSafety
  import opened PlatformSteps
  import opened SyncTheorems
  import opened Schedules
  import opened Sums

  /** The call has created its order or is about to. */
  predicate MaySell(w: Worker) { w.orderId.Some? || BeforeOrder(w.pc) }

  /** The sync calls on an operation whose engine has created an order or still can. */
  ghost function Sellers(s: Sys, id: OpId): set<nat> {
    set i | i in s.workers && s.workers[i].job.SyncJob? && s.workers[i].job.opId == id && MaySell(s.workers[i])
  }

  // ---------- a settled operation gains no seller ----------

  /** The engine is entered by winning the claim and in no other way. */
  lemma {:induction false} EngineEntry(s: Sys, w: Worker, ch: Choice)
    requires w.job.SyncJob? && !(w.pc.Claim? && Claimable(s.ops, w.job.opId))
    ensures WorkerStep(s, w, ch).worker.job == w.job
    ensures MaySell(WorkerStep(s, w, ch).worker) ==> MaySell(w)
  {
    hide EngineRead, EngineWrite, ProtocolStep;
    ProtocolEntry(s, w, ch);
    if w.request.Some? {
      ReadEntry(s, w);
      if w.session.Some? { WriteEntry(s, w); }
    }
  }

  lemma {:induction false} ProtocolEntry(s: Sys, w: Worker, ch: Choice)
    requires w.job.SyncJob? && !(w.pc.Claim? && Claimable(s.ops, w.job.opId))
    ensures var w' := ProtocolStep(s, w, ch).worker;
            w'.job == w.job && w'.orderId == w.orderId && (BeforeOrder(w'.pc) ==> w' == w)
  {
    hide ResultOf, RequestOf, Rejected, Accepted, Stale;
  }

  lemma {:induction false} ReadEntry(s: Sys, w: Worker)
    requires w.request.Some?
    ensures EngineRead(s, w).worker.job == w.job && (MaySell(EngineRead(s, w).worker) ==> MaySell(w))
  {
  }

  lemma {:induction false} WriteEntry(s: Sys, w: Worker)
    requires w.request.Some? && w.session.Some?
    ensures EngineWrite(s, w).worker.job == w.job && (MaySell(EngineWrite(s, w).worker) ==> MaySell(w))
  {
    hide Apply, EngineOrderReq, SaleRow;
  }

  lemma {:induction false} JobKept(s: Sys, w: Worker, ch: Choice)
    ensures WorkerStep(s, w, ch).worker.job == w.job
  {
    hide Apply, EngineOrderReq, SaleRow, ResultOf, RequestOf, Rejected, Accepted, Stale, Claimable;
  }

  lemma {:induction false} OtherEntry(s: Sys, a: Action, i: nat)
    requires i in OtherCalls(s, a) && MaySell(OtherCalls(s, a)[i]) && OtherCalls(s, a)[i].job.SyncJob?
    ensures i in s.workers && OtherCalls(s, a)[i].job == s.workers[i].job && MaySell(s.workers[i])
  {
  }

  lemma {:induction false} NoNewSeller(s: Sys, a: Action, id: OpId)
    requires id in s.ops && s.ops[id].status != OpPending
    ensures Sellers(Act(s, a), id) <= Sellers(s, id)
  {
    hide Act, WorkerStep, MaySell;
    if a.StepWorker? && a.w in s.workers {
      StepWorkerTables(s, a.w, a.choice);
      if s.workers[a.w].job.SyncJob? && s.workers[a.w].job.opId == id {
        EngineEntry(s, s.workers[a.w], a.choice);
      } else {
        JobKept(s, s.workers[a.w], a.choice);
      }
    } else if a.StepWorker? {
      NoSuchCall(s, a);
    } else {
      OtherTables(s, a);
      forall i | i in Sellers(Act(s, a), id)
        ensures i in Sellers(s, id)
      {
        OtherEntry(s, a, i);
      }
    }
  }

  lemma {:induction false} NoNewSellers(s: Sys, acts: seq<Action>, id: OpId)
    requires Inv(s) && id in s.ops && s.ops[id].status != OpPending
    ensures Sellers(Exec(s, acts), id) <= Sellers(s, id)
  {
    hide Act, Inv, Sellers;
    if acts == [] {
      assert Exec(s, acts) == s;
    } else {
      var front := acts[..|acts| - 1];
      NoNewSellers(s, front, id);
      ExecOk(s, front);
      NoNewSeller(Exec(s, front), acts[|acts| - 1], id);
    }
  }

  /** Nobody has created an order for the operation or is on the way to one: no sync call on it holds an
      order id, and none is between its claim and its order. */
  ghost predicate NobodySells(s: Sys, id: OpId) {
    forall i :: i in s.workers && s.workers[i].job.SyncJob? && s.workers[i].job.opId == id ==>
      && s.workers[i].orderId.None?
      && !s.workers[i].pc.ReadSession? && !s.workers[i].pc.ReadDevice?
      && !s.workers[i].pc.ReadCustomer? && !s.workers[i].pc.OrderTx?
  }

  /** Whoever may sell can. */
  lemma {:induction false} SellerSells(s: Sys, i: nat, id: OpId) returns (acts: seq<Action>)
    requires Inv(s) && i in Sellers(s, id)
    ensures i in Executors(Exec(s, acts), id)
  {
    hide Inv, Act;
    acts := [];
    assert Exec(s, acts) == s;
    if s.workers[i].orderId.None? {
      assert Selling(s, i, id);
      acts := AdvanceToOrder(s, i, id);
    }
  }

  /** A rejected operation never has an order exactly when, at the rejection or at any later moment, no
      claimant holds one or is on the way to one. */
  lemma {:induction false} RejectedHasNoOrderIff(s: Sys, id: OpId)
    requires Reachable(s) && id in s.ops && s.ops[id].status == OpRejected
    ensures (forall acts: seq<Action> :: Executors(Exec(s, acts), id) == {}) <==> NobodySells(s, id)
  {
    ReachableOk(s);
    hide Inv, Act;
    if NobodySells(s, id) {
      assert Sellers(s, id) == {};
      forall acts: seq<Action>
        ensures Executors(Exec(s, acts), id) == {}
      {
        NoNewSellers(s, acts, id);
        assert Executors(Exec(s, acts), id) <= Sellers(Exec(s, acts), id);
      }
    } else {
      var i :| i in s.workers && s.workers[i].job.SyncJob? && s.workers[i].job.opId == id && MaySell(s.workers[i]);
      var acts := SellerSells(s, i, id);
      assert Executors(Exec(s, acts), id) != {};
    }
  }

  // ---------- how often a released operation can be sold ----------

  predicate OnOperation(w: Worker, id: OpId) { w.job.SyncJob? && w.job.opId == id }

  /** One call changes, or joins. */
  lemma {:induction false} ExecutorsAfter(s: Sys, t: Sys, i: nat, w: Worker, id: OpId)
    requires t.workers == s.workers[i := w] && OnOperation(w, id)
    requires i in s.workers ==> OnOperation(s.workers[i], id) && s.workers[i].orderId.None?
    ensures i !in Executors(s, id)
    ensures Executors(t, id) == if w.orderId.Some? then Executors(s, id) + {i} else Executors(s, id)
  {
  }

  lemma {:induction false} ReleasersAfter(s: Sys, t: Sys, i: nat, w: Worker, id: OpId)
    requires t.workers == s.workers[i := w] && OnOperation(w, id)
    requires i in s.workers ==> OnOperation(s.workers[i], id) && !s.workers[i].released
    ensures i !in Releasers(s, id)
    ensures Releasers(t, id) == if w.released then Releasers(s, id) + {i} else Releasers(s, id)
  {
  }

  /** A pending operation whose claim is open is sold by a new call. */
  lemma {:induction false} SellOnce(s: Sys, k: nat, id: OpId) returns (acts: seq<Action>)
    requires Inv(s) && Claimable(s.ops, id) && k !in s.workers
    ensures var t := Exec(s, acts);
            && id in t.ops && t.ops[id].status == OpPending && t.ops[id].processedAt.Some?
            && k !in Executors(s, id) && Executors(t, id) == Executors(s, id) + {k}
            && Releasers(t, id) == Releasers(s, id)
  {
    hide Act, Inv, Executors, Releasers;
    var first := NewClaim(s, k, id, 0);
    var t := Exec(s, first);
    ExecOk(s, first);
    var second := AdvanceToOrder(t, k, id);
    var u := Exec(t, second);
    acts := first + second;
    ExecConcat(s, first, second);
    var w, w' := t.workers[k], u.workers[k];
    ExecutorsAfter(s, t, k, w, id);
    ReleasersAfter(s, t, k, w, id);
    ExecutorsAfter(t, u, k, w', id);
    ReleasersAfter(t, u, k, w', id);
  }

  /** A pending operation whose claim is held is released by one new call and sold by another. */
  lemma {:induction false} SellAgain(s: Sys, id: OpId) returns (acts: seq<Action>)
    requires Inv(s) && id in s.ops && s.ops[id].status == OpPending && s.ops[id].processedAt.Some?
    ensures var t := Exec(s, acts);
            && id in t.ops && t.ops[id].status == OpPending && t.ops[id].processedAt.Some?
            && |Executors(t, id)| == |Executors(s, id)| + 1 && |Releasers(t, id)| == |Releasers(s, id)| + 1
  {
    hide Act, Inv, Executors, Releasers;
    var j := FreshNat(s.workers.Keys);
    var first := NewRelease(s, j, id);
    var t := Exec(s, first);
    ExecOk(s, first);
    ExecutorsAfter(s, t, j, t.workers[j], id);
    ReleasersAfter(s, t, j, t.workers[j], id);
    var second := SellOnce(t, j + 1, id);
    acts := first + second;
    ExecConcat(s, first, second);
  }

  // ---------- the bound is reached ----------

  /** An empty platform with one open session, and the intent recorded in it. */
  function Opening(): Sys {
    Sys(Books(map[], map[], map[], map[], map[], [], 0), Catalog(map[], [], {}, {}), map[1 := Session(1, 3, 1, true)],
        map[], map[], map[], map[], map[])
  }

  function Recording(): Action { RecordIntent(0, 1, 1, 0, 0, None, [IntentLine(7, 1, "EUR", 5)]) }

  lemma {:induction false} Recorded()
    ensures Init(Opening())
    ensures var s := Act(Opening(), Recording());
            && s == Opening().(ops := map[0 := NewOperation(Opening(), Recording())]) && Claimable(s.ops, 0)
  {
  }

  /** For every n there is a run with n releases of one operation and n + 1 orders created for it: the
      bound of one plus the number of releases cannot be improved. */
  lemma {:induction false} ExecutionBoundIsReached(n: nat) returns (acts: seq<Action>)
    ensures Init(Opening())
    ensures var s := Exec(Opening(), acts);
            && |Releasers(s, 0)| == n && |Executors(s, 0)| == n + 1
            && 0 in s.ops && s.ops[0].status == OpPending && s.ops[0].processedAt.Some?
  {
    hide Act, Inv, Init, Opening, Recording, Executors, Releasers;
    Recorded();
    InitOk(Opening());
    if n == 0 {
      acts := FirstSale();
    } else {
      var front := ExecutionBoundIsReached(n - 1);
      var s := Exec(Opening(), front);
      ExecOk(Opening(), front);
      var more := SellAgain(s, 0);
      acts := front + more;
      ExecConcat(Opening(), front, more);
    }
  }

  lemma {:induction false} FirstSale() returns (acts: seq<Action>)
    ensures var s := Exec(Opening(), acts);
            && Releasers(s, 0) == {} && |Executors(s, 0)| == 1
            && 0 in s.ops && s.ops[0].status == OpPending && s.ops[0].processedAt.Some?
  {
    Recorded();
    InitOk(Opening());
    var s := Act(Opening(), Recording());
    assert s.workers == map[];
    ActOk(Opening(), Recording());
    hide Act, Inv, Init, Opening, Recording, Executors, Releasers;
    var sale := SellOnce(s, 0, 0);
    acts := [Recording()] + sale;
    ExecOne(Opening(), Recording());
    ExecConcat(Opening(), [Recording()], sale);
    NobodyYet(s);
  }

  lemma {:induction false} NobodyYet(s: Sys)
    requires s.workers == map[]
    ensures Executors(s, 0) == {} && Releasers(s, 0) == {}
  {
  }

  // ---------- what a release leads to ----------

  /** Sync call `i` on the operation is about to release its claim. */
  ghost predicate Releasing(s: Sys, i: nat, id: OpId) {
    i in s.workers && OnOperation(s.workers[i], id) && s.workers[i].pc == Release
  }

  lemma {:induction false} ReleaseOpens(s: Sys, i: nat, id: OpId, ch: Choice)
    requires Releasing(s, i, id) && Releasable(s.ops, id)
    ensures var t := Act(s, StepWorker(i, ch)); Claimable(t.ops, id) && t.workers.Keys == s.workers.Keys
  {
    StepWorkerTables(s, i, ch);
    assert WorkerStep(s, s.workers[i], ch).ops == s.ops[id := s.ops[id].(processedAt := None)];
    hide Act, WorkerStep;
  }

  /** A release leads to a sale beyond those of the calls that had claimed before it, if and only if the
      operation is still pending when it is made. */
  lemma {:induction false} ReleaseResellsIff(s: Sys, i: nat, id: OpId, ch: Choice)
    requires Reachable(s) && Releasing(s, i, id) && id in s.ops
    ensures var t := Act(s, StepWorker(i, ch));
            (exists acts: seq<Action>, k :: k in Executors(Exec(t, acts), id) && k !in Sellers(s, id))
            <==> s.ops[id].status == OpPending
  {
    ReachableOk(s);
    var step := StepWorker(i, ch);
    var t := Act(s, step);
    if s.ops[id].status == OpPending {
      ReleaseOpens(s, i, id, ch);
      ActOk(s, step);
      hide Act, Inv;
      var k := FreshNat(t.workers.Keys);
      assert k !in t.workers && k !in s.workers;
      var acts := SellOnce(t, k, id);
      assert k in Executors(Exec(t, acts), id) && k !in Sellers(s, id);
    } else {
      forall acts: seq<Action>, k | k in Executors(Exec(t, acts), id)
        ensures k in Sellers(s, id)
      {
        SettledSellers(s, step, acts, id);
      }
    }
  }

  lemma {:induction false} SettledSellers(s: Sys, first: Action, acts: seq<Action>, id: OpId)
    requires Inv(s) && id in s.ops && s.ops[id].status != OpPending
    ensures Executors(Exec(Act(s, first), acts), id) <= Sellers(s, id)
  {
    hide Act, Inv;
    ExecOne(s, first);
    ExecConcat(s, [first], acts);
    NoNewSellers(s, [first] + acts, id);
  }

  lemma {:induction false} SellersClaimed(s: Sys, id: OpId)
    requires Inv(s)
    ensures Sellers(s, id) <= Claimers(s, id)
  {
    hide BooksOk, OpsOk, EngineOk, Delivered;
    forall i | i in Sellers(s, id)
      ensures i in Claimers(s, id)
    {
      assert WorkerOk(s, s.workers[i]);
    }
  }

  lemma {:induction false} SellTwice(s: Sys, id: OpId) returns (acts: seq<Action>)
    requires Inv(s) && Claimable(s.ops, id)
    ensures |Executors(Exec(s, acts), id)| >= 2
  {
    hide Act, Inv, Executors, Releasers;
    var k := FreshNat(s.workers.Keys);
    var first := SellOnce(s, k, id);
    ExecOk(s, first);
    var second := SellAgain(Exec(s, first), id);
    acts := first + second;
    ExecConcat(s, first, second);
  }

  /** The first release of an operation makes a second sale possible if and only if the operation is
      still pending when it is made. */
  lemma {:induction false} FirstReleaseDoublesIff(s: Sys, i: nat, id: OpId, ch: Choice)
    requires Reachable(s) && Releasing(s, i, id) && id in s.ops && Releasers(s, id) == {}
    ensures var t := Act(s, StepWorker(i, ch));
            (exists acts: seq<Action> :: |Executors(Exec(t, acts), id)| >= 2) <==> s.ops[id].status == OpPending
  {
    ReachableOk(s);
    var step := StepWorker(i, ch);
    var t := Act(s, step);
    if s.ops[id].status == OpPending {
      ReleaseOpens(s, i, id, ch);
      ActOk(s, step);
      hide Act, Inv, Executors, Releasers;
      var acts := SellTwice(t, id);
      assert |Executors(Exec(t, acts), id)| >= 2;
    } else {
      ExecutedAtMostOncePerRelease(s, id);
      SellersClaimed(s, id);
      SubsetSize(Sellers(s, id), Claimers(s, id));
      forall acts: seq<Action>
        ensures |Executors(Exec(t, acts), id)| <= 1
      {
        SettledSellers(s, step, acts, id);
        SubsetSize(Executors(Exec(t, acts), id), Sellers(s, id));
      }
    }
  }
}
