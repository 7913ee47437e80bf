/** The offline-sync guarantees over every interleaving of the platform, from any platform on
    which nothing has happened yet. */
module SyncTheorems {
  import opened Schema
  import opened OrderPayments
  import opened StockLaws
  import opened Sums
  import opened Platform
  import opened PlatformSafety
  import opened PlatformSteps

  lemma {:induction false} InitOk(s: Sys)
    requires Init(s)
    ensures Inv(s)
  {
  }

  ghost predicate Reachable(s: Sys) {
    exists s0: Sys, acts: seq<Action> :: Init(s0) && Exec(s0, acts) == s
  }

  lemma {:induction false} ReachableOk(s: Sys)
    requires Reachable(s)
    ensures Inv(s)
  {
    var s0: Sys, acts: seq<Action> :| Init(s0) && Exec(s0, acts) == s;
    InitOk(s0);
    ExecOk(s0, acts);
  }

  // ---------- agreement ----------

  /** A sync call on operation `id` that has returned `r`. */
  ghost predicate ReturnedResult(s: Sys, i: nat, id: OpId, r: SyncResult) {
    && i in s.workers && s.workers[i].job.SyncJob? && s.workers[i].job.opId == id
    && s.workers[i].pc.Returned? && s.workers[i].result == Some(r)
  }

  /** Once an operation is ACCEPTED or REJECTED nothing about it ever changes again. */
  lemma {:induction false} SettledForever(s: Sys, acts: seq<Action>, id: OpId)
    requires Reachable(s) && id in s.ops && s.ops[id].status != OpPending
    ensures id in Exec(s, acts).ops && Exec(s, acts).ops[id] == s.ops[id]
  {
    ReachableOk(s);
    ExecOk(s, acts);
  }

  /** Every result a sync call returns is the operation's durable, settled outcome. */
  lemma {:induction false} ReturnedIsDurable(s: Sys, i: nat, id: OpId, r: SyncResult)
    requires Reachable(s) && ReturnedResult(s, i, id, r)
    ensures id in s.ops && s.ops[id].status != OpPending && r == ResultOf(s.ops[id])
  {
    hide BooksOk, OpsOk, Delivered;
    ReachableOk(s);
    assert WorkerOk(s, s.workers[i]);
  }

  /** A returned call never changes again. */
  lemma {:induction false} ReturnedStep(s: Sys, a: Action, i: nat)
    requires i in s.workers && s.workers[i].pc.Returned?
    ensures i in Act(s, a).workers && Act(s, a).workers[i] == s.workers[i]
  {
    hide Step, Charged, WorkerStep, AdjustStep, Public, Recordable, NewOperation, ActTable;
    if a.Administer? { TableRows(s, a.table); }
    if a.StepWorker? && a.w == i {
      IdleStep(s, s.workers[i], a.choice);
    }
  }

  lemma {:induction false} ReturnedStays(s: Sys, acts: seq<Action>, i: nat)
    requires i in s.workers && s.workers[i].pc.Returned?
    ensures var s' := Exec(s, acts); i in s'.workers && s'.workers[i] == s.workers[i]
  {
    hide Act;
    if acts != [] {
      ReturnedStays(s, acts[..|acts| - 1], i);
      ReturnedStep(Exec(s, acts[..|acts| - 1]), acts[|acts| - 1], i);
    }
  }

  /** Agreement: any two calls on one operation that return, whenever they do, return the same. */
  lemma {:induction false} SyncResultsAgree(s: Sys, later: seq<Action>, i: nat, j: nat, id: OpId, r1: SyncResult,
                                            r2: SyncResult)
    requires Reachable(s) && ReturnedResult(s, i, id, r1)
    requires ReturnedResult(Exec(s, later), j, id, r2)
    ensures r1 == r2
  {
    ReturnedIsDurable(s, i, id, r1);
    SettledForever(s, later, id);
    ReachableOk(s);
    ExecOk(s, later);
    var s' := Exec(s, later);
    assert WorkerOk(s', s'.workers[j]);
  }

  // ---------- bounded execution ----------

  /** The sync calls that won the claim of an operation. */
  ghost function Claimers(s: Sys, id: OpId): set<nat> {
    set i | i in s.workers && s.workers[i].job.SyncJob? && s.workers[i].job.opId == id && s.workers[i].claimed
  }

  /** The sync calls whose engine created an order for an operation. */
  ghost function Executors(s: Sys, id: OpId): set<nat> {
    set i | i in s.workers && s.workers[i].job.SyncJob? && s.workers[i].job.opId == id && s.workers[i].orderId.Some?
  }

  /** The sync calls that released a stale claim on an operation. */
  ghost function Releasers(s: Sys, id: OpId): set<nat> {
    set i | i in s.workers && s.workers[i].job.SyncJob? && s.workers[i].job.opId == id && s.workers[i].released
  }

  /** Every claim uses up the initial chance or one release. */
  ghost predicate ClaimsBounded(s: Sys, id: OpId) {
    && (id !in s.ops ==> Claimers(s, id) == {} && Releasers(s, id) == {})
    && (id in s.ops ==> |Claimers(s, id)| + (if s.ops[id].processedAt.None? then 1 else 0) <= 1 + |Releasers(s, id)|)
  }

  ghost predicate SameFlags(w: Worker, w': Worker) {
    w'.job == w.job && w'.claimed == w.claimed && w'.released == w.released
  }

  /** A step that neither claims nor releases. */
  lemma {:induction false} SameClaims(s: Sys, s': Sys, id: OpId)
    requires ClaimsBounded(s, id)
    requires forall i :: i in s.workers ==> i in s'.workers && SameFlags(s.workers[i], s'.workers[i])
    requires forall i :: i in s'.workers && i !in s.workers ==> !s'.workers[i].claimed && !s'.workers[i].released
    requires id in s.ops <==> id in s'.ops
    requires id in s.ops ==> s'.ops[id].processedAt == s.ops[id].processedAt
    ensures ClaimsBounded(s', id)
  {
    assert Claimers(s', id) == Claimers(s, id);
    assert Releasers(s', id) == Releasers(s, id);
  }

  /** Claiming needs an open claim and takes it; releasing opens it again. */
  lemma {:induction false} ClaimEffect(s: Sys, w: Worker, ch: Choice)
    requires w.job.SyncJob? && (w.pc.Claim? || w.pc.Release?)
    ensures var e, id := WorkerStep(s, w, ch), w.job.opId;
            var hit := if w.pc.Claim? then Claimable(s.ops, id) else Releasable(s.ops, id);
            && e.tx.None? && e.worker.job == w.job
            && e.worker.claimed == (w.claimed || (w.pc.Claim? && hit))
            && e.worker.released == (w.released || (w.pc.Release? && hit))
            && (!hit ==> e.ops == s.ops)
            && (hit ==> id in s.ops && e.ops.Keys == s.ops.Keys && e.ops[id].processedAt.None? == w.pc.Release?)
            && (forall x :: x in s.ops && x != id ==> x in e.ops && e.ops[x] == s.ops[x])
  {
  }

  /** What a call's step does to the two tables it owns rows in. */
  lemma {:induction false} StepWorkerTables(s: Sys, i: nat, ch: Choice)
    requires i in s.workers
    ensures var s', e := Act(s, StepWorker(i, ch)), WorkerStep(s, s.workers[i], ch);
            s'.ops == e.ops && s'.workers == s.workers[i := e.worker]
  {
    hide WorkerStep, Step, Charged;
  }

  lemma {:induction false} ClaimCounts(s: Sys, i: nat, ch: Choice, id: OpId)
    requires Inv(s) && ClaimsBounded(s, id) && i in s.workers && s.workers[i].job.SyncJob?
    requires s.workers[i].pc.Claim? || s.workers[i].pc.Release?
    ensures ClaimsBounded(Act(s, StepWorker(i, ch)), id)
  {
    hide WorkerStep, Inv, Act;
    StepWorkerTables(s, i, ch);
    Unmarked(s, i);
    ClaimEffect(s, s.workers[i], ch);
    Recount(s, Act(s, StepWorker(i, ch)), i, WorkerStep(s, s.workers[i], ch), id);
  }

  /** One call sets one flag, or none. */
  lemma {:induction false} FlagSets(s: Sys, s': Sys, i: nat, w': Worker, id: OpId)
    requires i in s.workers && s.workers[i].job.SyncJob? && w'.job == s.workers[i].job
             && s'.workers == s.workers[i := w']
    requires !s.workers[i].claimed && !s.workers[i].released
    ensures i !in Claimers(s, id) && i !in Releasers(s, id)
    ensures Claimers(s', id) == if w'.job.opId == id && w'.claimed then Claimers(s, id) + {i} else Claimers(s, id)
    ensures Releasers(s', id) == if w'.job.opId == id && w'.released then Releasers(s, id) + {i} else Releasers(s, id)
  {
  }

  lemma {:induction false} Recount(s: Sys, s': Sys, i: nat, e: Effect, id: OpId)
    requires ClaimsBounded(s, id) && i in s.workers && s.workers[i].job.SyncJob? && e.worker.job == s.workers[i].job
    requires s'.ops == e.ops && s'.workers == s.workers[i := e.worker] && s.workers[i].job.opId in s.ops
    requires !s.workers[i].claimed && !s.workers[i].released && !(e.worker.claimed && e.worker.released)
    requires !e.worker.claimed && !e.worker.released ==> e.ops == s.ops
    requires e.ops.Keys == s.ops.Keys && forall x :: x in s.ops && x != s.workers[i].job.opId ==> e.ops[x] == s.ops[x]
    requires e.worker.claimed ==>
               s.ops[s.workers[i].job.opId].processedAt.None? && e.ops[s.workers[i].job.opId].processedAt.Some?
    ensures ClaimsBounded(s', id)
  {
    FlagSets(s, s', i, e.worker, id);
    hide Claimers, Releasers;
    assert id in s'.ops <==> id in s.ops;
  }

  /** A call about to claim or to release has done neither before. */
  lemma {:induction false} Unmarked(s: Sys, i: nat)
    requires Inv(s) && i in s.workers && s.workers[i].job.SyncJob?
    requires s.workers[i].pc.Claim? || s.workers[i].pc.Release?
    ensures !s.workers[i].claimed && !s.workers[i].released && s.workers[i].job.opId in s.ops
  {
    hide BooksOk, OpsOk, EngineOk;
    assert WorkerOk(s, s.workers[i]);
  }

  ghost predicate ClaimColumnsKept(s: Sys, w: Worker, e: Effect) {
    && e.worker.job == w.job && e.worker.claimed == w.claimed && e.worker.released == w.released
    && s.ops.Keys == e.ops.Keys
    && forall id :: id in s.ops ==> e.ops[id].processedAt == s.ops[id].processedAt
  }

  lemma {:induction false} OtherProtocolSteps(s: Sys, w: Worker, ch: Choice)
    requires w.job.SyncJob? && !w.pc.Claim? && !w.pc.Release?
    ensures ClaimColumnsKept(s, w, ProtocolStep(s, w, ch))
  {
  }

  lemma {:induction false} EngineReads(s: Sys, w: Worker)
    requires w.request.Some?
    ensures ClaimColumnsKept(s, w, EngineRead(s, w))
  {
  }

  lemma {:induction false} EngineWrites(s: Sys, w: Worker)
    requires w.request.Some? && w.session.Some?
    ensures ClaimColumnsKept(s, w, EngineWrite(s, w))
  {
    hide Apply, ClaimColumnsKept, EngineOrderReq, SaleRow;
    var e := EngineWrite(s, w);
    assert e.ops == s.ops && e.worker == w.(pc := e.worker.pc, orderId := e.worker.orderId,
                                            paymentId := e.worker.paymentId);
    SameColumns(s, w, e);
  }

  lemma {:induction false} SameColumns(s: Sys, w: Worker, e: Effect)
    requires e.ops == s.ops
    requires e.worker == w.(pc := e.worker.pc, orderId := e.worker.orderId, paymentId := e.worker.paymentId)
    ensures ClaimColumnsKept(s, w, e)
  {
  }

  /** Only a claim or a release touches the claim column or the two flags. */
  lemma {:induction false} OtherSteps(s: Sys, w: Worker, ch: Choice)
    requires !(w.job.SyncJob? && (w.pc.Claim? || w.pc.Release?))
    ensures ClaimColumnsKept(s, w, WorkerStep(s, w, ch))
  {
    hide ProtocolStep, EngineRead, EngineWrite;
    if w.job.SyncJob? {
      OtherProtocolSteps(s, w, ch);
    }
    if w.request.Some? {
      EngineReads(s, w);
      if w.session.Some? {
        EngineWrites(s, w);
      }
    }
  }

  /** The calls in flight after an action that is no call's own step. */
  function OtherCalls(s: Sys, a: Action): map<nat, Worker> {
    match a
    case CallSync(w, opId, userId) =>
      if w in s.workers then s.workers else s.workers[w := NewWorker(SyncJob(opId, userId), Load, None)]
    case CallSale(w, request) =>
      if w in s.workers || request.allowClosed || request.items == [] then s.workers
      else s.workers[w := NewWorker(OnlineJob, ReadSession, Some(request))]
    case CrashWorker(w) =>
      if w in s.workers && !s.workers[w].pc.Returned? && !s.workers[w].pc.Threw?
      then s.workers[w := s.workers[w].(pc := Crashed)] else s.workers
    case _ => s.workers
  }

  lemma {:induction false} OtherTables(s: Sys, a: Action)
    requires !a.StepWorker?
    ensures var s' := Act(s, a);
            && s'.workers == OtherCalls(s, a)
            && s'.ops == if a.RecordIntent? && Recordable(s, a) then s.ops[a.id := NewOperation(s, a)] else s.ops
  {
    hide Step, Charged, AdjustStep, Public, WorkerStep, ActTable, Recordable, NewOperation, NewWorker;
    if a.Administer? { TableRows(s, a.table); }
  }

  lemma {:induction false} OtherFlags(s: Sys, a: Action)
    ensures forall i :: i in s.workers ==> i in OtherCalls(s, a) && SameFlags(s.workers[i], OtherCalls(s, a)[i])
    ensures forall i :: i in OtherCalls(s, a) && i !in s.workers ==>
              !OtherCalls(s, a)[i].claimed && !OtherCalls(s, a)[i].released
  {
  }

  /** Every other action leaves the flags of existing calls and the claim column alone. */
  lemma {:induction false} OtherColumns(s: Sys, a: Action)
    requires !a.StepWorker?
    ensures var s' := Act(s, a);
            && (forall i :: i in s.workers ==> i in s'.workers && SameFlags(s.workers[i], s'.workers[i]))
            && (forall i :: i in s'.workers && i !in s.workers ==> !s'.workers[i].claimed && !s'.workers[i].released)
            && (forall id :: id in s.ops ==> id in s'.ops && s'.ops[id] == s.ops[id])
            && (forall id :: id in s'.ops && id !in s.ops ==> s'.workers == s.workers)
  {
    hide Act, SameFlags, NewOperation;
    OtherTables(s, a);
    OtherFlags(s, a);
  }

  lemma {:induction false} ClaimsBoundedStep(s: Sys, a: Action, id: OpId)
    requires Inv(s) && ClaimsBounded(s, id)
    ensures ClaimsBounded(Act(s, a), id)
  {
    hide Inv, WorkerStep, ClaimsBounded, Act;
    var s' := Act(s, a);
    if a.StepWorker? && a.w in s.workers {
      var w := s.workers[a.w];
      if w.job.SyncJob? && (w.pc.Claim? || w.pc.Release?) {
        ClaimCounts(s, a.w, a.choice, id);
      } else {
        OtherSteps(s, w, a.choice);
        StepWorkerTables(s, a.w, a.choice);
        SameClaims(s, s', id);
      }
    } else if a.StepWorker? {
      assert s' == s by { NoSuchCall(s, a); }
    } else {
      OtherColumns(s, a);
      if id in s'.ops && id !in s.ops {
        FirstClaimOpen(s, s', id);
      } else {
        SameClaims(s, s', id);
      }
    }
  }

  lemma {:induction false} NoSuchCall(s: Sys, a: Action)
    requires a.StepWorker? && a.w !in s.workers
    ensures Act(s, a) == s
  {
  }

  lemma {:induction false} FirstClaimOpen(s: Sys, s': Sys, id: OpId)
    requires ClaimsBounded(s, id) && id !in s.ops
    requires s'.workers == s.workers && id in s'.ops
    ensures ClaimsBounded(s', id)
  {
    assert Claimers(s', id) == Claimers(s, id) && Releasers(s', id) == Releasers(s, id);
  }

  lemma {:induction false} ClaimsBoundedRun(s: Sys, acts: seq<Action>, id: OpId)
    requires Inv(s) && ClaimsBounded(s, id)
    ensures ClaimsBounded(Exec(s, acts), id)
  {
    hide Inv, ClaimsBounded, Act;
    if acts != [] {
      ClaimsBoundedRun(s, acts[..|acts| - 1], id);
      ExecOk(s, acts[..|acts| - 1]);
      ClaimsBoundedStep(Exec(s, acts[..|acts| - 1]), acts[|acts| - 1], id);
    }
  }

  /** Over any run the sale of one operation is executed at most once, plus once per release of a
      stale claim; without a release, at most once. */
  lemma {:induction false} ExecutedAtMostOncePerRelease(s: Sys, id: OpId)
    requires Reachable(s)
    ensures |Executors(s, id)| <= |Claimers(s, id)| <= 1 + |Releasers(s, id)|
    ensures Releasers(s, id) == {} ==> |Executors(s, id)| <= 1
  {
    hide BooksOk, OpsOk, EngineOk;
    var s0: Sys, acts: seq<Action> :| Init(s0) && Exec(s0, acts) == s;
    InitOk(s0);
    assert Claimers(s0, id) == {} && Releasers(s0, id) == {};
    ClaimsBoundedRun(s0, acts, id);
    ReachableOk(s);
    forall i | i in Executors(s, id)
      ensures i in Claimers(s, id)
    {
      assert WorkerOk(s, s.workers[i]);
    }
    SubsetSize(Executors(s, id), Claimers(s, id));
  }
}
