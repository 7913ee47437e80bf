/** Concurrent role changes and status changes on memberships, statement by statement: an unlocked
    pre-read that may be stale, row locks on the active owners taken one at a time, the count, and the
    write that commits. */
module OwnerLock {
  import opened Rbac
  import opened RbacTheorems

  type WorkerId = nat

  /** What a call is about to write to its membership. */
  datatype Target = ToRole(r: RoleId) | ToStatus(suspend: bool)

  /** `counted` are the owner rows a call holds locks on. */
  datatype Pc =
    | Plain(m: MemberId, target: Target)
    | Opened(m: MemberId, target: Target)
    | Locking(m: MemberId, target: Target, todo: set<MemberId>, counted: set<MemberId>)
    | Ready(m: MemberId, target: Target, counted: set<MemberId>)

  datatype Sys = Sys(d: Directory, calls: map<WorkerId, Pc>)

  datatype Action =
    | PreRead(w: WorkerId, m: MemberId, target: Target)
    | TakeSnapshot(w: WorkerId)
    | LockRow(w: WorkerId, row: MemberId)
    | Decide(w: WorkerId)
    | Write(w: WorkerId)
    | Crash(w: WorkerId)

  predicate Exists(d: Directory, m: MemberId, t: Target) {
    m in d.members && (t.ToRole? ==> t.r in d.roles)
  }

  /** The branch the pre-read takes: removing an owner goes through the lock. */
  predicate NeedsLock(d: Directory, m: MemberId, t: Target)
    requires Exists(d, m, t)
  {
    match t
    case ToRole(r) => HoldsOwnerRole(d, m) && d.roles[r].key != OWNER
    case ToStatus(suspend) => HoldsOwnerRole(d, m) && d.members[m].status == ActiveMember && suspend
  }

  function Held(pc: Pc): set<MemberId> {
    match pc case Locking(_, _, _, counted) => counted case Ready(_, _, counted) => counted case _ => {}
  }

  predicate HeldByAnother(s: Sys, w: WorkerId, row: MemberId) {
    exists v :: v in s.calls && v != w && row in Held(s.calls[v])
  }

  function Apply(d: Directory, m: MemberId, t: Target): Directory
    requires m in d.members
  {
    match t
    case ToRole(r) => d.(members := d.members[m := d.members[m].(roleId := r)])
    case ToStatus(suspend) => d.(members := d.members[m := d.members[m].(status := NewStatus(suspend))])
  }

  function Without(calls: map<WorkerId, Pc>, w: WorkerId): map<WorkerId, Pc> {
    map v | v in calls && v != w :: calls[v]
  }

  /** One statement; it waits (does nothing) while its row is locked by another call. */
  function Act(s: Sys, a: Action): Sys {
    match a
    case PreRead(w, m, t) =>
      if w in s.calls || !Exists(s.d, m, t) then s
      else s.(calls := s.calls[w := if NeedsLock(s.d, m, t) then Opened(m, t) else Plain(m, t)])
    case TakeSnapshot(w) =>
      if w in s.calls && s.calls[w].Opened? then
        s.(calls := s.calls[w := Locking(s.calls[w].m, s.calls[w].target, ActiveOwners(s.d), {})])
      else s
    case LockRow(w, row) =>
      if w in s.calls && s.calls[w].Locking? && row in s.calls[w].todo && !HeldByAnother(s, w, row) then
        var pc := s.calls[w];
        var counted := if row in ActiveOwners(s.d) then pc.counted + {row} else pc.counted;
        s.(calls := s.calls[w := Locking(pc.m, pc.target, pc.todo - {row}, counted)])
      else s
    case Decide(w) =>
      if w in s.calls && s.calls[w].Locking? && s.calls[w].todo == {} then
        var pc := s.calls[w];
        if |pc.counted| <= 1 then s.(calls := Without(s.calls, w))
        else s.(calls := s.calls[w := Ready(pc.m, pc.target, pc.counted)])
      else s
    case Write(w) =>
      if w in s.calls && (s.calls[w].Plain? || s.calls[w].Ready?) && !HeldByAnother(s, w, s.calls[w].m)
         && Exists(s.d, s.calls[w].m, s.calls[w].target) then
        Sys(Apply(s.d, s.calls[w].m, s.calls[w].target), Without(s.calls, w))
      else s
    case Crash(w) => s.(calls := Without(s.calls, w))
  }

  function Exec(s: Sys, run: seq<Action>): Sys
    decreases |run|
  {
    if run == [] then s else Exec(Act(s, run[0]), run[1..])
  }

  // ---------- the locks ----------

  /** Rows a call has locked and counted are active owners, and a call past its decision counted two. */
  predicate PcOk(d: Directory, pc: Pc) {
    Exists(d, pc.m, pc.target) && Held(pc) <= ActiveOwners(d) && (pc.Ready? ==> |pc.counted| >= 2)
  }

  ghost predicate Inv(s: Sys) {
    && (forall w :: w in s.calls ==> PcOk(s.d, s.calls[w]))
    && (forall v, w, row :: v in s.calls && w in s.calls && row in Held(s.calls[v]) && row in Held(s.calls[w]) ==>
          v == w)
  }

  /** Writing one row leaves the other active owners as they were. */
  lemma {:induction false} OtherRowsStay(d: Directory, m: MemberId, t: Target, n: MemberId)
    requires Exists(d, m, t) && n != m
    ensures n in ActiveOwners(Apply(d, m, t)) <==> n in ActiveOwners(d)
  {
  }

  lemma {:induction false} SameTables(d: Directory, m: MemberId, t: Target, n: MemberId, u: Target)
    requires Exists(d, m, t)
    ensures Exists(Apply(d, m, t), n, u) <==> Exists(d, n, u)
  {
  }

  lemma {:induction false} WriteInv(s: Sys, w: WorkerId)
    requires Inv(s)
    ensures Inv(Act(s, Write(w)))
  {
    hide ActiveOwners, Apply, Exists;
    var s' := Act(s, Write(w));
    if s' != s {
      var m, t := s.calls[w].m, s.calls[w].target;
      forall v | v in s'.calls
        ensures PcOk(s'.d, s'.calls[v])
      {
        SameTables(s.d, m, t, s.calls[v].m, s.calls[v].target);
        forall row | row in Held(s.calls[v])
          ensures row in ActiveOwners(s'.d)
        {
          OtherRowsStay(s.d, m, t, row);
        }
      }
    }
  }

  lemma {:induction false} PutCall(s: Sys, w: WorkerId, pc: Pc)
    requires Inv(s) && PcOk(s.d, pc)
    requires forall row :: row in Held(pc) ==> !HeldByAnother(s, w, row)
    ensures Inv(s.(calls := s.calls[w := pc]))
  {
    hide PcOk, Held;
  }

  lemma {:induction false} DropCall(s: Sys, w: WorkerId)
    requires Inv(s)
    ensures Inv(s.(calls := Without(s.calls, w)))
  {
    hide PcOk, Held;
  }

  lemma {:induction false} OwnRows(s: Sys, w: WorkerId, row: MemberId)
    requires Inv(s) && w in s.calls && row in Held(s.calls[w])
    ensures !HeldByAnother(s, w, row)
  {
  }

  lemma {:induction false} LockRowInv(s: Sys, w: WorkerId, row: MemberId)
    requires Inv(s) && w in s.calls && s.calls[w].Locking? && row in s.calls[w].todo && !HeldByAnother(s, w, row)
    ensures Inv(Act(s, LockRow(w, row)))
  {
    hide ActiveOwners, HeldByAnother, Exists;
    var pc := s.calls[w];
    var counted := if row in ActiveOwners(s.d) then pc.counted + {row} else pc.counted;
    assert PcOk(s.d, pc);
    forall r | r in counted && r != row {
      OwnRows(s, w, r);
    }
    PutCall(s, w, Locking(pc.m, pc.target, pc.todo - {row}, counted));
  }

  lemma {:induction false} DecideInv(s: Sys, w: WorkerId)
    requires Inv(s) && w in s.calls && s.calls[w].Locking? && s.calls[w].todo == {}
    ensures Inv(Act(s, Decide(w)))
  {
    hide ActiveOwners, HeldByAnother, Exists;
    var pc := s.calls[w];
    assert PcOk(s.d, pc);
    forall r | r in pc.counted {
      OwnRows(s, w, r);
    }
    if |pc.counted| <= 1 {
      DropCall(s, w);
    } else {
      PutCall(s, w, Ready(pc.m, pc.target, pc.counted));
    }
  }

  lemma {:induction false} ActInv(s: Sys, a: Action)
    requires Inv(s)
    ensures Inv(Act(s, a))
  {
    hide Inv, ActiveOwners, NeedsLock, HeldByAnother, Exists;
    match a
    case PreRead(w, m, t) =>
      if w !in s.calls && Exists(s.d, m, t) {
        PutCall(s, w, if NeedsLock(s.d, m, t) then Opened(m, t) else Plain(m, t));
      }
    case TakeSnapshot(w) =>
      if w in s.calls && s.calls[w].Opened? {
        assert PcOk(s.d, s.calls[w]) by { CallOk(s, w); }
        PutCall(s, w, Locking(s.calls[w].m, s.calls[w].target, ActiveOwners(s.d), {}));
      }
    case LockRow(w, row) =>
      if w in s.calls && s.calls[w].Locking? && row in s.calls[w].todo && !HeldByAnother(s, w, row) {
        LockRowInv(s, w, row);
      }
    case Decide(w) =>
      if w in s.calls && s.calls[w].Locking? && s.calls[w].todo == {} { DecideInv(s, w); }
    case Write(w) => WriteInv(s, w);
    case Crash(w) => DropCall(s, w);
  }

  lemma {:induction false} CallOk(s: Sys, w: WorkerId)
    requires Inv(s) && w in s.calls
    ensures PcOk(s.d, s.calls[w])
  {
  }

  /** A write that went through the lock never removes the last active owner, whatever else is under
      way, promotions and reactivations included. */
  lemma {:induction false} LockedWriteIsSafe(s: Sys, w: WorkerId)
    requires Inv(s) && w in s.calls && s.calls[w].Ready?
    ensures ActiveOwners(Act(s, Write(w)).d) != {}
  {
    hide ActiveOwners, Apply;
    assert PcOk(s.d, s.calls[w]);
    var n := AnotherOwner(s.calls[w].counted, s.calls[w].m);
    if Act(s, Write(w)) != s {
      OtherRowsStay(s.d, s.calls[w].m, s.calls[w].target, n);
    }
  }

  /** The write takes owner power from an active owner. */
  predicate Removes(d: Directory, m: MemberId, t: Target)
    requires Exists(d, m, t)
  {
    m in ActiveOwners(d) && match t case ToRole(r) => d.roles[r].key != OWNER case ToStatus(suspend) => suspend
  }

  predicate WritesNow(s: Sys, a: Action) {
    && a.Write? && a.w in s.calls && (s.calls[a.w].Plain? || s.calls[a.w].Ready?)
    && !HeldByAnother(s, a.w, s.calls[a.w].m) && Exists(s.d, s.calls[a.w].m, s.calls[a.w].target)
  }

  /** The exact condition, for any step of any run: the last active owner is lost if and only if a call
      whose pre-read took the unlocked branch now writes to the only active owner. */
  lemma {:induction false} LastOwnerLostIff(s: Sys, a: Action)
    requires Inv(s) && ActiveOwners(s.d) != {}
    ensures ActiveOwners(Act(s, a).d) == {}
            <==> WritesNow(s, a) && s.calls[a.w].Plain? && ActiveOwners(s.d) == {s.calls[a.w].m}
                 && Removes(s.d, s.calls[a.w].m, s.calls[a.w].target)
  {
    if WritesNow(s, a) {
      var pc := s.calls[a.w];
      if pc.Ready? {
        LockedWriteIsSafe(s, a.w);
      }
      RemovedIff(s.d, pc.m, pc.target);
    } else {
      assert Act(s, a).d == s.d;
    }
  }

  lemma {:induction false} RemovedIff(d: Directory, m: MemberId, t: Target)
    requires Exists(d, m, t) && ActiveOwners(d) != {}
    ensures ActiveOwners(Apply(d, m, t)) == {} <==> ActiveOwners(d) == {m} && Removes(d, m, t)
  {
    forall n | n != m {
      OtherRowsStay(d, m, t, n);
    }
    assert m in ActiveOwners(Apply(d, m, t)) || (m !in ActiveOwners(d)) || Removes(d, m, t);
    if ActiveOwners(d) == {m} && Removes(d, m, t) {
      assert m !in ActiveOwners(Apply(d, m, t));
    }
  }

  // ---------- demotions and suspensions only ----------

  /** A target that makes nobody an active owner. */
  predicate Shrinks(d: Directory, t: Target) {
    match t case ToRole(r) => r in d.roles && d.roles[r].key != OWNER case ToStatus(suspend) => suspend
  }

  predicate ShrinksOnly(d: Directory, run: seq<Action>) {
    forall i :: 0 <= i < |run| && run[i].PreRead? ==> Shrinks(d, run[i].target)
  }

  /** In such runs an unlocked call's pre-read, however old, is still right. */
  ghost predicate PlainStillRight(s: Sys) {
    forall w :: w in s.calls ==>
      && Shrinks(s.d, s.calls[w].target)
      && (s.calls[w].Plain? ==>
            Exists(s.d, s.calls[w].m, s.calls[w].target) && !NeedsLock(s.d, s.calls[w].m, s.calls[w].target))
  }

  lemma {:induction false} ShrinkingWriteNeedsNoMoreLocks(d: Directory, m: MemberId, t: Target, n: MemberId, u: Target)
    requires Exists(d, m, t) && Shrinks(d, t) && Exists(d, n, u)
    ensures Exists(Apply(d, m, t), n, u) && (NeedsLock(Apply(d, m, t), n, u) ==> NeedsLock(d, n, u))
  {
  }

  lemma {:induction false} ActStillRight(s: Sys, a: Action)
    requires Inv(s) && PlainStillRight(s) && (a.PreRead? ==> Shrinks(s.d, a.target))
    ensures PlainStillRight(Act(s, a)) && Act(s, a).d.roles == s.d.roles
  {
    hide ActiveOwners, NeedsLock;
    if a.Write? && WritesNow(s, a) {
      var s' := Act(s, a);
      forall v | v in s'.calls && s'.calls[v].Plain?
        ensures Exists(s'.d, s'.calls[v].m, s'.calls[v].target) && !NeedsLock(s'.d, s'.calls[v].m, s'.calls[v].target)
      {
        ShrinkingWriteNeedsNoMoreLocks(s.d, s.calls[a.w].m, s.calls[a.w].target, s.calls[v].m, s.calls[v].target);
      }
    }
  }

  /** Any number of concurrent demotions and suspensions, with pre-reads as stale as may be, never leave
      the tenant without an active owner. */
  lemma {:induction false} ConcurrentRemovalsKeepAnOwner(s: Sys, run: seq<Action>)
    requires Inv(s) && PlainStillRight(s) && ShrinksOnly(s.d, run) && ActiveOwners(s.d) != {}
    ensures ActiveOwners(Exec(s, run).d) != {}
    decreases |run|
  {
    if run != [] {
      var s' := Act(s, run[0]);
      ActInv(s, run[0]);
      ActStillRight(s, run[0]);
      LastOwnerLostIff(s, run[0]);
      if WritesNow(s, run[0]) && s.calls[run[0].w].Plain? { PlainRemovesNothing(s, run[0]); }
      hide Inv, PlainStillRight, Act, ActiveOwners;
      assert ShrinksOnly(s'.d, run[1..]);
      ConcurrentRemovalsKeepAnOwner(s', run[1..]);
    }
  }

  lemma {:induction false} PlainRemovesNothing(s: Sys, a: Action)
    requires PlainStillRight(s) && WritesNow(s, a) && s.calls[a.w].Plain?
    ensures !Removes(s.d, s.calls[a.w].m, s.calls[a.w].target)
  {
  }

  /** From rest: no call under way. */
  lemma {:induction false} ConcurrentRemovalsFromRest(d: Directory, run: seq<Action>)
    requires ActiveOwners(d) != {} && ShrinksOnly(d, run)
    ensures ActiveOwners(Exec(Sys(d, map[]), run).d) != {}
  {
    ConcurrentRemovalsKeepAnOwner(Sys(d, map[]), run);
  }

  // ---------- why promotions are excluded ----------

  /** One owner (1) and one employee (2). */
  function TwoMembers(first: RoleId, second: RoleId): Directory {
    Directory(map[0 := Role(OWNER, true, {}), 1 := Role(EMPLOYEE, true, {})],
              map[1 := Membership(1, first, ActiveMember), 2 := Membership(2, second, ActiveMember)],
              map[], map[], 3)
  }

  lemma {:induction false} OwnersOfTwo(first: RoleId, second: RoleId)
    ensures ActiveOwners(TwoMembers(first, second))
            == (if first == 0 then {1} else {}) + (if second == 0 then {2} else {})
  {
  }

  /** Call 1 reads member 2 as an employee; call 2 promotes member 2. */
  function Promoting(): seq<Action> {
    [PreRead(1, 2, ToRole(1)), PreRead(2, 2, ToRole(0)), Write(2)]
  }

  /** Call 3 demotes member 1 under the lock. */
  function Demoting(): seq<Action> {
    [PreRead(3, 1, ToRole(1)), TakeSnapshot(3)] + ([LockRow(3, 1), LockRow(3, 2)] + [Decide(3), Write(3)])
  }

  /** With a promotion in between, a stale pre-read loses the last owner: call 1 writes last. */
  lemma {:induction false} StalePreReadLosesOwner()
    ensures ActiveOwners(TwoMembers(0, 1)) == {1}
    ensures ActiveOwners(Exec(Sys(TwoMembers(0, 1), map[]), Promoting() + (Demoting() + [Write(1)])).d) == {}
  {
    OwnersOfTwo(0, 1);
    OwnersOfTwo(1, 1);
    Promotion();
    Demotion();
    LastWrite();
    hide ActiveOwners, Exec, Act, Promoting, Demoting;
    var start, middle := Sys(TwoMembers(0, 1), map[]), Sys(TwoMembers(0, 0), map[1 := Plain(2, ToRole(1))]);
    ExecApart(start, Promoting(), Demoting() + [Write(1)]);
    ExecApart(middle, Demoting(), [Write(1)]);
  }

  lemma {:induction false} LastWrite()
    ensures Exec(Sys(TwoMembers(1, 0), map[1 := Plain(2, ToRole(1))]), [Write(1)]).d == TwoMembers(1, 1)
  {
    assert [Write(1)][1..] == [];
    assert Act(Sys(TwoMembers(1, 0), map[1 := Plain(2, ToRole(1))]), Write(1)).d == TwoMembers(1, 1);
  }

  lemma {:induction false} ExecApart(s: Sys, first: seq<Action>, rest: seq<Action>)
    ensures Exec(s, first + rest) == Exec(Exec(s, first), rest)
    decreases |first|
  {
    if first == [] {
      assert first + rest == rest;
    } else {
      assert (first + rest)[1..] == first[1..] + rest;
      ExecApart(Act(s, first[0]), first[1..], rest);
    }
  }

  lemma {:induction false} Promotion()
    ensures Exec(Sys(TwoMembers(0, 1), map[]), Promoting())
            == Sys(TwoMembers(0, 0), map[1 := Plain(2, ToRole(1))])
  {
    var run := [PreRead(1, 2, ToRole(1)), PreRead(2, 2, ToRole(0)), Write(2)];
    assert run[1..] == [PreRead(2, 2, ToRole(0)), Write(2)] && run[1..][1..] == [Write(2)] && run[1..][1..][1..] == [];
    var s1 := Act(Sys(TwoMembers(0, 1), map[]), run[0]);
    assert s1 == Sys(TwoMembers(0, 1), map[1 := Plain(2, ToRole(1))]);
    var s2 := Act(s1, run[1]);
    assert s2 == Sys(TwoMembers(0, 1), map[1 := Plain(2, ToRole(1)), 2 := Plain(2, ToRole(0))]);
    assert Without(s2.calls, 2) == map[1 := Plain(2, ToRole(1))];
    assert Act(s2, run[2]) == Sys(TwoMembers(0, 0), map[1 := Plain(2, ToRole(1))]);
  }

  /** No other call holds a lock. */
  predicate LockFree(others: map<WorkerId, Pc>) {
    forall v :: v in others ==> Held(others[v]) == {}
  }

  lemma {:induction false} OpenStep(d: Directory, others: map<WorkerId, Pc>, w: WorkerId, m: MemberId, t: Target)
    requires w !in others && Exists(d, m, t) && NeedsLock(d, m, t)
    ensures Exec(Sys(d, others), [PreRead(w, m, t), TakeSnapshot(w)])
            == Sys(d, others[w := Locking(m, t, ActiveOwners(d), {})])
  {
    hide ActiveOwners, NeedsLock;
    ExecTwo(Sys(d, others), PreRead(w, m, t), TakeSnapshot(w));
    assert others[w := Opened(m, t)][w := Locking(m, t, ActiveOwners(d), {})]
           == others[w := Locking(m, t, ActiveOwners(d), {})];
  }

  lemma {:induction false} LockStep(d: Directory, others: map<WorkerId, Pc>, w: WorkerId, pc: Pc, row: MemberId)
    requires w !in others && LockFree(others) && pc.Locking? && row in pc.todo && row in ActiveOwners(d)
    ensures Act(Sys(d, others[w := pc]), LockRow(w, row))
            == Sys(d, others[w := Locking(pc.m, pc.target, pc.todo - {row}, pc.counted + {row})])
  {
    hide ActiveOwners;
    var next := Locking(pc.m, pc.target, pc.todo - {row}, pc.counted + {row});
    assert others[w := pc][w := next] == others[w := next];
  }

  lemma {:induction false} CommitStep(d: Directory, others: map<WorkerId, Pc>, w: WorkerId, m: MemberId, t: Target,
                                      counted: set<MemberId>)
    requires w !in others && LockFree(others) && Exists(d, m, t) && |counted| >= 2
    ensures Exec(Sys(d, others[w := Locking(m, t, {}, counted)]), [Decide(w), Write(w)]) == Sys(Apply(d, m, t), others)
  {
    hide ActiveOwners, Apply;
    ExecTwo(Sys(d, others[w := Locking(m, t, {}, counted)]), Decide(w), Write(w));
    assert others[w := Locking(m, t, {}, counted)][w := Ready(m, t, counted)] == others[w := Ready(m, t, counted)];
    assert Without(others[w := Ready(m, t, counted)], w) == others;
  }

  lemma {:induction false} ExecTwo(s: Sys, a: Action, b: Action)
    ensures Exec(s, [a, b]) == Act(Act(s, a), b)
  {
    hide Act;
    assert [a, b][1..] == [b] && [b][1..] == [];
    assert Exec(Act(s, a), [b]) == Act(Act(s, a), b);
  }

  lemma {:induction false} Demotion()
    ensures Exec(Sys(TwoMembers(0, 0), map[1 := Plain(2, ToRole(1))]), Demoting())
            == Sys(TwoMembers(1, 0), map[1 := Plain(2, ToRole(1))])
  {
    OwnersOfTwo(0, 0);
    assert Apply(TwoMembers(0, 0), 1, ToRole(1)) == TwoMembers(1, 0);
    hide ActiveOwners, TwoMembers, Apply, NeedsLock;
    DemotionUnderLock(TwoMembers(0, 0), map[1 := Plain(2, ToRole(1))]) by {
      assert NeedsLock(TwoMembers(0, 0), 1, ToRole(1));
    }
  }

  /** Where members 1 and 2 are the active owners, the demotion of member 1 goes through. */
  lemma {:induction false} DemotionUnderLock(d: Directory, others: map<WorkerId, Pc>)
    requires 3 !in others && LockFree(others) && Exists(d, 1, ToRole(1)) && NeedsLock(d, 1, ToRole(1))
             && ActiveOwners(d) == {1} + {2}
    ensures Exec(Sys(d, others), Demoting()) == Sys(Apply(d, 1, ToRole(1)), others)
  {
    hide Exec, Act, ActiveOwners, Apply, NeedsLock, Exists;
    var t, both: set<MemberId> := ToRole(1), {1} + {2};
    assert both - {1} == {2} && {2} - {2} == {} && {} + {1} == {1} && |both| == 2;
    var s0, s2 := Sys(d, others), Sys(d, others[3 := Locking(1, t, both, {})]);
    var s4 := Sys(d, others[3 := Locking(1, t, {}, both)]);
    var opening, locking, closing := [PreRead(3, 1, t), TakeSnapshot(3)], [LockRow(3, 1), LockRow(3, 2)],
        [Decide(3), Write(3)];
    OpenStep(d, others, 3, 1, t);
    LockStep(d, others, 3, Locking(1, t, both, {}), 1);
    LockStep(d, others, 3, Locking(1, t, {2}, {1}), 2);
    ExecTwo(s2, LockRow(3, 1), LockRow(3, 2));
    assert Exec(s2, locking) == s4;
    CommitStep(d, others, 3, 1, t, both);
    ExecApart(s0, opening, locking + closing);
    ExecApart(s2, locking, closing);
    assert Demoting() == opening + (locking + closing);
  }
}
