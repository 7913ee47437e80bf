/** Reservation calls interleaved statement by statement: every call reads its row, some check for overlaps,
    and the write that follows has no status guard; only the table's constraints decide it. */
module ReservationRaces {
  import opened Schema
  import opened Reservations
  import opened ReservationTheorems

  /** The statement a call is about to make. */
  datatype Write = Insert(row: Reservation) | Patch(id: ReservationId, changes: UpdateDto) | Move(id: ReservationId,
    status: Status)

  /** Where a call stands: before its overlap query, before its write, or answered. */
  datatype Pc =
    | Checking(write: Write, equipmentId: EquipmentId, startAt: Instant, endAt: Instant, exclude: Option<ReservationId>)
    | Ready(write: Write)
    | Answered(reply: Reply)

  datatype Sys = Sys(book: Book, calls: map<nat, Pc>)

  // ---------- the table's constraints ----------

  /** CHECK (endAt > startAt), and the exclusion constraint on holding rows. */
  ghost predicate Constraint(rows: map<ReservationId, Reservation>) {
    && (forall i :: i in rows ==> rows[i].startAt < rows[i].endAt)
    && (forall i, j :: i in rows && j in rows && i != j && Holding(rows[i]) ==>
          !Conflicts(rows, j, rows[i].equipmentId, rows[i].startAt, rows[i].endAt))
  }

  /** The constraints are calendar safety: no instant of any equipment has two holders. */
  lemma {:induction false} ConstraintIsSafety(b: Book)
    ensures Safe(b) <==> Constraint(b.rows) && forall id :: id in b.rows ==> id < b.nextId
  {
    hide Conflicts;
    if Safe(b) {
      forall i, j | i in b.rows && j in b.rows && i != j && Holding(b.rows[i])
        ensures !Conflicts(b.rows, j, b.rows[i].equipmentId, b.rows[i].startAt, b.rows[i].endAt)
      {
        var r := b.rows[i];
        forall t | r.startAt <= t < r.endAt
          ensures !HeldBy(b, j, r.equipmentId, t)
        {
          assert HeldBy(b, i, r.equipmentId, t);
        }
        IntersectsIffShared(b, j, r.equipmentId, r.startAt, r.endAt);
      }
    }
    if Constraint(b.rows) && forall id :: id in b.rows ==> id < b.nextId {
      forall i, j, e, t | HeldBy(b, i, e, t) && HeldBy(b, j, e, t)
        ensures i == j
      {
        if i != j { IntersectsIffShared(b, j, e, b.rows[i].startAt, b.rows[i].endAt); }
      }
    }
  }

  // ---------- the statements of a call ----------

  /** The reads and checks before the overlap query. */
  function Opened(b: Book, call: Call): Pc {
    match call
    case Create(dto) =>
      if dto.customerId !in b.customers then Answered(Refused(CustomerUnknown))
      else if dto.equipmentId !in b.equipment then Answered(Refused(EquipmentUnknown))
      else if dto.startAt.Garbled? || dto.endAt.Garbled? then Answered(Refused(BadTimestamp))
      else if !(dto.startAt.t < dto.endAt.t) then Answered(Refused(EmptyRange))
      else Checking(Insert(NewReservation(dto)), dto.equipmentId, dto.startAt.t, dto.endAt.t, None)
    case Update(id, dto) =>
      if id !in b.rows then Answered(Refused(ReservationUnknown))
      else if b.rows[id].status != Reserved then Answered(Refused(NotMutable))
      else
        var startAt, endAt := Merged(dto.startAt, b.rows[id].startAt), Merged(dto.endAt, b.rows[id].endAt);
        if startAt.Garbled? || endAt.Garbled? then Answered(Refused(BadTimestamp))
        else if !(startAt.t < endAt.t) then Answered(Refused(EmptyRange))
        else if dto.startAt.Some? || dto.endAt.Some? then
          Checking(Patch(id, dto), b.rows[id].equipmentId, startAt.t, endAt.t, Some(id))
        else Ready(Patch(id, dto))
    case Start(id) => if StartRefusal(b, id).Some? then Answered(Refused(StartRefusal(b, id).value))
      else Ready(Move(id, Active))
    case Complete(id) =>
      if CompleteRefusal(b, id).Some? then Answered(Refused(CompleteRefusal(b, id).value))
        else Ready(Move(id, Completed))
    case Cancel(id) =>
      if CancelRefusal(b, id).Some? then Answered(Refused(CancelRefusal(b, id).value)) else Ready(Move(id, Cancelled))
    case Tick(_) => Answered(Done(0))
  }

  predicate Writable(b: Book, write: Write) {
    match write
    case Insert(row) => row.status == Reserved
    case Patch(id, dto) =>
      id in b.rows && (dto.startAt.Some? ==> dto.startAt.value.At?) && (dto.endAt.Some? ==> dto.endAt.value.At?)
    case Move(id, status) => id in b.rows && status != Reserved
  }

  /** The book if the write is accepted. */
  function Written(b: Book, write: Write): Book
    requires Writable(b, write)
  {
    match write
    case Insert(row) => b.(rows := b.rows[b.nextId := row], nextId := b.nextId + 1)
    case Patch(id, dto) => b.(rows := b.rows[id := Patched(b.rows[id], dto)])
    case Move(id, status) =>
      var moved := WithStatus(b, id, status);
      if status == Active then moved.(startedAt := b.startedAt[id := b.now])
      else if status == Completed then moved.(completedAt := b.completedAt[id := b.now])
      else moved
  }

  function Target(b: Book, write: Write): ReservationId {
    match write case Insert(_) => b.nextId case Patch(id, _) => id case Move(id, _) => id
  }

  ghost predicate Accepted(b: Book, write: Write) {
    Writable(b, write) && Constraint(Written(b, write).rows)
  }

  /** The call's next statement. */
  ghost function Step(s: Sys, w: nat): Sys
    requires w in s.calls
  {
    match s.calls[w]
    case Checking(write, equipmentId, startAt, endAt, exclude) =>
      s.(calls := s.calls[w := if Overlapping(s.book.rows, equipmentId, startAt, endAt, exclude)
                               then Answered(Refused(OverlapConflict)) else Ready(write)])
    case Ready(write) =>
      if Accepted(s.book, write) then
        Sys(Written(s.book, write), s.calls[w := Answered(Done(Target(s.book, write)))])
      else s.(calls := s.calls[w := Answered(Refused(OverlapConflict))])
    case Answered(_) => s
  }

  datatype Action = Open(w: nat, call: Call) | Advance(w: nat) | Wait(ms: nat)

  ghost function Act(s: Sys, a: Action): Sys {
    match a
    case Open(w, call) => if w in s.calls then s else s.(calls := s.calls[w := Opened(s.book, call)])
    case Advance(w) => if w in s.calls then Step(s, w) else s
    case Wait(ms) => s.(book := s.book.(now := s.book.now + ms))
  }

  ghost function Exec(s: Sys, acts: seq<Action>): Sys {
    if acts == [] then s else Act(Exec(s, acts[..|acts| - 1]), acts[|acts| - 1])
  }

  // ---------- one holder per instant, whatever interleaves ----------

  predicate PcOk(b: Book, pc: Pc) {
    match pc
    case Checking(write, _, _, _, _) => Writable(b, write) && !write.Move?
    case Ready(write) => Writable(b, write)
    case Answered(_) => true
  }

  ghost predicate Inv(s: Sys) {
    && Safe(s.book)
    && forall w :: w in s.calls ==> PcOk(s.book, s.calls[w])
  }

  ghost predicate InitSys(s: Sys) { Init(s.book) && s.calls == map[] }

  ghost predicate Reachable(s: Sys) {
    exists s0: Sys, acts: seq<Action> :: InitSys(s0) && Exec(s0, acts) == s
  }

  lemma {:induction false} OpenedOk(b: Book, call: Call)
    ensures PcOk(b, Opened(b, call))
  {
  }

  /** Rows stay, so a pending write stays possible. */
  lemma {:induction false} PcStays(b: Book, b': Book, pc: Pc)
    requires PcOk(b, pc) && forall id :: id in b.rows ==> id in b'.rows
    ensures PcOk(b', pc)
  {
  }

  lemma {:induction false} WrittenSafe(b: Book, write: Write)
    requires Safe(b) && Accepted(b, write)
    ensures Safe(Written(b, write)) && forall id :: id in b.rows ==> id in Written(b, write).rows
  {
    ConstraintIsSafety(b);
    ConstraintIsSafety(Written(b, write));
    hide Safe, Constraint;
  }

  lemma {:induction false} ActInv(s: Sys, a: Action)
    requires Inv(s)
    ensures Inv(Act(s, a))
  {
    hide Safe, PcOk, Written, Opened, Overlapping, Accepted;
    var s' := Act(s, a);
    match a
    case Open(w, call) => OpenedOk(s.book, call);
    case Wait(ms) =>
      SameRowsSafe(s.book, s'.book);
      forall w | w in s.calls { PcStays(s.book, s'.book, s.calls[w]); }
    case Advance(w) =>
      if w in s.calls {
        StepPcs(s, w);
        if s.calls[w].Ready? && Accepted(s.book, s.calls[w].write) {
          WrittenSafe(s.book, s.calls[w].write);
          forall v | v in s.calls { PcStays(s.book, s'.book, s.calls[v]); }
        }
      }
  }

  lemma {:induction false} StepPcs(s: Sys, w: nat)
    requires w in s.calls && PcOk(s.book, s.calls[w])
    ensures s.calls[w].Checking? ==> PcOk(s.book, Ready(s.calls[w].write))
    ensures forall b, reply :: PcOk(b, Answered(reply))
  {
  }

  lemma {:induction false} ExecInv(s: Sys, acts: seq<Action>)
    requires Inv(s)
    ensures Inv(Exec(s, acts))
  {
    hide Inv, Act;
    if acts != [] {
      ExecInv(s, acts[..|acts| - 1]);
      ActInv(Exec(s, acts[..|acts| - 1]), acts[|acts| - 1]);
    }
  }

  lemma {:induction false} ReachableInv(s: Sys)
    requires Reachable(s)
    ensures Inv(s)
  {
    var s0: Sys, acts: seq<Action> :| InitSys(s0) && Exec(s0, acts) == s;
    ExecInv(s0, acts);
  }

  /** Under every interleaving no instant of any equipment has two holders. */
  lemma {:induction false} OneHolderAlways(s: Sys, i: ReservationId, j: ReservationId, e: EquipmentId, t: Instant)
    requires Reachable(s) && HeldBy(s.book, i, e, t) && HeldBy(s.book, j, e, t)
    ensures i == j
  {
    ReachableInv(s);
  }

  // ---------- a call alone ----------

  /** Open, and two more statements. */
  ghost function Alone(s: Sys, w: nat, call: Call): Sys {
    Act(Act(Act(s, Open(w, call)), Advance(w)), Advance(w))
  }

  lemma {:induction false} CreateAlone(b: Book, dto: CreateDto)
    requires Safe(b) && CreateRefusal(b, dto).None?
    ensures Accepted(b, Insert(NewReservation(dto)))
  {
    DoSafe(b, Create(dto));
    ConstraintIsSafety(Do(b, Create(dto)));
  }

  lemma {:induction false} UpdateAlone(b: Book, id: ReservationId, dto: UpdateDto)
    requires Safe(b) && UpdateRefusal(b, id, dto).None?
    ensures Accepted(b, Patch(id, dto))
  {
    DoSafe(b, Update(id, dto));
    ConstraintIsSafety(Do(b, Update(id, dto)));
  }

  lemma {:induction false} MoveAlone(b: Book, id: ReservationId, status: Status)
    requires Safe(b) && id in b.rows && status != Reserved && (status == Active ==> b.rows[id].status == Reserved)
    ensures Accepted(b, Move(id, status))
  {
    StatusKeepsSafe(b, id, status);
    ConstraintIsSafety(WithStatus(b, id, status));
  }

  /** A call whose statements nothing interrupts is the sequential call: same rows, same answer. */
  lemma {:induction false} AloneIsDo(s: Sys, w: nat, call: Call)
    requires Inv(s) && w !in s.calls && !call.Tick?
    ensures Alone(s, w, call) == Sys(Do(s.book, call), s.calls[w := Answered(ReplyOf(s.book, call))])
  {
    hide Safe, Overlapping, Constraint;
    match call
    case Create(dto) => if CreateRefusal(s.book, dto).None? { CreateAlone(s.book, dto); }
    case Update(id, dto) => if UpdateRefusal(s.book, id, dto).None? { UpdateAlone(s.book, id, dto); }
    case Start(id) => if StartRefusal(s.book, id).None? { MoveAlone(s.book, id, Active); }
    case Complete(id) => if CompleteRefusal(s.book, id).None? { MoveAlone(s.book, id, Completed); }
    case Cancel(id) => if CancelRefusal(s.book, id).None? { MoveAlone(s.book, id, Cancelled); }
  }

  // ---------- what a missing status guard costs ----------

  /** A start or a completion of the row that has already read it. */
  ghost predicate Reviving(s: Sys, w: nat, id: ReservationId) {
    w in s.calls && s.calls[w].Ready? && s.calls[w].write.Move? && s.calls[w].write.id == id
    && s.calls[w].write.status != Cancelled
  }

  /** Cancelled, with nothing in flight that would overwrite it. */
  ghost predicate Buried(s: Sys, id: ReservationId) {
    id in s.book.rows && s.book.rows[id].status == Cancelled && !exists w :: Reviving(s, w, id)
  }

  lemma {:induction false} BuriedStays(s: Sys, a: Action, id: ReservationId)
    requires Inv(s) && Buried(s, id)
    ensures Buried(Act(s, a), id)
  {
    hide Overlapping, Constraint;
    var s' := Act(s, a);
    assert id < s.book.nextId;
    assert a.Advance? ==> !Reviving(s, a.w, id);
    assert id in s'.book.rows && s'.book.rows[id].status == Cancelled;
    forall w | w in s'.calls
      ensures !Reviving(s', w, id)
    {
      assert !Reviving(s, w, id);
    }
  }

  lemma {:induction false} BuriedForever(s: Sys, acts: seq<Action>, id: ReservationId)
    requires Inv(s) && Buried(s, id)
    ensures Buried(Exec(s, acts), id)
  {
    hide Act, Inv, Buried;
    if acts != [] {
      BuriedForever(s, acts[..|acts| - 1], id);
      ExecInv(s, acts[..|acts| - 1]);
      BuriedStays(Exec(s, acts[..|acts| - 1]), acts[|acts| - 1], id);
    }
  }

  lemma {:induction false} ExecConcat(s: Sys, a: seq<Action>, b: seq<Action>)
    ensures Exec(s, a + b) == Exec(Exec(s, a), b)
  {
    hide Act;
    if b == [] {
      assert a + b == a;
    } else {
      var n := |b| - 1;
      ExecConcat(s, a, b[..n]);
      assert (a + b)[..|a + b| - 1] == a + b[..n];
    }
  }

  lemma {:induction false} ExecTwo(s: Sys, a: Action, b: Action)
    ensures Exec(s, [a, b]) == Act(Act(s, a), b)
  {
    hide Act;
    assert [a, b][..1] == [a] && [a][..0] == [];
    assert Exec(s, [a]) == Act(Exec(s, []), a);
  }

  lemma {:induction false} FreshCall(used: set<nat>) returns (n: nat)
    ensures n !in used && forall x :: x in used ==> x < n
  {
    if used == {} {
      n := 0;
    } else {
      var x :| x in used;
      var m := FreshCall(used - {x});
      assert forall y :: y in used ==> y == x || y in used - {x};
      n := if x < m then m else x + 1;
    }
  }

  /** The rows other than `id` that hold equipment. */
  ghost function Holders(s: Sys, id: ReservationId): set<ReservationId> {
    set j | j in s.book.rows && j != id && Holding(s.book.rows[j])
  }

  /** Calls in flight and the row stay as they are. */
  ghost predicate Undisturbed(s: Sys, t: Sys, id: ReservationId) {
    && id in s.book.rows && id in t.book.rows && t.book.rows[id] == s.book.rows[id]
    && forall w :: w in s.calls ==> w in t.calls && t.calls[w] == s.calls[w]
  }

  /** One holder cancels. */
  lemma {:induction false} CancelOne(s: Sys, id: ReservationId, j: ReservationId) returns (acts: seq<Action>)
    requires Inv(s) && id in s.book.rows && j in Holders(s, id)
    ensures Undisturbed(s, Exec(s, acts), id) && Holders(Exec(s, acts), id) == Holders(s, id) - {j}
  {
    var w := FreshCall(s.calls.Keys);
    acts := [Open(w, Cancel(j)), Advance(w)];
    ExecTwo(s, acts[0], acts[1]);
    MoveAlone(s.book, j, Cancelled);
    hide Safe, Constraint;
    assert Act(s, acts[0]) == s.(calls := s.calls[w := Ready(Move(j, Cancelled))]);
    assert Exec(s, acts).book == WithStatus(s.book, j, Cancelled);
  }

  /** All other holders can cancel, whatever is in flight. */
  lemma {:induction false} CancelAll(s: Sys, id: ReservationId) returns (acts: seq<Action>)
    requires Inv(s) && id in s.book.rows
    ensures Undisturbed(s, Exec(s, acts), id) && Holders(Exec(s, acts), id) == {}
    decreases Holders(s, id)
  {
    hide Act, Inv, Holders;
    acts := [];
    assert Exec(s, acts) == s;
    if Holders(s, id) != {} {
      var j :| j in Holders(s, id);
      var first := CancelOne(s, id, j);
      ExecInv(s, first);
      var rest := CancelAll(Exec(s, first), id);
      acts := first + rest;
      ExecConcat(s, first, rest);
    }
  }

  /** With no other holder a pending start or completion is accepted. */
  lemma {:induction false} Revive(s: Sys, w: nat, id: ReservationId)
    requires Inv(s) && Reviving(s, w, id) && id in s.book.rows && Holders(s, id) == {}
    ensures var t := Act(s, Advance(w));
            id in t.book.rows && t.book.rows[id].status == s.calls[w].write.status
              && t.book.rows[id].status != Cancelled
  {
    ConstraintIsSafety(s.book);
    hide Safe;
    var write := s.calls[w].write;
    assert PcOk(s.book, s.calls[w]);
    var rows := Written(s.book, write).rows;
    forall i, j | i in rows && j in rows && i != j && Holding(rows[i])
      ensures !Conflicts(rows, j, rows[i].equipmentId, rows[i].startAt, rows[i].endAt)
    {
      assert i == id || i in Holders(s, id);
      assert j == id || !Holding(rows[j]) || j in Holders(s, id);
    }
  }

  /** A cancelled row stays cancelled under every continuation if and only if no start or completion of it is
      past its read. */
  lemma {:induction false} CancelledForeverIff(s: Sys, id: ReservationId)
    requires Reachable(s) && id in s.book.rows && s.book.rows[id].status == Cancelled
    ensures (forall acts: seq<Action> :: var t := Exec(s, acts);
               id in t.book.rows && t.book.rows[id].status == Cancelled)
            <==> !exists w :: Reviving(s, w, id)
  {
    ReachableInv(s);
    hide Inv, Act, Holders;
    if w :| Reviving(s, w, id) {
      var clearing := CancelAll(s, id);
      var t := Exec(s, clearing);
      ExecInv(s, clearing);
      assert Reviving(t, w, id);
      Revive(t, w, id);
      assert [Advance(w)][..0] == [] && Exec(t, []) == t;
      assert Exec(t, [Advance(w)]) == Act(t, Advance(w));
      ExecConcat(s, clearing, [Advance(w)]);
      assert Exec(s, clearing + [Advance(w)]).book.rows[id].status != Cancelled;
    } else {
      forall acts: seq<Action>
        ensures var t := Exec(s, acts); id in t.book.rows && t.book.rows[id].status == Cancelled
      {
        BuriedForever(s, acts, id);
      }
    }
  }

  // ---------- a run in which it happens ----------

  /** An empty book with one piece of equipment and one customer. */
  function Desk(): Sys { Sys(Book(map[], 0, {1}, {1}, 5, map[], map[]), map[]) }

  const BOOKING: Call := Create(CreateDto(1, 1, At(0), At(10), None))

  function Statements(w: nat, call: Call): seq<Action> { [Open(w, call), Advance(w), Advance(w)] }

  lemma {:induction false} ExecAlone(s: Sys, w: nat, call: Call)
    ensures Exec(s, Statements(w, call)) == Alone(s, w, call)
  {
    hide Act;
    ExecConcat(s, [Open(w, call), Advance(w)], [Advance(w)]);
    assert Statements(w, call) == [Open(w, call), Advance(w)] + [Advance(w)];
    ExecTwo(s, Open(w, call), Advance(w));
    ExecOne(Exec(s, [Open(w, call), Advance(w)]), Advance(w));
  }

  lemma {:induction false} ExecOne(s: Sys, a: Action)
    ensures Exec(s, [a]) == Act(s, a)
  {
    hide Act;
    assert [a][..0] == [] && Exec(s, [a][..0]) == s;
  }

  /** The reserved row, and the book once it is cancelled. */
  function Booked(status: Status): Book {
    Book(map[0 := Reservation(1, 1, 0, 10, status, None)], 1, {1}, {1}, 5, map[], map[])
  }

  /** Booking, a start that has read the row, and a whole cancellation. */
  lemma {:induction false} CancelledRun() returns (acts: seq<Action>)
    ensures Exec(Desk(), acts).book == Booked(Cancelled)
    ensures var calls := Exec(Desk(), acts).calls;
            1 in calls && calls[1] == Ready(Move(0, Active)) && 2 in calls && calls[2] == Answered(Done(0))
    ensures Inv(Exec(Desk(), acts))
  {
    var first, second, third := Statements(0, BOOKING), [Open(1, Start(0))], Statements(2, Cancel(0));
    DeskFacts();
    hide Do, ReplyOf, Opened, Inv, Exec, Alone, Desk, Booked;
    AloneIsDo(Desk(), 0, BOOKING);
    ExecAlone(Desk(), 0, BOOKING);
    var s := Exec(Desk(), first);
    ExecInv(Desk(), first);
    ExecOne(s, Open(1, Start(0)));
    var t := Exec(s, second);
    ExecInv(s, second);
    AloneIsDo(t, 2, Cancel(0));
    ExecAlone(t, 2, Cancel(0));
    ExecInv(t, third);
    acts := first + (second + third);
    ExecConcat(Desk(), first, second + third);
    ExecConcat(s, second, third);
  }

  lemma {:induction false} DeskFacts()
    ensures Inv(Desk()) && Desk().calls == map[]
    ensures Do(Desk().book, BOOKING) == Booked(Reserved)
    ensures Opened(Booked(Reserved), Start(0)) == Ready(Move(0, Active))
    ensures Do(Booked(Reserved), Cancel(0)) == Booked(Cancelled) && ReplyOf(Booked(Reserved), Cancel(0)) == Done(0)
  {
  }

  /** A reservation is made, its start reads it, a cancellation runs to its end, and the start's write makes the
      cancelled reservation ACTIVE; both calls have answered that they are done. */
  lemma {:induction false} StartOverwritesCancellation() returns (acts: seq<Action>)
    ensures InitSys(Desk()) && Exec(Desk(), acts).book == Booked(Cancelled)
    ensures var t := Exec(Desk(), acts + [Advance(1)]);
            && t.book.rows == Booked(Active).rows
            && 1 in t.calls && t.calls[1] == Answered(Done(0)) && 2 in t.calls && t.calls[2] == Answered(Done(0))
  {
    acts := CancelledRun();
    var s := Exec(Desk(), acts);
    ExecConcat(Desk(), acts, [Advance(1)]);
    ExecOne(s, Advance(1));
    hide Exec;
    var rows := Written(s.book, Move(0, Active)).rows;
    assert Constraint(rows);
  }
}
