/** Whole-run guarantees of the reservation book: no instant of a piece of equipment is held twice,
    and the lifecycle respects the clock. */
module ReservationTheorems {
  import opened Schema
  import opened Reservations

  /** Reservation `id` holds the equipment at instant `t`. */
  predicate HeldBy(b: Book, id: ReservationId, equipmentId: EquipmentId, t: Instant) {
    && id in b.rows && b.rows[id].equipmentId == equipmentId && Holding(b.rows[id])
    && b.rows[id].startAt <= t < b.rows[id].endAt
  }

  /** Half-open calendar safety: every interval is non-empty and no instant has two holders. */
  ghost predicate Safe(b: Book) {
    && (forall id :: id in b.rows ==> id < b.nextId && b.rows[id].startAt < b.rows[id].endAt)
    && (forall i, j, e, t :: HeldBy(b, i, e, t) && HeldBy(b, j, e, t) ==> i == j)
  }

  /** The recorded moments of a row respect its interval as it stands now, and its status matches
      them: started at or after startAt, completed at or after endAt. */
  predicate RowClocked(b: Book, id: ReservationId) {
    && (id in b.startedAt ==>
          id in b.rows && b.rows[id].status != Reserved && b.rows[id].startAt <= b.startedAt[id] <= b.now)
    && (id in b.completedAt ==>
          && id in b.startedAt && id in b.rows && (b.rows[id].status == Completed || b.rows[id].status == Cancelled)
          && b.rows[id].endAt <= b.completedAt[id] <= b.now && b.startedAt[id] <= b.completedAt[id])
    && (id in b.rows && (b.rows[id].status == Active || b.rows[id].status == Completed) ==> id in b.startedAt)
    && (id in b.rows && b.rows[id].status == Completed ==> id in b.completedAt)
  }

  ghost predicate Clocked(b: Book) {
    forall id: ReservationId :: RowClocked(b, id)
  }

  ghost predicate Init(b: Book) {
    b.rows == map[] && b.startedAt == map[] && b.completedAt == map[]
  }

  // ---------- the overlap query speaks about instants ----------

  lemma {:induction false} IntersectsIffShared(b: Book, id: ReservationId, equipmentId: EquipmentId, startAt: Instant,
                                               endAt: Instant)
    requires id in b.rows && b.rows[id].startAt < b.rows[id].endAt && startAt < endAt
    ensures Conflicts(b.rows, id, equipmentId, startAt, endAt)
            <==> exists t :: startAt <= t < endAt && HeldBy(b, id, equipmentId, t)
  {
    if Conflicts(b.rows, id, equipmentId, startAt, endAt) {
      var t := if b.rows[id].startAt > startAt then b.rows[id].startAt else startAt;
      assert startAt <= t < endAt && HeldBy(b, id, equipmentId, t);
    }
  }

  lemma {:induction false} OverlappingIffHeld(b: Book, equipmentId: EquipmentId, startAt: Instant, endAt: Instant,
                                              exclude: Option<ReservationId>)
    requires Safe(b) && startAt < endAt
    ensures Overlapping(b.rows, equipmentId, startAt, endAt, exclude)
            <==> exists id: ReservationId, t ::
                   exclude != Some(id) && startAt <= t < endAt && HeldBy(b, id, equipmentId, t)
  {
    hide Conflicts;
    forall id | id in b.rows {
      IntersectsIffShared(b, id, equipmentId, startAt, endAt);
    }
    if id: ReservationId, t :| exclude != Some(id) && startAt <= t < endAt && HeldBy(b, id, equipmentId, t) {
      assert Conflicts(b.rows, id, equipmentId, startAt, endAt);
    }
  }

  /** Creation is refused for overlap exactly when some instant of the window is already held. */
  lemma {:induction false} CreateOverlapIff(b: Book, dto: CreateDto)
    requires Safe(b) && dto.customerId in b.customers && dto.equipmentId in b.equipment
    requires dto.startAt.At? && dto.endAt.At? && dto.startAt.t < dto.endAt.t
    ensures CreateRefusal(b, dto) == Some(OverlapConflict)
            <==> exists id, t :: dto.startAt.t <= t < dto.endAt.t && HeldBy(b, id, dto.equipmentId, t)
    ensures CreateRefusal(b, dto).None?
            <==> forall id, t :: dto.startAt.t <= t < dto.endAt.t ==> !HeldBy(b, id, dto.equipmentId, t)
  {
    OverlappingIffHeld(b, dto.equipmentId, dto.startAt.t, dto.endAt.t, None);
  }

  /** An update is refused for overlap exactly when it touches the times and somebody else holds an
      instant of the merged window; an update of the notes alone never is. */
  lemma {:induction false} UpdateOverlapIff(b: Book, id: ReservationId, dto: UpdateDto)
    requires Safe(b) && id in b.rows && b.rows[id].status == Reserved
    requires var s, e := Merged(dto.startAt, b.rows[id].startAt), Merged(dto.endAt, b.rows[id].endAt);
             s.At? && e.At? && s.t < e.t
    ensures var s, e := Merged(dto.startAt, b.rows[id].startAt), Merged(dto.endAt, b.rows[id].endAt);
            UpdateRefusal(b, id, dto) == Some(OverlapConflict)
            <==> exists other, t :: other != id && s.t <= t < e.t && HeldBy(b, other, b.rows[id].equipmentId, t)
  {
    var r := b.rows[id];
    var s, e := Merged(dto.startAt, r.startAt).t, Merged(dto.endAt, r.endAt).t;
    OverlappingIffHeld(b, r.equipmentId, s, e, Some(id));
    if other, t :| && other != id && s <= t < e && HeldBy(b, other, r.equipmentId, t)
                   && dto.startAt.None? && dto.endAt.None? {
      assert HeldBy(b, id, r.equipmentId, t);
    }
  }

  // ---------- one call ----------

  /** A new or moved window whose instants nobody else holds keeps the calendar safe. */
  lemma {:induction false} PutKeepsSafe(b: Book, id: ReservationId, r: Reservation, nextId: ReservationId)
    requires Safe(b) && r.startAt < r.endAt && id < nextId && b.nextId <= nextId
    requires Holding(r) ==> forall other, t :: other != id && r.startAt <= t < r.endAt ==>
               !HeldBy(b, other, r.equipmentId, t)
    ensures Safe(b.(rows := b.rows[id := r], nextId := nextId))
  {
    var b' := b.(rows := b.rows[id := r], nextId := nextId);
    forall i, j, e, t | HeldBy(b', i, e, t) && HeldBy(b', j, e, t)
      ensures i == j
    {
      assert i != id ==> HeldBy(b, i, e, t);
      assert j != id ==> HeldBy(b, j, e, t);
    }
  }

  /** The holder of every instant stays its holder, or the instant becomes free. */
  lemma {:induction false} StatusKeepsSafe(b: Book, id: ReservationId, status: Status)
    requires Safe(b) && id in b.rows && (status == Active ==> b.rows[id].status == Reserved) && status != Reserved
    ensures Safe(WithStatus(b, id, status))
  {
    var r := b.rows[id].(status := status);
    forall other, t | other != id && Holding(r) && r.startAt <= t < r.endAt
      ensures !HeldBy(b, other, r.equipmentId, t)
    {
      assert HeldBy(b, id, r.equipmentId, t);
    }
    PutKeepsSafe(b, id, r, b.nextId);
    assert WithStatus(b, id, status) == b.(rows := b.rows[id := r], nextId := b.nextId);
  }

  lemma {:induction false} SameRowsSafe(b: Book, b': Book)
    requires Safe(b) && b'.rows == b.rows && b'.nextId == b.nextId
    ensures Safe(b')
  {
    forall i, j, e, t | HeldBy(b', i, e, t) && HeldBy(b', j, e, t)
      ensures i == j
    {
      assert HeldBy(b, i, e, t) && HeldBy(b, j, e, t);
    }
  }

  lemma {:induction false} DoSafe(b: Book, call: Call)
    requires Safe(b)
    ensures Safe(Do(b, call))
  {
    hide Safe, HeldBy;
    if RefusalOf(b, call).None? {
      match call
      case Create(dto) =>
        CreateSafe(b, dto);
      case Update(id, dto) =>
        UpdateSafe(b, id, dto);
      case Start(id) =>
        StatusKeepsSafe(b, id, Active);
        SameRowsSafe(WithStatus(b, id, Active), Do(b, call));
      case Complete(id) =>
        StatusKeepsSafe(b, id, Completed);
        SameRowsSafe(WithStatus(b, id, Completed), Do(b, call));
      case Cancel(id) =>
        StatusKeepsSafe(b, id, Cancelled);
      case Tick(_) =>
        SameRowsSafe(b, Do(b, call));
    }
  }

  lemma {:induction false} CreateSafe(b: Book, dto: CreateDto)
    requires Safe(b) && CreateRefusal(b, dto).None?
    ensures Safe(Do(b, Create(dto)))
  {
    CreateOverlapIff(b, dto);
    PutKeepsSafe(b, b.nextId, NewReservation(dto), b.nextId + 1);
  }

  lemma {:induction false} UpdateSafe(b: Book, id: ReservationId, dto: UpdateDto)
    requires Safe(b) && UpdateRefusal(b, id, dto).None?
    ensures Safe(Do(b, Update(id, dto)))
  {
    UpdateOverlapIff(b, id, dto);
    PutKeepsSafe(b, id, Patched(b.rows[id], dto), b.nextId);
  }

  lemma {:induction false} RowStaysClocked(b: Book, call: Call, id: ReservationId)
    requires Safe(b) && RowClocked(b, id)
    ensures RowClocked(Do(b, call), id)
  {
    hide Overlapping, HeldBy, Merged;
  }

  lemma {:induction false} DoClocked(b: Book, call: Call)
    requires Safe(b) && Clocked(b)
    ensures Clocked(Do(b, call))
  {
    hide RowClocked, Safe, Do;
    forall id: ReservationId {
      RowStaysClocked(b, call, id);
    }
  }

  /** What later calls leave alone in a row: its links, a started interval, the recorded moments, and
      everything once it is cancelled. */
  predicate RowFrozen(b: Book, b': Book, id: ReservationId) {
    && (id in b.rows ==>
          && id in b'.rows && b'.rows[id].equipmentId == b.rows[id].equipmentId
          && b'.rows[id].customerId == b.rows[id].customerId
          && (b.rows[id].status == Cancelled ==> b'.rows[id] == b.rows[id]))
    && (id in b.startedAt ==>
          && id in b.rows && id in b'.rows && id in b'.startedAt && b'.startedAt[id] == b.startedAt[id]
          && b'.rows[id].startAt == b.rows[id].startAt && b'.rows[id].endAt == b.rows[id].endAt)
    && (id in b.completedAt ==> id in b'.completedAt && b'.completedAt[id] == b.completedAt[id])
  }

  ghost predicate Frozen(b: Book, b': Book) {
    b.now <= b'.now && forall id: ReservationId :: RowFrozen(b, b', id)
  }

  lemma {:induction false} RowStaysFrozen(b: Book, call: Call, id: ReservationId)
    requires Safe(b) && RowClocked(b, id)
    ensures RowFrozen(b, Do(b, call), id)
  {
    hide Overlapping, HeldBy, Merged;
  }

  lemma {:induction false} DoFrozen(b: Book, call: Call)
    requires Safe(b) && Clocked(b)
    ensures Frozen(b, Do(b, call))
  {
    hide RowClocked, RowFrozen, Safe, RefusalOf;
    forall id: ReservationId {
      RowStaysFrozen(b, call, id);
    }
  }

  /** The only status moves, and the call that makes each of them. Completion is not final: a
      completed reservation can still be cancelled. */
  lemma {:induction false} StatusMoves(b: Book, call: Call, id: ReservationId)
    requires Safe(b) && id in b.rows
    ensures var from, to := b.rows[id].status, Do(b, call).rows[id].status;
            && (from == Reserved && to == Active
                <==> call == Start(id) && from == Reserved && b.rows[id].startAt <= b.now)
            && (from == Active && to == Completed
                <==> call == Complete(id) && from == Active && b.rows[id].endAt <= b.now)
            && (from != Cancelled && to == Cancelled <==> call == Cancel(id) && from != Cancelled)
            && (from != to ==> call == Start(id) || call == Complete(id) || call == Cancel(id))
  {
  }

  /** A cancelled or completed window is bookable again: the very same window is accepted. */
  lemma {:induction false} ReleasedWindowIsFree(b: Book, id: ReservationId, call: Call, customerId: CustomerId,
                                                notes: Option<string>)
    requires Safe(b) && (call == Cancel(id) || call == Complete(id)) && RefusalOf(b, call).None? && Holding(b.rows[id])
    requires customerId in b.customers && b.rows[id].equipmentId in b.equipment
    ensures var r := b.rows[id];
            CreateRefusal(Do(b, call), CreateDto(customerId, r.equipmentId, At(r.startAt), At(r.endAt), notes)).None?
  {
    var r, b' := b.rows[id], Do(b, call);
    DoSafe(b, call);
    CreateOverlapIff(b', CreateDto(customerId, r.equipmentId, At(r.startAt), At(r.endAt), notes));
    forall other, t | r.startAt <= t < r.endAt
      ensures !HeldBy(b', other, r.equipmentId, t)
    {
      assert HeldBy(b, id, r.equipmentId, t);
      assert HeldBy(b', other, r.equipmentId, t) ==> HeldBy(b, other, r.equipmentId, t);
    }
  }

  // ---------- whole runs ----------

  lemma {:induction false} FrozenTrans(a: Book, b: Book, c: Book)
    requires Frozen(a, b) && Frozen(b, c)
    ensures Frozen(a, c)
  {
    forall id: ReservationId
      ensures RowFrozen(a, c, id)
    {
      assert RowFrozen(a, b, id) && RowFrozen(b, c, id);
    }
  }

  lemma {:induction false} RunKeeps(b: Book, calls: seq<Call>)
    requires Safe(b) && Clocked(b)
    ensures Safe(Run(b, calls)) && Clocked(Run(b, calls)) && Frozen(b, Run(b, calls))
    decreases |calls|
  {
    hide Safe, Clocked, Frozen, Do;
    if calls == [] {
      assert Frozen(b, b) by { FrozenRefl(b); }
    } else {
      DoSafe(b, calls[0]);
      DoClocked(b, calls[0]);
      DoFrozen(b, calls[0]);
      RunKeeps(Do(b, calls[0]), calls[1..]);
      FrozenTrans(b, Do(b, calls[0]), Run(b, calls));
    }
  }

  lemma {:induction false} FrozenRefl(b: Book)
    requires Clocked(b)
    ensures Frozen(b, b)
  {
    forall id: ReservationId
      ensures RowFrozen(b, b, id)
    {
      assert RowClocked(b, id);
    }
  }

  /** Calendar safety and the clocked lifecycle in every state of every run from the empty book. */
  lemma {:induction false} EveryRun(b: Book, calls: seq<Call>)
    requires Init(b)
    ensures Safe(Run(b, calls)) && Clocked(Run(b, calls))
  {
    RunKeeps(b, calls);
  }

  /** Two stages of one run: what was started keeps its interval and its moment, what was cancelled
      keeps its whole row. */
  lemma {:induction false} LaterInTheRun(b: Book, first: seq<Call>, rest: seq<Call>)
    requires Init(b)
    ensures Frozen(Run(b, first), Run(Run(b, first), rest))
  {
    RunKeeps(b, first);
    RunKeeps(Run(b, first), rest);
  }
}
