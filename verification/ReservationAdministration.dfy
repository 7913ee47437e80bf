/** ReservationService over its rows, changed in place. */
module ReservationAdministration {
  import opened Schema
  import opened Reservations

  class ReservationService {
    var rows: map<ReservationId, Reservation>
    var nextId: ReservationId
    var customers: set<CustomerId>
    var equipment: set<EquipmentId>
    ghost var startedAt: map<ReservationId, Instant>
    ghost var completedAt: map<ReservationId, Instant>

    ghost function View(now: Instant): Book
      reads this
    {
      Book(rows, nextId, customers, equipment, now, startedAt, completedAt)
    }

    /** Overlap pre-check: true when no holding row of the equipment intersects the window. */
    method AssertNoOverlap(equipmentId: EquipmentId, startAt: Instant, endAt: Instant, exclude: Option<ReservationId>)
      returns (free: bool)
      ensures free <==> !Overlapping(rows, equipmentId, startAt, endAt, exclude)
    {
      var todo := rows.Keys;
      while todo != {}
        invariant todo <= rows.Keys
        invariant forall id :: id in rows && id !in todo ==>
                    exclude == Some(id) || !Conflicts(rows, id, equipmentId, startAt, endAt)
        decreases |todo|
      {
        var id :| id in todo;
        if exclude != Some(id) && Conflicts(rows, id, equipmentId, startAt, endAt) {
          return false;
        }
        todo := todo - {id};
      }
      return true;
    }

    method CreateReservation(dto: CreateDto, ghost now: Instant) returns (reply: Reply)
      modifies `rows, `nextId
      ensures View(now) == Do(old(View(now)), Create(dto)) && reply == ReplyOf(old(View(now)), Create(dto))
    {
      if dto.customerId !in customers { return Refused(CustomerUnknown); }
      if dto.equipmentId !in equipment { return Refused(EquipmentUnknown); }
      if dto.startAt.Garbled? || dto.endAt.Garbled? { return Refused(BadTimestamp); }
      if !(dto.startAt.t < dto.endAt.t) { return Refused(EmptyRange); }
      var free := AssertNoOverlap(dto.equipmentId, dto.startAt.t, dto.endAt.t, None);
      if !free { return Refused(OverlapConflict); }
      rows := rows[nextId := NewReservation(dto)];
      nextId := nextId + 1;
      return Done(nextId - 1);
    }

    method UpdateReservation(id: ReservationId, dto: UpdateDto, ghost now: Instant) returns (reply: Reply)
      modifies `rows
      ensures View(now) == Do(old(View(now)), Update(id, dto)) && reply == ReplyOf(old(View(now)), Update(id, dto))
      ensures reply.Done? ==>
                && id in old(rows) && id in rows && rows == old(rows)[id := rows[id]]
                && (if dto.startAt.Some? then dto.startAt.value == At(rows[id].startAt)
                    else rows[id].startAt == old(rows)[id].startAt)
                && (if dto.endAt.Some? then dto.endAt.value == At(rows[id].endAt)
                    else rows[id].endAt == old(rows)[id].endAt)
                && rows[id].notes == (if dto.notes.Some? then dto.notes else old(rows)[id].notes)
                && rows[id].status == Reserved && old(rows)[id].status == Reserved
                && rows[id].customerId == old(rows)[id].customerId && rows[id].equipmentId == old(rows)[id].equipmentId
    {
      if id !in rows { return Refused(ReservationUnknown); }
      var r := rows[id];
      if r.status != Reserved { return Refused(NotMutable); }
      var startAt, endAt := Merged(dto.startAt, r.startAt), Merged(dto.endAt, r.endAt);
      if startAt.Garbled? || endAt.Garbled? { return Refused(BadTimestamp); }
      if !(startAt.t < endAt.t) { return Refused(EmptyRange); }
      if dto.startAt.Some? || dto.endAt.Some? {
        var free := AssertNoOverlap(r.equipmentId, startAt.t, endAt.t, Some(id));
        if !free { return Refused(OverlapConflict); }
      }
      if dto.startAt.Some? { r := r.(startAt := startAt.t); }
      if dto.endAt.Some? { r := r.(endAt := endAt.t); }
      if dto.notes.Some? { r := r.(notes := dto.notes); }
      rows := rows[id := r];
      return Done(id);
    }

    /** The shared lifecycle step: the right source status, an open time gate, then the new status. */
    method Transition(id: ReservationId, from: Status, to: Status, conflict: Refusal, gateIsStart: bool, early: Refusal,
                      now: Instant) returns (reply: Reply)
      modifies `rows
      ensures reply == if id !in old(rows) then Refused(ReservationUnknown)
                       else if old(rows)[id].status != from then Refused(conflict)
                       else if (if gateIsStart then old(rows)[id].startAt else old(rows)[id].endAt) > now
                         then Refused(early)
                       else Done(id)
      ensures rows == if reply.Done? then old(rows)[id := old(rows)[id].(status := to)] else old(rows)
    {
      if id !in rows { return Refused(ReservationUnknown); }
      if rows[id].status != from { return Refused(conflict); }
      var gate := if gateIsStart then rows[id].startAt else rows[id].endAt;
      if gate > now { return Refused(early); }
      rows := rows[id := rows[id].(status := to)];
      return Done(id);
    }

    method StartReservation(id: ReservationId, now: Instant) returns (reply: Reply)
      modifies `rows, `startedAt
      ensures View(now) == Do(old(View(now)), Start(id)) && reply == ReplyOf(old(View(now)), Start(id))
    {
      reply := Transition(id, Reserved, Active, NotStartable, true, BeforeStart, now);
      if reply.Done? { startedAt := startedAt[id := now]; }
    }

    method CompleteReservation(id: ReservationId, now: Instant) returns (reply: Reply)
      modifies `rows, `completedAt
      ensures View(now) == Do(old(View(now)), Complete(id)) && reply == ReplyOf(old(View(now)), Complete(id))
    {
      reply := Transition(id, Active, Completed, NotCompletable, false, BeforeEnd, now);
      if reply.Done? { completedAt := completedAt[id := now]; }
    }

    method DeleteReservation(id: ReservationId, ghost now: Instant) returns (reply: Reply)
      modifies `rows
      ensures View(now) == Do(old(View(now)), Cancel(id)) && reply == ReplyOf(old(View(now)), Cancel(id))
    {
      if id !in rows { return Refused(ReservationUnknown); }
      if rows[id].status == Cancelled { return Refused(AlreadyCancelled); }
      rows := rows[id := rows[id].(status := Cancelled)];
      return Done(id);
    }
  }
}
