/** What each reservation call answers, and what it leaves in the book: said of the rows, the given values and the
    instants that are held. */
module ReservationOutcomes {
  import opened Schema
  import opened Reservations
  import opened ReservationTheorems

  /** A reserved or active row keeps its equipment for every instant from its start up to its end. */
  predicate Occupies(b: Book, id: ReservationId, equipmentId: EquipmentId, t: Instant) {
    && id in b.rows && b.rows[id].equipmentId == equipmentId
    && (b.rows[id].status == Reserved || b.rows[id].status == Active)
    && b.rows[id].startAt <= t < b.rows[id].endAt
  }

  /** Nobody else keeps the equipment at any instant of the window. */
  ghost predicate Free(b: Book, equipmentId: EquipmentId, s: Instant, e: Instant, exclude: Option<ReservationId>) {
    forall id: ReservationId, t :: s <= t < e && exclude != Some(id) ==> !Occupies(b, id, equipmentId, t)
  }

  /** All that changed is this row, and every other row and record is as it was. */
  ghost predicate OnlyRow(b: Book, b': Book, id: ReservationId, r: Reservation) {
    && id in b'.rows && b'.rows[id] == r
    && (forall x :: x != id ==> (x in b'.rows <==> x in b.rows) && (x in b.rows ==> b'.rows[x] == b.rows[x]))
    && b'.customers == b.customers && b'.equipment == b.equipment && b'.now == b.now
  }

  lemma {:induction false} FreeIs(b: Book, equipmentId: EquipmentId, s: Instant, e: Instant,
                                  exclude: Option<ReservationId>)
    requires Safe(b) && s < e
    ensures Free(b, equipmentId, s, e, exclude) <==> !Overlapping(b.rows, equipmentId, s, e, exclude)
  {
    OverlappingIffHeld(b, equipmentId, s, e, exclude);
    assert forall id: ReservationId, t :: Occupies(b, id, equipmentId, t) <==> HeldBy(b, id, equipmentId, t);
    hide Overlapping, Safe, HeldBy, Occupies;
  }

  /** A booking is taken exactly for a known customer and equipment, proper timestamps, a non-empty window and one
      that is free; otherwise the caller is told the first of these that fails. */
  lemma {:induction false} CreateTold(b: Book, dto: CreateDto)
    requires Safe(b)
    ensures var reply := ReplyOf(b, Create(dto));
            var known := dto.customerId in b.customers && dto.equipmentId in b.equipment;
            var proper := dto.startAt.At? && dto.endAt.At?;
            && (dto.customerId !in b.customers ==> reply == Refused(CustomerUnknown))
            && (dto.customerId in b.customers && dto.equipmentId !in b.equipment ==> reply == Refused(EquipmentUnknown))
            && (known && !proper ==> reply == Refused(BadTimestamp))
            && (known && proper ==>
                  var s, e := dto.startAt.t, dto.endAt.t;
                  && (e <= s ==> reply == Refused(EmptyRange))
                  && (s < e && !Free(b, dto.equipmentId, s, e, None) ==> reply == Refused(OverlapConflict))
                  && (s < e && Free(b, dto.equipmentId, s, e, None) ==> reply == Done(b.nextId)))
  {
    if dto.startAt.At? && dto.endAt.At? && dto.startAt.t < dto.endAt.t {
      FreeIs(b, dto.equipmentId, dto.startAt.t, dto.endAt.t, None);
    }
    hide Overlapping, Free, Safe;
  }

  /** A refused call changes nothing. */
  lemma {:induction false} RefusedChangesNothing(b: Book, call: Call)
    ensures ReplyOf(b, call).Refused? ==> Do(b, call) == b
  {
    hide RefusalOf;
  }

  /** An accepted booking is a new RESERVED row for the customer and the equipment, with the notes, that keeps
      exactly the requested window. */
  lemma {:induction false} CreateLeaves(b: Book, dto: CreateDto)
    requires ReplyOf(b, Create(dto)).Done?
    ensures dto.startAt.At? && dto.endAt.At?
    ensures var id, b' := ReplyOf(b, Create(dto)).id, Do(b, Create(dto));
            && id == b.nextId && b'.nextId == id + 1
            && OnlyRow(b, b', id, Reservation(dto.customerId, dto.equipmentId, dto.startAt.t, dto.endAt.t, Reserved,
                                              dto.notes))
            && b'.startedAt == b.startedAt && b'.completedAt == b.completedAt
            && forall e, t :: Occupies(b', id, e, t) <==> e == dto.equipmentId && dto.startAt.t <= t < dto.endAt.t
  {
    hide Overlapping;
  }

  /** The time a row has after an update: the given one, else the stored one. */
  predicate Effective(given: Option<Stamp>, stored: Instant, t: Instant) {
    given == Some(At(t)) || (given.None? && t == stored)
  }

  /** An update is accepted exactly for a RESERVED row, proper timestamps, a non-empty effective window and one that
      is free of others; otherwise the caller is told the first of these that fails. */
  lemma {:induction false} UpdateTold(b: Book, id: ReservationId, dto: UpdateDto)
    requires Safe(b)
    ensures var reply := ReplyOf(b, Update(id, dto));
            var proper := dto.startAt != Some(Garbled) && dto.endAt != Some(Garbled);
            && (id !in b.rows ==> reply == Refused(ReservationUnknown))
            && (id in b.rows ==>
                  var r := b.rows[id];
                  && (r.status != Reserved ==> reply == Refused(NotMutable))
                  && (r.status == Reserved && !proper ==> reply == Refused(BadTimestamp))
                  && (r.status == Reserved ==>
                        forall s, e :: Effective(dto.startAt, r.startAt, s) && Effective(dto.endAt, r.endAt, e) ==>
                          && (e <= s ==> reply == Refused(EmptyRange))
                          && (s < e && !Free(b, r.equipmentId, s, e, Some(id)) ==> reply == Refused(OverlapConflict))
                          && (s < e && Free(b, r.equipmentId, s, e, Some(id)) ==> reply == Done(id))))
  {
    if id in b.rows && b.rows[id].status == Reserved && dto.startAt != Some(Garbled) && dto.endAt != Some(Garbled) {
      var r := b.rows[id];
      var s, e := Merged(dto.startAt, r.startAt).t, Merged(dto.endAt, r.endAt).t;
      if s < e {
        FreeIs(b, r.equipmentId, s, e, Some(id));
        if dto.startAt.None? && dto.endAt.None? { OwnWindowIsFree(b, id); }
      }
    }
    hide Overlapping, Free, Safe;
  }

  lemma {:induction false} OwnWindowIsFree(b: Book, id: ReservationId)
    requires Safe(b) && id in b.rows && b.rows[id].status == Reserved
    ensures Free(b, b.rows[id].equipmentId, b.rows[id].startAt, b.rows[id].endAt, Some(id))
  {
    var r := b.rows[id];
    forall other: ReservationId, t | r.startAt <= t < r.endAt && Some(id) != Some(other)
      ensures !Occupies(b, other, r.equipmentId, t)
    {
      assert HeldBy(b, id, r.equipmentId, t);
      assert Occupies(b, other, r.equipmentId, t) ==> HeldBy(b, other, r.equipmentId, t);
    }
  }

  /** An accepted update leaves every given field with its given value and every absent one with its old value;
      customer, equipment and status stay, and so does every other row. The row then keeps exactly the effective
      window. */
  lemma {:induction false} UpdateLeaves(b: Book, id: ReservationId, dto: UpdateDto)
    requires ReplyOf(b, Update(id, dto)).Done?
    ensures id in b.rows && b.rows[id].status == Reserved
    ensures var b', r := Do(b, Update(id, dto)), b.rows[id];
            exists s, e ::
              && Effective(dto.startAt, r.startAt, s) && Effective(dto.endAt, r.endAt, e) && s < e
              && OnlyRow(b, b', id, Reservation(r.customerId, r.equipmentId, s, e, Reserved,
                                                if dto.notes.Some? then dto.notes else r.notes))
              && b'.nextId == b.nextId && b'.startedAt == b.startedAt && b'.completedAt == b.completedAt
              && forall eq, t :: Occupies(b', id, eq, t) <==> eq == r.equipmentId && s <= t < e
  {
    hide Overlapping;
    var r := b.rows[id];
    var s, e := Merged(dto.startAt, r.startAt).t, Merged(dto.endAt, r.endAt).t;
    assert Effective(dto.startAt, r.startAt, s) && Effective(dto.endAt, r.endAt, e);
  }

  /** Starting needs a RESERVED row whose start has come, completing an ACTIVE row whose end has come, cancelling a
      row that is not cancelled. Each moves that status, records the moment, and changes nothing else. */
  lemma {:induction false} LifecycleTold(b: Book, call: Call)
    requires call.Start? || call.Complete? || call.Cancel?
    ensures var id, reply, b' := call.id, ReplyOf(b, call), Do(b, call);
            && (id !in b.rows ==> reply == Refused(ReservationUnknown))
            && (id in b.rows ==>
                  var r := b.rows[id];
                  && (call.Start? ==>
                        && (r.status != Reserved ==> reply == Refused(NotStartable))
                        && (r.status == Reserved && b.now < r.startAt ==> reply == Refused(BeforeStart))
                        && (r.status == Reserved && r.startAt <= b.now ==>
                              && reply == Done(id) && OnlyRow(b, b', id, r.(status := Active))
                              && b'.startedAt == b.startedAt[id := b.now] && b'.completedAt == b.completedAt))
                  && (call.Complete? ==>
                        && (r.status != Active ==> reply == Refused(NotCompletable))
                        && (r.status == Active && b.now < r.endAt ==> reply == Refused(BeforeEnd))
                        && (r.status == Active && r.endAt <= b.now ==>
                              && reply == Done(id) && OnlyRow(b, b', id, r.(status := Completed))
                              && b'.completedAt == b.completedAt[id := b.now] && b'.startedAt == b.startedAt))
                  && (call.Cancel? ==>
                        && (r.status == Cancelled ==> reply == Refused(AlreadyCancelled))
                        && (r.status != Cancelled ==>
                              && reply == Done(id) && OnlyRow(b, b', id, r.(status := Cancelled))
                              && b'.startedAt == b.startedAt && b'.completedAt == b.completedAt)))
            && b'.nextId == b.nextId
  {
  }
}
