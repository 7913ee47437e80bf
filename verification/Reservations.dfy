/** The reservation book as a value: what each service call answers and does to it. */
module Reservations {
  import opened Schema

  type ReservationId = nat
  type EquipmentId = nat

  datatype Status = Reserved | Active | Completed | Cancelled

  datatype Reservation = Reservation(customerId: CustomerId, equipmentId: EquipmentId,
                                     startAt: Instant, endAt: Instant, status: Status, notes: Option<string>)

  /** The reservation rows, the resolvable references, the clock, and the moments at which rows were
      started and completed. The database does not keep those moments; they record the run. */
  datatype Book = Book(rows: map<ReservationId, Reservation>, nextId: ReservationId,
                       customers: set<CustomerId>, equipment: set<EquipmentId>, now: Instant,
                       startedAt: map<ReservationId, Instant>, completedAt: map<ReservationId, Instant>)

  /** A client timestamp after `new Date(value)`. */
  datatype Stamp = Garbled | At(t: Instant)

  datatype CreateDto = CreateDto(customerId: CustomerId, equipmentId: EquipmentId,
                                 startAt: Stamp, endAt: Stamp, notes: Option<string>)
  /** Absent fields keep the stored value. */
  datatype UpdateDto = UpdateDto(startAt: Option<Stamp>, endAt: Option<Stamp>, notes: Option<string>)

  datatype Refusal = CustomerUnknown | EquipmentUnknown | BadTimestamp | EmptyRange | OverlapConflict
                   | ReservationUnknown | NotMutable | NotStartable | BeforeStart | NotCompletable | BeforeEnd
                   | AlreadyCancelled
  datatype Reply = Done(id: ReservationId) | Refused(why: Refusal)

  /** RESERVED and ACTIVE rows hold their equipment. */
  predicate Holding(r: Reservation) { r.status == Reserved || r.status == Active }

  /** The half-open intersection test of the overlap query. */
  predicate Intersects(r: Reservation, startAt: Instant, endAt: Instant) {
    r.startAt < endAt && r.endAt > startAt
  }

  predicate Conflicts(rows: map<ReservationId, Reservation>, id: ReservationId, equipmentId: EquipmentId,
                      startAt: Instant, endAt: Instant)
    requires id in rows
  {
    rows[id].equipmentId == equipmentId && Holding(rows[id]) && Intersects(rows[id], startAt, endAt)
  }

  predicate Overlapping(rows: map<ReservationId, Reservation>, equipmentId: EquipmentId, startAt: Instant,
                        endAt: Instant, exclude: Option<ReservationId>)
  {
    exists id :: id in rows && exclude != Some(id) && Conflicts(rows, id, equipmentId, startAt, endAt)
  }

  // ---------- the calls ----------

  function CreateRefusal(b: Book, dto: CreateDto): Option<Refusal> {
    if dto.customerId !in b.customers then Some(CustomerUnknown)
    else if dto.equipmentId !in b.equipment then Some(EquipmentUnknown)
    else if dto.startAt.Garbled? || dto.endAt.Garbled? then Some(BadTimestamp)
    else if !(dto.startAt.t < dto.endAt.t) then Some(EmptyRange)
    else if Overlapping(b.rows, dto.equipmentId, dto.startAt.t, dto.endAt.t, None) then Some(OverlapConflict)
    else None
  }

  /** The effective value of a partially updated time. */
  function Merged(given: Option<Stamp>, stored: Instant): Stamp {
    if given.Some? then given.value else At(stored)
  }

  function UpdateRefusal(b: Book, id: ReservationId, dto: UpdateDto): Option<Refusal> {
    if id !in b.rows then Some(ReservationUnknown)
    else if b.rows[id].status != Reserved then Some(NotMutable)
    else
      var startAt, endAt := Merged(dto.startAt, b.rows[id].startAt), Merged(dto.endAt, b.rows[id].endAt);
      if startAt.Garbled? || endAt.Garbled? then Some(BadTimestamp)
      else if !(startAt.t < endAt.t) then Some(EmptyRange)
      else if (dto.startAt.Some? || dto.endAt.Some?)
              && Overlapping(b.rows, b.rows[id].equipmentId, startAt.t, endAt.t, Some(id)) then Some(OverlapConflict)
      else None
  }

  function StartRefusal(b: Book, id: ReservationId): Option<Refusal> {
    if id !in b.rows then Some(ReservationUnknown)
    else if b.rows[id].status != Reserved then Some(NotStartable)
    else if b.rows[id].startAt > b.now then Some(BeforeStart)
    else None
  }

  function CompleteRefusal(b: Book, id: ReservationId): Option<Refusal> {
    if id !in b.rows then Some(ReservationUnknown)
    else if b.rows[id].status != Active then Some(NotCompletable)
    else if b.rows[id].endAt > b.now then Some(BeforeEnd)
    else None
  }

  function CancelRefusal(b: Book, id: ReservationId): Option<Refusal> {
    if id !in b.rows then Some(ReservationUnknown)
    else if b.rows[id].status == Cancelled then Some(AlreadyCancelled)
    else None
  }

  datatype Call =
    | Create(dto: CreateDto)
    | Update(id: ReservationId, changes: UpdateDto)
    | Start(id: ReservationId)
    | Complete(id: ReservationId)
    | Cancel(id: ReservationId)
    | Tick(ms: nat)

  function RefusalOf(b: Book, call: Call): Option<Refusal> {
    match call
    case Create(dto) => CreateRefusal(b, dto)
    case Update(id, dto) => UpdateRefusal(b, id, dto)
    case Start(id) => StartRefusal(b, id)
    case Complete(id) => CompleteRefusal(b, id)
    case Cancel(id) => CancelRefusal(b, id)
    case Tick(_) => None
  }

  function NewReservation(dto: CreateDto): Reservation
    requires dto.startAt.At? && dto.endAt.At?
  {
    Reservation(dto.customerId, dto.equipmentId, dto.startAt.t, dto.endAt.t, Reserved, dto.notes)
  }

  /** Stored values overwritten by the given ones. */
  function Patched(r: Reservation, dto: UpdateDto): Reservation
    requires dto.startAt.Some? ==> dto.startAt.value.At?
    requires dto.endAt.Some? ==> dto.endAt.value.At?
  {
    r.(startAt := if dto.startAt.Some? then dto.startAt.value.t else r.startAt,
       endAt := if dto.endAt.Some? then dto.endAt.value.t else r.endAt,
       notes := if dto.notes.Some? then dto.notes else r.notes)
  }

  function WithStatus(b: Book, id: ReservationId, status: Status): Book
    requires id in b.rows
  {
    b.(rows := b.rows[id := b.rows[id].(status := status)])
  }

  /** One atomic call: refused calls change nothing. */
  function Do(b: Book, call: Call): Book {
    if RefusalOf(b, call).Some? then b
    else
      match call
      case Create(dto) => b.(rows := b.rows[b.nextId := NewReservation(dto)], nextId := b.nextId + 1)
      case Update(id, dto) => b.(rows := b.rows[id := Patched(b.rows[id], dto)])
      case Start(id) => WithStatus(b, id, Active).(startedAt := b.startedAt[id := b.now])
      case Complete(id) => WithStatus(b, id, Completed).(completedAt := b.completedAt[id := b.now])
      case Cancel(id) => WithStatus(b, id, Cancelled)
      case Tick(ms) => b.(now := b.now + ms)
  }

  function ReplyOf(b: Book, call: Call): Reply {
    match RefusalOf(b, call)
    case Some(why) => Refused(why)
    case None => match call case Create(_) => Done(b.nextId) case Tick(_) => Done(0) case _ => Done(call.id)
  }

  function Run(b: Book, calls: seq<Call>): Book
    decreases |calls|
  {
    if calls == [] then b else Run(Do(b, calls[0]), calls[1..])
  }
}
