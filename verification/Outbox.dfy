/** Recording offline sale intents: idempotent per device and client uuid, ordered per device, with the
    provenance of the session. */
module Outbox {
  import opened Schema
  import opened Platform
  import opened PlatformSafety

  datatype IntentDto = IntentDto(sessionId: SessionId, clientUuid: nat, seqNo: nat, customerId: Option<CustomerId>,
                                 items: seq<IntentLine>)

  predicate SamePush(op: Operation, deviceId: DeviceId, clientUuid: nat) {
    op.deviceId == deviceId && op.clientUuid == clientUuid
  }

  predicate SameSlot(op: Operation, deviceId: DeviceId, seqNo: nat) {
    op.deviceId == deviceId && op.seqNo == seqNo
  }

  /** The unique indexes (device, client uuid) and (device, seq). */
  ghost predicate OutboxKeys(ops: map<OpId, Operation>) {
    forall x, y :: x in ops && y in ops && x != y ==>
      !SamePush(ops[x], ops[y].deviceId, ops[y].clientUuid) && !SameSlot(ops[x], ops[y].deviceId, ops[y].seqNo)
  }

  predicate Pushed(ops: map<OpId, Operation>, deviceId: DeviceId, clientUuid: nat) {
    exists x :: x in ops && SamePush(ops[x], deviceId, clientUuid)
  }

  predicate SlotTaken(ops: map<OpId, Operation>, deviceId: DeviceId, seqNo: nat) {
    exists x :: x in ops && SameSlot(ops[x], deviceId, seqNo)
  }

  ghost function OriginalOf(ops: map<OpId, Operation>, deviceId: DeviceId, clientUuid: nat): (x: OpId)
    requires Pushed(ops, deviceId, clientUuid)
    ensures x in ops && SamePush(ops[x], deviceId, clientUuid)
  {
    var x :| x in ops && SamePush(ops[x], deviceId, clientUuid);
    x
  }

  /** The row an intent is stored as: everything but the intent itself comes from the session. */
  function IntentRow(session: Session, dto: IntentDto): Operation {
    Operation(session.deviceId, dto.sessionId, session.storeId, session.userId, dto.clientUuid, dto.seqNo,
              dto.customerId,
              dto.items, OpPending, None, None, None, None)
  }

  datatype Recorded = Recorded(ops: map<OpId, Operation>, result: Result<OpId>)

  /** One push. The (device, client uuid) index is the first to report a violation. */
  ghost function Record(ops: map<OpId, Operation>, sessions: map<SessionId, Session>, minted: OpId, userId: UserId,
                        dto: IntentDto): Recorded {
    if dto.sessionId !in sessions || sessions[dto.sessionId].userId != userId then Recorded(ops, Err(SessionNotFound))
    else
      var session := sessions[dto.sessionId];
      if Pushed(ops, session.deviceId, dto.clientUuid) then Recorded(ops,
                                                                     Ok(OriginalOf(ops, session.deviceId,
                                                                       dto.clientUuid)))
      else if SlotTaken(ops, session.deviceId, dto.seqNo) then Recorded(ops, Err(SequenceTaken))
      else Recorded(ops[minted := IntentRow(session, dto)], Ok(minted))
  }

  lemma {:induction false} RecordKeepsKeys(ops: map<OpId, Operation>, sessions: map<SessionId, Session>, minted: OpId,
                                           userId: UserId, dto: IntentDto)
    requires OutboxKeys(ops) && minted !in ops
    ensures OutboxKeys(Record(ops, sessions, minted, userId, dto).ops)
  {
  }

  /** A push needs a session of the caller. When the session's device has pushed the client uuid before, it is answered
      with that row; when the device has used the sequence number, it is refused; otherwise exactly one row is new,
      pending and without a claim, with the caller's intent and the session's device, store and cashier. */
  lemma {:induction false} PushNeeds(ops: map<OpId, Operation>, sessions: map<SessionId, Session>, minted: OpId,
                                     userId: UserId, dto: IntentDto)
    requires OutboxKeys(ops)
    ensures var out := Record(ops, sessions, minted, userId, dto);
            var own := dto.sessionId in sessions && sessions[dto.sessionId].userId == userId;
            && (!own ==> out == Recorded(ops, Err(SessionNotFound)))
            && (own ==>
                  var s := sessions[dto.sessionId];
                  && (forall x :: x in ops && SamePush(ops[x], s.deviceId, dto.clientUuid) ==>
                        out == Recorded(ops, Ok(x)))
                  && ((forall x :: x in ops ==> !SamePush(ops[x], s.deviceId, dto.clientUuid)) ==>
                        if exists x :: x in ops && ops[x].deviceId == s.deviceId && ops[x].seqNo == dto.seqNo then
                          out == Recorded(ops, Err(SequenceTaken))
                        else
                          out == Recorded(ops[minted := Operation(s.deviceId, dto.sessionId, s.storeId, userId,
                                                                  dto.clientUuid, dto.seqNo, dto.customerId,
                                                                  dto.items, OpPending, None, None, None, None)],
                                          Ok(minted))))
  {
    if dto.sessionId in sessions {
      var device := sessions[dto.sessionId].deviceId;
      assert forall x :: x in ops && SamePush(ops[x], device, dto.clientUuid) ==>
          Pushed(ops, device, dto.clientUuid) && x == OriginalOf(ops, device, dto.clientUuid);
    }
  }

  /** At-least-once delivery, exactly-once effect: after a successful push, pushing the same client uuid
      from the same session again, at any later time and with any payload, returns the original row and
      changes nothing. */
  lemma {:induction false} ReplayReturnsOriginal(ops: map<OpId, Operation>, sessions: map<SessionId, Session>,
                                                 minted: OpId, userId: UserId, dto: IntentDto,
                                                 later: map<OpId, Operation>, sessions': map<SessionId, Session>,
                                                 minted': OpId, again: IntentDto)
    requires Record(ops, sessions, minted, userId, dto).result.Ok?
    requires OutboxKeys(later) && again.sessionId == dto.sessionId && again.clientUuid == dto.clientUuid
    requires dto.sessionId in sessions' && SameSession(sessions[dto.sessionId], sessions'[dto.sessionId])
    requires var out := Record(ops, sessions, minted, userId, dto);
             var x := out.result.value; x in later && SameIntent(out.ops[x], later[x])
    ensures Record(later, sessions', minted', userId, again)
            == Recorded(later, Record(ops, sessions, minted, userId, dto).result)
  {
    var out, device := Record(ops, sessions, minted, userId, dto), sessions[dto.sessionId].deviceId;
    var x := out.result.value;
    assert SamePush(out.ops[x], device, dto.clientUuid);
    assert SamePush(later[x], device, dto.clientUuid);
    assert OriginalOf(later, device, dto.clientUuid) == x;
  }

  /** A push inserts exactly when the running platform may record the intent, and inserts that row. */
  lemma {:induction false} RecordIsPlatformStep(s: Sys, minted: OpId, userId: UserId, dto: IntentDto)
    requires minted !in s.ops && dto.items != []
    ensures var a := RecordIntent(minted, dto.sessionId, userId, dto.clientUuid, dto.seqNo, dto.customerId, dto.items);
            Act(s, a).ops == Record(s.ops, s.sessions, minted, userId, dto).ops
  {
    var a := RecordIntent(minted, dto.sessionId, userId, dto.clientUuid, dto.seqNo, dto.customerId, dto.items);
    assert Act(s, a).ops == if Recordable(s, a) then s.ops[minted := NewOperation(s, a)] else s.ops;
    hide Act;
  }
}

/** PosOperationService over the operation rows, changed in place. */
module OutboxAdministration {
  import opened Schema
  import opened Database
  import opened Outbox

  class PosOperationService {
    const prisma: Prisma

    constructor (prisma: Prisma)
      ensures this.prisma == prisma
    {
      this.prisma := prisma;
    }

    /** The insert is the idempotency gate: a unique violation rolls it back and decides the answer.
        `minted` is the server-generated id. */
    method RecordOfflineSaleIntent(userId: UserId, dto: IntentDto, minted: OpId) returns (r: Result<OpId>)
      requires OutboxKeys(prisma.operations) && minted !in prisma.operations
      modifies prisma`operations
      ensures OutboxKeys(prisma.operations)
      ensures var out := Record(old(prisma.operations), prisma.sessions, minted, userId, dto);
              prisma.operations == out.ops && r == out.result
    {
      RecordKeepsKeys(prisma.operations, prisma.sessions, minted, userId, dto);
      if dto.sessionId !in prisma.sessions {
        return Err(SessionNotFound);
      }
      var session := prisma.sessions[dto.sessionId];
      if session.userId != userId {
        return Err(SessionNotFound);
      }
      if Pushed(prisma.operations, session.deviceId, dto.clientUuid) {
        var existing := FindPush(session.deviceId, dto.clientUuid);
        return Ok(existing);
      }
      if SlotTaken(prisma.operations, session.deviceId, dto.seqNo) {
        return Err(SequenceTaken);
      }
      InsertIntent(minted, session, dto);
      return Ok(minted);
    }

    method FindPush(deviceId: DeviceId, clientUuid: nat) returns (x: OpId)
      requires OutboxKeys(prisma.operations) && Pushed(prisma.operations, deviceId, clientUuid)
      ensures x == OriginalOf(prisma.operations, deviceId, clientUuid)
    {
      x :| x in prisma.operations && SamePush(prisma.operations[x], deviceId, clientUuid);
    }

    /** The parent row, then its frozen lines one by one. */
    method InsertIntent(minted: OpId, session: Session, dto: IntentDto)
      requires minted !in prisma.operations
      modifies prisma`operations
      ensures prisma.operations == old(prisma.operations)[minted := IntentRow(session, dto)]
    {
      ghost var before := prisma.operations;
      prisma.operations := prisma.operations[minted := IntentRow(session, dto.(items := []))];
      for i := 0 to |dto.items|
        invariant prisma.operations == before[minted := IntentRow(session, dto.(items := dto.items[..i]))]
      {
        var row := prisma.operations[minted];
        prisma.operations := prisma.operations[minted := row.(items := row.items + [dto.items[i]])];
        assert dto.items[..i + 1] == dto.items[..i] + [dto.items[i]];
      }
      assert dto.items[..|dto.items|] == dto.items;
    }
  }
}
