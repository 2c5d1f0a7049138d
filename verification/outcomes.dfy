/**
 Exactly what each repository operation answers and writes, row by row and column by column, on
 tables that satisfy the invariant - as those of every reachable state do.  The verification every
 operation runs first is replaced here by what it amounts to on such tables: the chain's length.
 */
module Outcomes {
  import opened Prelude
  import opened Timestamps
  import opened Texts
  import opened Records
  import opened AuditTrail
  import opened Transactions
  import opened Invariants
  import opened Preservation
  import opened Progress

  const ZEROS: Digest :=
    "0000000000000000" + "0000000000000000" + "0000000000000000" + "0000000000000000"

  /**
   The tables with the row of `id` replaced, one event put after the others of its trail, and the
   row's count and head moved to that event.  Nothing else differs.
   */
  function Written(rules: Rules, db: Db, id: string, row: ApprovalRow, p: AuditPayload): Db {
    var events := EventsOf(db, id);
    var prev := if events == [] then ZEROS else events[|events| - 1].hash;
    var hash := rules.event(p, prev);
    db.(events := db.events[id := events + [AuditEvent(p, prev, hash)]],
        auditIds := db.auditIds + {p.id},
        approvals := db.approvals[id := row.(count := |events| + 1, head := hash)])
  }

  lemma GenesisIsZeros()
    ensures GENESIS == ZEROS
  {
    ZerosAre(64);
    assert forall i | 0 <= i < 64 :: GENESIS[i] == ZEROS[i];
  }

  lemma WrittenIs(rules: Rules, db: Db, id: string, row: ApprovalRow, p: AuditPayload)
    requires p.approvalId == id && p.sequence == |EventsOf(db, id)| + 1
    ensures id in WithRow(db, id, row).approvals
    ensures Appended(rules, WithRow(db, id, row), p) == Written(rules, db, id, row, p)
  {
    GenesisIsZeros();
    assert EventsOf(WithRow(db, id, row), id) == EventsOf(db, id);
    assert db.approvals[id := row][id := Appended(rules, WithRow(db, id, row), p).approvals[id]] ==
           db.approvals[id := Appended(rules, WithRow(db, id, row), p).approvals[id]];
  }

  lemma WrittenSame(rules: Rules, db: Db, id: string, p: AuditPayload)
    requires id in db.approvals && p.approvalId == id && p.sequence == |EventsOf(db, id)| + 1
    ensures Appended(rules, db, p) == Written(rules, db, id, db.approvals[id], p)
  {
    hide Appended, Written, EventsOf;
    assert WithRow(db, id, db.approvals[id]) == db;
    WrittenIs(rules, db, id, db.approvals[id], p);
  }

  /** The name under which an approval's status is written into its trail. */
  predicate Named(s: ApprovalStatus, n: StatusName) {
    && (s == Pending ==> n == PendingName) && (s == Approved ==> n == ApprovedName)
    && (s == Rejected ==> n == RejectedName) && (s == Expired ==> n == ExpiredName)
  }

  /** An event that is about the approval alone. */
  predicate About(p: AuditPayload, id: string, n: int, kind: AuditKind, status: ApprovalStatus, actor: string,
                  at: DateTime, auditId: string) {
    && p == AuditPayload(auditId, id, None, None, None, None, n, kind, p.status, actor, at)
    && Named(status, p.status)
  }

  // ---------------------------------------------------------------- create

  lemma CreateOutcome(rules: Rules, db: Db, d: Draft, now: DateTime, actor: string, auditId: string)
    requires Inv(rules, db) && DraftSound(rules, d)
    ensures var (db', r) := CreateTx(rules, db, d, now, actor, auditId);
            if d.approvalId in db.approvals || auditId in db.auditIds || !StorableActor(actor)
            then db' == db && r == Err(ApprovalConflict)
            else
              && r == Ok(d)
              && db' == Written(rules, db, d.approvalId,
                                ApprovalRow(d.approvalId, d.terms, Pending, d.createdAt, d.expiresAt, None, None, None,
                                            d.provenance, d.provenanceHash, 0, ZEROS),
                                AuditPayload(auditId, d.approvalId, None, None, None, None, 1, ApprovalCreated,
                                             PendingName, actor, now))
  {
    GenesisIsZeros();
    DraftTerms(rules, d);
    TablesIndexed(rules, db);
    hide Inv, ExecutionsIndexed, StorableActor, Appended, Written;
    if d.approvalId in db.approvals || auditId in db.auditIds || !StorableActor(actor) {
      CreateRefusal(rules, db, d, now, actor, auditId);
    } else {
      CreateEffect(rules, db, d, now, actor, auditId);
      hide CreateTx;
      assert EventsOf(db, d.approvalId) == [] by { assert d.approvalId !in db.events.Keys; }
      var p := CreatedEvent(d, now, actor, auditId);
      assert Drafted(db, d) == WithRow(db, d.approvalId, DraftRow(d));
      WrittenIs(rules, db, d.approvalId, DraftRow(d), p);
    }
  }

  lemma CreateRefusal(rules: Rules, db: Db, d: Draft, now: DateTime, actor: string, auditId: string)
    requires d.approvalId in db.approvals || auditId in db.auditIds || !StorableActor(actor)
    ensures CreateTx(rules, db, d, now, actor, auditId) == (db, Err(ApprovalConflict))
  {
    hide StorableActor, SequenceTaken;
  }

  // ---------------------------------------------------------------- get

  lemma GetOutcome(rules: Rules, db: Db, id: string, now: DateTime, auditId: string)
    requires Inv(rules, db)
    ensures var (db', r) := GetTx(rules, db, id, now, auditId);
            if id !in db.approvals then db' == db && r == Err(ApprovalNotFound)
            else
              var row, n := db.approvals[id], |EventsOf(db, id)|;
              if n > 1_000_000 then db' == db && r == Err(ProvenanceIntegrity)
              else if row.status != Pending || Before(now, row.expiresAt) then db' == db && r == Ok(row)
              else if auditId in db.auditIds then db' == db && r == Err(ApprovalPersistence)
              else
                && id in db'.approvals && r == Ok(db'.approvals[id])
                && db' == Written(rules, db, id, row.(status := Expired, decidedAt := Some(now)),
                                  AuditPayload(auditId, id, None, None, None, None, n + 1, ApprovalExpired,
                                               ExpiredName, "SYSTEM", now))
  {
    hide Inv, ApprovalSoundness, ExpireTx, Written;
    if id in db.approvals {
      ApprovalAccepted(rules, db, id);
      if |EventsOf(db, id)| <= 1_000_000 && db.approvals[id].status == Pending && Lapsed(db.approvals[id], now) {
        ExpireWrites(rules, db, id, now, auditId);
      }
    }
  }

  lemma ExpireWrites(rules: Rules, db: Db, id: string, now: DateTime, auditId: string)
    requires Inv(rules, db) && id in db.approvals && db.approvals[id].status == Pending && Lapsed(db.approvals[id], now)
    ensures ExpireTx(rules, db, id, now, auditId) ==
            if auditId in db.auditIds then None
            else Some(Written(rules, db, id, db.approvals[id].(status := Expired, decidedAt := Some(now)),
                              AuditPayload(auditId, id, None, None, None, None, |EventsOf(db, id)| + 1,
                                           ApprovalExpired, ExpiredName, "SYSTEM", now)))
    ensures ExpireTx(rules, db, id, now, auditId).Some? ==> id in ExpireTx(rules, db, id, now, auditId).value.approvals
  {
    hide Inv, ExpireTx, Written, Appended, EventsOf;
    ExpireKeepsInv(rules, db, id, now, auditId);
    CoherentCount(rules, db, id);
    var row := db.approvals[id];
    var p := ExpireEvent(id, row, now, auditId);
    WrittenIs(rules, db, id, ExpiredRow(row, now), p);
    WrittenIn(rules, db, id, ExpiredRow(row, now), p);
  }

  lemma WrittenIn(rules: Rules, db: Db, id: string, row: ApprovalRow, p: AuditPayload)
    ensures id in Written(rules, db, id, row, p).approvals
  {
  }

  // ---------------------------------------------------------------- transition

  /** The row after a decision: nothing is kept as a reason but that of a rejection. */
  predicate Decided(row: ApprovalRow, row': ApprovalRow, target: ApprovalStatus, now: DateTime, actor: string,
                    reason: Option<string>) {
    && row' == row.(status := target, decidedAt := Some(now), approver := Some(actor), reason := row'.reason)
    && (target == Approved ==> row'.reason.None?) && (target == Rejected ==> row'.reason == reason)
  }

  lemma TransitionOutcome(rules: Rules, db: Db, id: string, target: ApprovalStatus, now: DateTime, actor: string,
                          reason: Option<string>, auditId: string)
    requires Inv(rules, db)
    ensures var (db', r) := TransitionTx(rules, db, id, target, now, actor, reason, auditId);
            if target == Pending || target == Expired then db' == db && r == Err(InvalidState)
            else if id !in db.approvals then db' == db && r == Err(ApprovalNotFound)
            else
              var row, n := db.approvals[id], |EventsOf(db, id)|;
              if n > 1_000_000 then db' == db && r == Err(ProvenanceIntegrity)
              else if row.status == Pending && !Before(now, row.expiresAt) then
                if auditId in db.auditIds then db' == db && r == Err(ApprovalPersistence)
                else
                  && r == Err(ApprovalLapsedFault)
                  && db' == Written(rules, db, id, row.(status := Expired, decidedAt := Some(now)),
                                    AuditPayload(auditId, id, None, None, None, None, n + 1, ApprovalExpired,
                                                 ExpiredName, "SYSTEM", now))
              else if auditId in db.auditIds || !StorableActor(actor) then
                db' == db && r == Err(ApprovalPersistence)
              else if row.status != Pending then
                && r == Err(InvalidState)
                && exists p :: About(p, id, n + 1, TransitionRejected, row.status, actor, now, auditId)
                               && db' == Written(rules, db, id, row, p)
              else if target == Rejected && reason.Some? && !StorableReason(reason.value) then
                db' == db && r == Err(ApprovalPersistence)
              else
                && id in db'.approvals
                && (exists row', p :: Decided(row, row', target, now, actor, reason)
                     && About(p, id, n + 1, if target == Approved then ApprovalApproved else ApprovalRejected, target,
                              actor, now, auditId)
                     && db' == Written(rules, db, id, row', p))
                && r == if ValidActor(actor) && (target == Rejected ==>
                             reason.Some? && ReadableReason(rules.unsafeReason, reason.value))
                        then Ok(db'.approvals[id]) else Err(ProvenanceIntegrity)
  {
    hide Inv, ApprovalSoundness, ExpireTx, Append, DecideTx, StorableActor, StorableReason, ApprovalReadable, Written,
         DecidedRow, Decided, ValidActor, ReadableReason, RefuseEvent, DecisionEvent, About;
    if id in db.approvals && target in {Approved, Rejected} {
      var row := db.approvals[id];
      ApprovalAccepted(rules, db, id);
      if |EventsOf(db, id)| <= 1_000_000 {
        if row.status == Pending && Lapsed(row, now) {
          ExpireWrites(rules, db, id, now, auditId);
        } else if row.status != Pending {
          RefuseWrites(rules, db, id, now, actor, auditId);
        } else {
          DecideWrites(rules, db, id, target, now, actor, reason, auditId);
        }
      }
    }
  }

  lemma RefuseWrites(rules: Rules, db: Db, id: string, now: DateTime, actor: string, auditId: string)
    requires Inv(rules, db) && id in db.approvals
    ensures var p := RefuseEvent(id, db.approvals[id], now, actor, auditId);
            && About(p, id, |EventsOf(db, id)| + 1, TransitionRejected, db.approvals[id].status, actor, now, auditId)
            && Append(rules, db, p, db.approvals[id].head) ==
               if auditId in db.auditIds || !StorableActor(actor) then None
               else Some(Written(rules, db, id, db.approvals[id], p))
  {
    hide Inv, Append, Written, Appended, StorableActor, EventsOf;
    CoherentCount(rules, db, id);
    var p := RefuseEvent(id, db.approvals[id], now, actor, auditId);
    AppendsAtEnd(rules, db, db, p);
    WrittenSame(rules, db, id, p);
  }

  lemma DecideWrites(rules: Rules, db: Db, id: string, target: ApprovalStatus, now: DateTime, actor: string,
                     reason: Option<string>, auditId: string)
    requires Inv(rules, db) && id in db.approvals && target in {Approved, Rejected}
    requires db.approvals[id].status == Pending && !Lapsed(db.approvals[id], now)
    ensures var row := db.approvals[id];
            var row', p := DecidedRow(row, target, now, actor, reason),
                           DecisionEvent(id, row, target, now, actor, auditId);
            && Decided(row, row', target, now, actor, reason)
            && About(p, id, |EventsOf(db, id)| + 1, if target == Approved then ApprovalApproved else ApprovalRejected,
                     target, actor, now, auditId)
            && DecideTx(rules, db, id, row', p) ==
               (if auditId in db.auditIds || !StorableActor(actor) then None
                else Some(Written(rules, db, id, row', p)))
            && var db' := Written(rules, db, id, row', p);
               && id in db'.approvals
               && (ApprovalReadable(rules, db'.approvals[id]) <==> ReadsBack(rules, target, actor, reason))
  {
    hide *;
    var row := db.approvals[id];
    var row', p := DecidedRow(row, target, now, actor, reason), DecisionEvent(id, row, target, now, actor, auditId);
    CoherentCount(rules, db, id);
    DecisionParts(id, row, target, now, actor, reason, auditId);
    CoherentRows(rules, db, id);
    DecideIs(rules, db, id, row', p);
    AppendsAtEnd(rules, db, WithRow(db, id, row'), p);
    WrittenIs(rules, db, id, row', p);
    WrittenRow(rules, db, id, row', p);
    var stored := Written(rules, db, id, row', p).approvals[id];
    DecidedRowReadable(rules, row, target, now, actor, reason, stored.count, stored.head);
  }

  lemma DecisionParts(id: string, row: ApprovalRow, target: ApprovalStatus, now: DateTime, actor: string,
                      reason: Option<string>, auditId: string)
    requires target in {Approved, Rejected}
    ensures Decided(row, DecidedRow(row, target, now, actor, reason), target, now, actor, reason)
    ensures var p := DecisionEvent(id, row, target, now, actor, auditId);
            && p.approvalId == id && p.id == auditId && p.actor == actor && p.sequence == row.count + 1
            && About(p, id, row.count + 1, if target == Approved then ApprovalApproved else ApprovalRejected, target,
                     actor, now, auditId)
  {
  }

  lemma DecideIs(rules: Rules, db: Db, id: string, row: ApprovalRow, p: AuditPayload)
    requires id in db.approvals
    ensures DecideTx(rules, db, id, row, p) == Append(rules, WithRow(db, id, row), p, db.approvals[id].head)
    ensures WithRow(db, id, row).events == db.events && WithRow(db, id, row).auditIds == db.auditIds
    ensures id in WithRow(db, id, row).approvals
  {
    hide Append;
  }

  lemma WrittenRow(rules: Rules, db: Db, id: string, row: ApprovalRow, p: AuditPayload)
    ensures var db' := Written(rules, db, id, row, p);
            id in db'.approvals && db'.approvals[id] ==
              row.(count := db'.approvals[id].count, head := db'.approvals[id].head)
  {
    hide EventsOf;
  }

  lemma DecidedRowReadable(rules: Rules, row: ApprovalRow, target: ApprovalStatus, now: DateTime, actor: string,
                           reason: Option<string>, count: int, head: Digest)
    requires RowSound(rules, row) && target in {Approved, Rejected}
    ensures var row' := DecidedRow(row, target, now, actor, reason).(count := count, head := head);
            row'.status == target && (ApprovalReadable(rules, row') <==> ReadsBack(rules, target, actor, reason))
  {
    hide ValidActor, ReadableReason;
  }

  // ---------------------------------------------------------------- claim

  lemma ClaimOutcome(rules: Rules, db: Db, id: string, now: DateTime, actor: string, executionId: string,
                     auditId: string, auditId': string)
    requires Inv(rules, db)
    ensures var (db', r) := ClaimTx(rules, db, id, now, actor, executionId, auditId, auditId');
            if id !in db.approvals then db' == db && r == Err(ApprovalNotFound)
            else
              var row, n := db.approvals[id], |EventsOf(db, id)|;
              if n > 1_000_000 then db' == db && r == Err(ExecutionIntegrity)
              else if row.status == Expired || !Before(now, row.expiresAt) then
                db' == db && r == Err(ExecutionApprovalLapsed)
              else if row.status != Approved then db' == db && r == Err(NotApproved)
              else if row.terms.action != AddContactTag then db' == db && r == Err(ActionNotAllowed)
              else if id in db.executionOf then
                && db' == db && db.executionOf[id] in db.executions
                && r == if db.executions[db.executionOf[id]].body.status == Claimed then Err(AlreadyClaimed)
                        else Err(AlreadyCompleted)
              else if executionId in db.executions || auditId in db.auditIds || auditId' in db.auditIds
                      || auditId == auditId' || !StorableActor(actor)
              then db' == db && r == Err(ExecutionConflict)
              else
                && row.terms.parameters.Some?
                && var parameters := row.terms.parameters.value;
                   var body := ExecutionBody(executionId, id, row.terms.eventId, parameters, Claimed, now, now, None,
                                             None, row.provenanceHash, "1.0", actor, rules.parameters(parameters));
                   var authorized := AuditPayload(auditId, id, Some(executionId), Some(row.terms.eventId), None, None,
                                                  n + 1, ExecutionAuthorized, PendingName, actor, now);
                   var claimed := AuditPayload(auditId', id, Some(executionId), Some(row.terms.eventId), None, None,
                                               n + 2, ExecutionClaimed, ClaimedName, actor, now);
                   var inserted := db.(executions :=
                                         db.executions[executionId := ExecutionRow(body, rules.execution(body))],
                                       executionOf := db.executionOf[id := executionId]);
                   && db' == Written(rules, Written(rules, inserted, id, row, authorized), id, row, claimed)
                   && r == if ValidActor(actor) then Ok(Claim(body, row)) else Err(ExecutionIntegrity)
  {
    hide Inv, Inspect, ApprovalSoundness, RecordClaim, AfterClaim, StorableActor, ValidActor, Written;
    if id in db.approvals {
      var row := db.approvals[id];
      ClaimGuards(rules, db, id, now);
      hide ClaimRefusal;
      if ClaimRefusal(rules, row, EventsOf(db, id), now).None? && id !in db.executionOf
         && executionId !in db.executions
      {
        var p := row.terms.parameters.value;
        ClaimEffect(rules, db, id, p, now, actor, executionId, auditId, auditId');
        CoherentCount(rules, db, id);
        ClaimWrites(rules, db, id, ClaimedBody(rules, id, row, p, executionId, now, actor), auditId, auditId');
      }
    }
  }

  lemma CoherentCount(rules: Rules, db: Db, id: string)
    requires Inv(rules, db) && id in db.approvals
    ensures db.approvals[id].count == |EventsOf(db, id)|
  {
    CoherentLinked(rules, db, id);
    hide Inv, Linked, DistinctIds, KnownActors;
  }

  /** Why an approval may not be claimed, on coherent tables. */
  lemma ClaimGuards(rules: Rules, db: Db, id: string, now: DateTime)
    requires Inv(rules, db) && id in db.approvals
    ensures var row := db.approvals[id];
            && ClaimRefusal(rules, row, EventsOf(db, id), now) ==
               (if |EventsOf(db, id)| > 1_000_000 then Some(ExecutionIntegrity)
                else if row.status == Expired || !Before(now, row.expiresAt) then Some(ExecutionApprovalLapsed)
                else if row.status != Approved then Some(NotApproved)
                else if row.terms.action != AddContactTag then Some(ActionNotAllowed)
                else None)
            && (row.terms.action == AddContactTag ==> row.terms.parameters.Some?)
            && row.terms.policyVersion == "1.0"
            && (id in db.executionOf ==> db.executionOf[id] in db.executions)
  {
    hide Inv, Inspect, ApprovalSoundness, EventsIndexed, EventsOf, ValidActor, ReadableReason;
    ApprovalAccepted(rules, db, id);
    CoherentRows(rules, db, id);
    TablesIndexed(rules, db);
  }

  lemma ClaimWrites(rules: Rules, db: Db, id: string, body: ExecutionBody, auditId: string, auditId': string)
    requires id in db.approvals && db.approvals[id].count == |EventsOf(db, id)| && body.approvalId == id
    ensures var row, n := db.approvals[id], |EventsOf(db, id)|;
            var inserted := db.(executions :=
                                  db.executions[body.executionId := ExecutionRow(body, rules.execution(body))],
                                executionOf := db.executionOf[id := body.executionId]);
            AfterClaim(rules, db, id, body, auditId, auditId') ==
            Written(rules,
                    Written(rules, inserted, id, row,
                            AuditPayload(auditId, id, Some(body.executionId), Some(row.terms.eventId), None, None,
                                         n + 1, ExecutionAuthorized, PendingName, body.actor, body.claimedAt)),
                    id, row,
                    AuditPayload(auditId', id, Some(body.executionId), Some(row.terms.eventId), None, None, n + 2,
                                 ExecutionClaimed, ClaimedName, body.actor, body.claimedAt))
  {
    var row := db.approvals[id];
    var mid := Inserted(rules, db, id, body.executionId, body);
    var p, p' := AuthorizeEvent(id, row, body, auditId), ClaimEvent(id, row, body, auditId');
    assert WithRow(mid, id, row) == mid;
    WrittenIs(rules, mid, id, row, p);
    var first := Written(rules, mid, id, row, p);
    assert |EventsOf(first, id)| == |EventsOf(db, id)| + 1;
    WrittenIs(rules, first, id, first.approvals[id], p');
    assert WithRow(first, id, first.approvals[id]) == first;
    assert Written(rules, first, id, first.approvals[id], p') == Written(rules, first, id, row, p');
    hide Appended, Written;
  }

  // ---------------------------------------------------------------- complete

  lemma CompleteOutcome(rules: Rules, db: Db, executionId: string, target: ExecutionStatus, now: DateTime,
                        failure: Option<FailureCategory>, auditId: string)
    requires Inv(rules, db)
    ensures var (db', r) := CompleteTx(rules, db, executionId, target, now, failure, auditId);
            if target == Prepared || target == Claimed || (target == Succeeded <==> failure.Some?)
            then db' == db && r == Err(ExecutionConflict)
            else if executionId !in db.executions then db' == db && r == Err(ExecutionNotFound)
            else
              var x := db.executions[executionId];
              && x.body.approvalId in db.approvals
              && var row, n := db.approvals[x.body.approvalId], |EventsOf(db, x.body.approvalId)|;
                 if n > 1_000_000 then db' == db && r == Err(ExecutionIntegrity)
                 else if x.body.status != Claimed then db' == db && r == Err(AlreadyCompleted)
                 else if auditId in db.auditIds then db' == db && r == Err(ExecutionPersistence)
                 else
                   var body := x.body.(status := target, completedAt := Some(now), failure := failure);
                   var updated := db.(executions :=
                                        db.executions[executionId := ExecutionRow(body, rules.execution(body))]);
                   && r == Ok(body)
                   && (target == Succeeded ==>
                         db' == Written(rules, updated, body.approvalId, row,
                                        AuditPayload(auditId, body.approvalId, Some(executionId),
                                                     Some(row.terms.eventId), None, None, n + 1, ExecutionSucceeded,
                                                     SucceededName, body.actor, now)))
                   && (target == Failed ==>
                         db' == Written(rules, updated, body.approvalId, row,
                                        AuditPayload(auditId, body.approvalId, Some(executionId),
                                                     Some(row.terms.eventId), failure, None, n + 1, ExecutionFailed,
                                                     FailedName, body.actor, now)))
                   && (target == Unknown ==>
                         db' == Written(rules, updated, body.approvalId, row,
                                        AuditPayload(auditId, body.approvalId, Some(executionId),
                                                     Some(row.terms.eventId), failure, None, n + 1, ExecutionUnknown,
                                                     UnknownName, body.actor, now)))
  {
    hide Inv, ExecutionFault, Append, AfterComplete, Written;
    if executionId in db.executions {
      ExecutionAccepted(rules, db, executionId, ExecutionIntegrity);
      if Terminal(target) && (target == Succeeded) == failure.None?
         && db.executions[executionId].body.status == Claimed
      {
        CompleteEffect(rules, db, executionId, target, now, failure, auditId);
        CompleteWrites(rules, db, executionId, target, now, failure, auditId);
      }
    }
  }

  lemma SameEvents(db: Db, mid: Db, id: string)
    requires mid.events == db.events
    ensures EventsOf(mid, id) == EventsOf(db, id)
  {
  }

  lemma CompleteWrites(rules: Rules, db: Db, executionId: string, target: ExecutionStatus, now: DateTime,
                       failure: Option<FailureCategory>, auditId: string)
    requires Inv(rules, db) && executionId in db.executions
    requires db.executions[executionId].body.approvalId in db.approvals
    requires db.executions[executionId].body.executionId == executionId
    ensures var b := db.executions[executionId].body;
            var row := db.approvals[b.approvalId];
            var body := b.(status := target, completedAt := Some(now), failure := failure);
            AfterComplete(rules, db, executionId, target, now, failure, auditId) ==
            Written(rules,
                    db.(executions := db.executions[executionId := ExecutionRow(body, rules.execution(body))]),
                    b.approvalId, row,
                    AuditPayload(auditId, b.approvalId, Some(executionId), Some(row.terms.eventId), failure, None,
                                 |EventsOf(db, b.approvalId)| + 1, OutcomeKind(target), ExecutionStatusName(target),
                                 b.actor, now))
  {
    var x := db.executions[executionId];
    var row := db.approvals[x.body.approvalId];
    hide Inv, Written, Appended, EventsOf, OutcomeKind, ExecutionStatusName;
    CoherentCount(rules, db, x.body.approvalId);
    var mid := Updated(db, executionId, ExecutionRowOf(rules, FinishedBody(x.body, target, now, failure)));
    SameEvents(db, mid, x.body.approvalId);
    WrittenSame(rules, mid, x.body.approvalId, OutcomeEvent(row, x.body, target, now, failure, auditId));
  }

  // ---------------------------------------------------------------- reconcile

  lemma ReconcileOutcome(rules: Rules, db: Db, executionId: string, outcome: DeclaredOutcome, reason: string,
                         now: DateTime, actor: string, assessmentId: string, auditId: string)
    requires Inv(rules, db)
    ensures var (db', r) := ReconcileTx(rules, db, executionId, outcome, reason, now, actor, assessmentId, auditId);
            if executionId !in db.executions then db' == db && r == Err(ExecutionNotFound)
            else
              var x := db.executions[executionId];
              var id := x.body.approvalId;
              && id in db.approvals
              && var row, n := db.approvals[id], |EventsOf(db, id)|;
                 if n > 1_000_000 then db' == db && r == Err(ReconciliationIntegrity)
                 else if x.body.status != Unknown then db' == db && r == Err(NotReconciliable)
                 else if || executionId in db.assessments || assessmentId in db.assessmentIds
                         || auditId in db.auditIds || !StorableReason(reason) || !StorableActor(actor)
                 then db' == db && r == Err(AlreadyAssessed)
                 else
                   var body := AssessmentBody(assessmentId, executionId, id, x.body.provenanceHash,
                                              x.body.policyVersion, x.integrityHash, actor, now, outcome, reason);
                   var hash := rules.assessment(body, ZEROS);
                   var assessed := db.(assessments :=
                                         db.assessments[executionId := AssessmentRow(body, ZEROS, hash)],
                                       assessmentIds := db.assessmentIds + {assessmentId});
                   && db' == Written(rules, assessed, id, row,
                                     AuditPayload(auditId, id, Some(executionId), Some(x.body.eventId), None,
                                                  Some(hash), n + 1, ReconciliationRecorded, UnknownName, actor, now))
                   && r == if ValidActor(actor) && ReadableAssessmentReason(reason) then Ok(body)
                           else Err(ReconciliationIntegrity)
  {
    hide Inv, ExecutionFault, Append, AfterAssess, ReadAssessment, StorableActor, StorableReason, Written, ValidActor,
         ReadableAssessmentReason;
    if executionId in db.executions {
      var x := db.executions[executionId];
      var y := Assess(rules, executionId, x, assessmentId, outcome, reason, now, actor);
      ExecutionAccepted(rules, db, executionId, ReconciliationIntegrity);
      AssessAppends(rules, db, executionId, y, auditId);
      ReconcileWrites(rules, db, executionId, y, auditId);
      GenesisIsZeros();
      if |EventsOf(db, x.body.approvalId)| <= 1_000_000 && x.body.status == Unknown {
        AssessedReads(rules, db, executionId, outcome, reason, now, actor, assessmentId, auditId);
      }
    }
  }

  lemma ReconcileWrites(rules: Rules, db: Db, executionId: string, y: AssessmentRow, auditId: string)
    requires Inv(rules, db) && executionId in db.executions
    requires db.executions[executionId].body.approvalId in db.approvals
    ensures var x := db.executions[executionId];
            var row := db.approvals[x.body.approvalId];
            AfterAssess(rules, db, executionId, y, auditId) ==
            Written(rules,
                    db.(assessments := db.assessments[executionId := y],
                        assessmentIds := db.assessmentIds + {y.body.assessmentId}),
                    x.body.approvalId, row,
                    AuditPayload(auditId, x.body.approvalId, Some(executionId), Some(x.body.eventId), None,
                                 Some(y.hash), |EventsOf(db, x.body.approvalId)| + 1, ReconciliationRecorded,
                                 UnknownName, y.body.actor, y.body.at))
  {
    var x := db.executions[executionId];
    var row := db.approvals[x.body.approvalId];
    hide Inv, Written, Appended, EventsOf;
    CoherentCount(rules, db, x.body.approvalId);
    SameEvents(db, Assessed(db, executionId, y), x.body.approvalId);
    WrittenSame(rules, Assessed(db, executionId, y), x.body.approvalId,
                AssessmentEvent(executionId, row, x, auditId, y.body.actor, y.body.at, y.hash));
  }

  lemma PolicyOf(rules: Rules, db: Db, executionId: string)
    requires Inv(rules, db) && executionId in db.executions
    ensures db.executions[executionId].body.policyVersion == POLICY_VERSION
  {
    hide Inv;
    ExecutionRows(rules, db, executionId);
  }

  /** The assessment just stored is read back exactly for texts its model accepts. */
  lemma AssessedReads(rules: Rules, db: Db, executionId: string, outcome: DeclaredOutcome, reason: string,
                      now: DateTime, actor: string, assessmentId: string, auditId: string)
    requires Inv(rules, db) && executionId in db.executions && db.executions[executionId].body.status == Unknown
    requires db.executions[executionId].body.approvalId in db.approvals
    ensures var y := Assess(rules, executionId, db.executions[executionId], assessmentId, outcome, reason, now, actor);
            ReadAssessment(rules, AfterAssess(rules, db, executionId, y, auditId), executionId) ==
            if ValidActor(actor) && ReadableAssessmentReason(reason) then Ok(y.body) else Err(ReconciliationIntegrity)
  {
    hide Inv, ValidActor, ReadableAssessmentReason, EventsOf, NextEvent, LinkAt;
    PolicyOf(rules, db, executionId);
  }
}
