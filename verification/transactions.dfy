/**
 The repository operations as functions on the committed tables.

 Each operation is one `BEGIN IMMEDIATE` transaction, so its effect is a function of the tables
 it starts from, of the clock value and random identifiers it draws, and of its arguments.
 Nothing is assumed about clocks or identifiers: a repeated identifier is refused by a key.
 `audit_trail.dfy` supplies the verifier each operation runs first.
 */
module Transactions {
  import opened Prelude
  import opened Timestamps
  import opened Texts
  import opened Records
  import opened AuditTrail

  datatype Fault =
    | ApprovalNotFound | ApprovalLapsedFault | InvalidState | ProvenanceIntegrity | ApprovalConflict
    | ApprovalPersistence
    | ExecutionIntegrity | ProvenanceInvalid | ExecutionApprovalLapsed | NotApproved | ActionNotAllowed
    | AlreadyClaimed | AlreadyCompleted | ExecutionNotFound | NotReconciliable | AlreadyAssessed
    | ReconciliationIntegrity | ExecutionConflict | ExecutionPersistence

  /**
   The four tables.  `events` lists the rows of one approval in `ORDER BY sequence_number`;
   `auditIds`, `executionOf` and `assessmentIds` are the indexes of the remaining
   PRIMARY KEY and UNIQUE constraints.
   */
  datatype Db = Db(
    approvals: map<string, ApprovalRow>,
    events: map<string, seq<AuditEvent>>,
    auditIds: set<string>,
    executions: map<string, ExecutionRow>,
    executionOf: map<string, string>,
    assessments: map<string, AssessmentRow>,
    assessmentIds: set<string>)

  const EMPTY_DB := Db(map[], map[], {}, map[], map[], map[], {})

  function EventsOf(db: Db, id: string): seq<AuditEvent> {
    if id in db.events then db.events[id] else []
  }

  // ---------------------------------------------------------------- appending an audit event

  predicate SequenceTaken(events: seq<AuditEvent>, sequence: int) {
    exists i | 0 <= i < |events| :: events[i].payload.sequence == sequence
  }

  /** Where a new row appears in `ORDER BY sequence_number`. */
  function InsertBySequence(events: seq<AuditEvent>, e: AuditEvent): seq<AuditEvent> {
    if events == [] || events[|events| - 1].payload.sequence < e.payload.sequence then events + [e]
    else InsertBySequence(events[..|events| - 1], e) + [events[|events| - 1]]
  }

  /**
   INSERT of the event and UPDATE of the approval's count and head; `None` when a key or the
   length check on the actor refuses.
   */
  function Append(rules: Rules, db: Db, p: AuditPayload, prev: Digest): Option<Db> {
    var events := EventsOf(db, p.approvalId);
    if p.approvalId !in db.approvals || p.id in db.auditIds || SequenceTaken(events, p.sequence)
      || !StorableActor(p.actor) then None
    else
      var e := NextEvent(rules, p, prev);
      Some(db.(
        events := db.events[p.approvalId := InsertBySequence(events, e)],
        auditIds := db.auditIds + {p.id},
        approvals := db.approvals[p.approvalId := db.approvals[p.approvalId].(count := p.sequence, head := e.hash)]))
  }

  function ApprovalEvent(id: string, row: ApprovalRow, auditId: string, kind: AuditKind, status: ApprovalStatus,
                         actor: string, at: DateTime): AuditPayload
  {
    AuditPayload(auditId, id, None, None, None, None, row.count + 1, kind, ApprovalStatusName(status), actor, at)
  }

  function ExecutionEvent(id: string, row: ApprovalRow, executionId: string, auditId: string, kind: AuditKind,
                          status: ExecutionStatus, actor: string, at: DateTime,
                          failure: Option<FailureCategory>): AuditPayload
  {
    AuditPayload(auditId, id, Some(executionId), Some(row.terms.eventId), failure, None, row.count + 1, kind,
                 ExecutionStatusName(status), actor, at)
  }

  // ---------------------------------------------------------------- verification before use

  datatype Soundness = Sound | Tampered | Malformed

  /** `_verify_integrity`: the chain, then the provenance document, then the row against it. */
  function ApprovalSoundness(rules: Rules, row: ApprovalRow, events: seq<AuditEvent>): Soundness {
    match Inspect(rules, events, row.count, row.head)
    case Broken => Tampered
    case Unreadable => Malformed
    case Intact =>
      if !ProvenanceReadable(row.provenance) then Malformed
      else if rules.provenance(row.provenance) != row.provenanceHash then Tampered
      else if !ApprovalReadable(rules, row) then Malformed
      else if row.provenance.terms != row.terms || row.terms.decision != RequireHumanApproval then Tampered
      else Sound
  }

  predicate ExecutionMatches(rules: Rules, x: ExecutionRow, row: ApprovalRow) {
    && rules.execution(x.body) == x.integrityHash
    && rules.parameters(x.body.parameters) == x.body.parametersHash
    && row.terms.parameters == Some(x.body.parameters)
    && row.provenanceHash == x.body.provenanceHash
    && row.terms.policyVersion == x.body.policyVersion
    && row.terms.action == AddContactTag
  }

  /**
   `_verify_execution`: `None` when it accepts.  The audit rows are selected twice; `malformed`
   is what the caller turns a failed model validator into.
   */
  function ExecutionFault(rules: Rules, x: ExecutionRow, row: ApprovalRow, first: seq<AuditEvent>,
                          second: seq<AuditEvent>,
                          malformed: Fault): Option<Fault>
  {
    match Inspect(rules, first, row.count, row.head)
    case Broken => Some(ExecutionIntegrity)
    case Unreadable => Some(malformed)
    case Intact =>
      match ApprovalSoundness(rules, row, second)
      case Tampered => Some(ProvenanceInvalid)
      case Malformed => Some(malformed)
      case Sound =>
        if !ExecutionReadable(x.body) then Some(malformed)
        else if !ExecutionMatches(rules, x, row) then Some(ExecutionIntegrity)
        else None
  }

  // ---------------------------------------------------------------- approvals

  /** What the approval service hands to `create`. */
  datatype Draft = Draft(
    approvalId: string, terms: Terms, status: ApprovalStatus, createdAt: DateTime, expiresAt: DateTime,
    provenance: Provenance, provenanceHash: Digest)

  function DraftRow(d: Draft): ApprovalRow {
    ApprovalRow(d.approvalId, d.terms, d.status, d.createdAt, d.expiresAt, None, None, None, d.provenance,
                d.provenanceHash, 0, GENESIS)
  }

  function CreateTx(rules: Rules, db: Db, d: Draft, now: DateTime, actor: string, auditId: string): (Db, Result<Draft,
      Fault>) {
    if d.approvalId in db.approvals || d.terms.policyVersion != POLICY_VERSION
      || d.terms.decision != RequireHumanApproval
    then (db, Err(ApprovalConflict))
    else
      var row := DraftRow(d);
      match Append(rules, db.(approvals := db.approvals[d.approvalId := row]),
                   CreatedEvent(d, now, actor, auditId), GENESIS)
      case None => (db, Err(ApprovalConflict))
      case Some(db') => (db', Ok(d))
  }

  function CreatedEvent(d: Draft, now: DateTime, actor: string, auditId: string): AuditPayload {
    ApprovalEvent(d.approvalId, DraftRow(d), auditId, ApprovalCreated, Pending, actor, now)
  }

  function ExpireEvent(id: string, row: ApprovalRow, now: DateTime, auditId: string): AuditPayload {
    ApprovalEvent(id, row, auditId, ApprovalExpired, Expired, SYSTEM_ACTOR, now)
  }

  function RefuseEvent(id: string, row: ApprovalRow, now: DateTime, actor: string, auditId: string): AuditPayload {
    ApprovalEvent(id, row, auditId, TransitionRejected, row.status, actor, now)
  }

  function DecisionEvent(id: string, row: ApprovalRow, target: ApprovalStatus, now: DateTime, actor: string,
                         auditId: string): AuditPayload {
    ApprovalEvent(id, row, auditId, DecisionKind(target), target, actor, now)
  }

  predicate Lapsed(row: ApprovalRow, now: DateTime) {
    !Before(now, row.expiresAt)
  }

  /** The row update and its event, together or not at all. */
  function DecideTx(rules: Rules, db: Db, id: string, decided: ApprovalRow, p: AuditPayload): Option<Db>
    requires id in db.approvals
  {
    Append(rules, db.(approvals := db.approvals[id := decided]), p, db.approvals[id].head)
  }

  function ExpiredRow(row: ApprovalRow, now: DateTime): ApprovalRow {
    row.(status := Expired, decidedAt := Some(now))
  }

  function ExpireTx(rules: Rules, db: Db, id: string, now: DateTime, auditId: string): Option<Db>
    requires id in db.approvals
  {
    var row := db.approvals[id];
    DecideTx(rules, db, id, ExpiredRow(row, now), ExpireEvent(id, row, now, auditId))
  }

  function GetTx(rules: Rules, db: Db, id: string, now: DateTime, auditId: string): (Db, Result<ApprovalRow, Fault>) {
    if id !in db.approvals then (db, Err(ApprovalNotFound))
    else
      var row := db.approvals[id];
      if ApprovalSoundness(rules, row, EventsOf(db, id)) != Sound then (db, Err(ProvenanceIntegrity))
      else if row.status == Pending && Lapsed(row, now) then
        match ExpireTx(rules, db, id, now, auditId)
        case None => (db, Err(ApprovalPersistence))
        case Some(db') => (db', Ok(db'.approvals[id]))
      else (db, Ok(row))
  }

  function DecidedRow(row: ApprovalRow, target: ApprovalStatus, now: DateTime, actor: string,
                      reason: Option<string>): ApprovalRow {
    row.(status := target, decidedAt := Some(now), approver := Some(actor),
         reason := if target == Rejected then reason else None)
  }

  /** What the approval model asks of the texts of a decision. */
  predicate ReadsBack(rules: Rules, target: ApprovalStatus, actor: string, reason: Option<string>) {
    ValidActor(actor) && (target == Rejected ==> reason.Some? && ReadableReason(rules.unsafeReason, reason.value))
  }

  function DecisionKind(target: ApprovalStatus): AuditKind {
    if target == Approved then ApprovalApproved else ApprovalRejected
  }

  /** A length check may refuse the reason; the committed row is read back once more, after the commit. */
  function TransitionTx(rules: Rules, db: Db, id: string, target: ApprovalStatus, now: DateTime, actor: string,
                        reason: Option<string>, auditId: string): (Db, Result<ApprovalRow, Fault>)
  {
    if target !in {Approved, Rejected} then (db, Err(InvalidState))
    else if id !in db.approvals then (db, Err(ApprovalNotFound))
    else
      var row := db.approvals[id];
      if ApprovalSoundness(rules, row, EventsOf(db, id)) != Sound then (db, Err(ProvenanceIntegrity))
      else if row.status == Pending && Lapsed(row, now) then
        match ExpireTx(rules, db, id, now, auditId)
        case None => (db, Err(ApprovalPersistence))
        case Some(db') => (db', Err(ApprovalLapsedFault))
      else if row.status != Pending then
        match Append(rules, db, RefuseEvent(id, row, now, actor, auditId), row.head)
        case None => (db, Err(ApprovalPersistence))
        case Some(db') => (db', Err(InvalidState))
      else if target == Rejected && reason.Some? && !StorableReason(reason.value) then (db, Err(ApprovalPersistence))
      else
        match DecideTx(rules, db, id, DecidedRow(row, target, now, actor, reason),
                       DecisionEvent(id, row, target, now, actor, auditId))
        case None => (db, Err(ApprovalPersistence))
        case Some(db') =>
          if ApprovalReadable(rules, db'.approvals[id]) then (db', Ok(db'.approvals[id]))
          else (db', Err(ProvenanceIntegrity))
  }

  // ---------------------------------------------------------------- executions

  function ClaimedBody(rules: Rules, id: string, row: ApprovalRow, p: Parameters, executionId: string, now: DateTime,
                       actor: string): ExecutionBody {
    ExecutionBody(executionId, id, row.terms.eventId, p, Claimed, now, now, None, None, row.provenanceHash,
                  row.terms.policyVersion, actor, rules.parameters(p))
  }

  function ExecutionRowOf(rules: Rules, body: ExecutionBody): ExecutionRow {
    ExecutionRow(body, rules.execution(body))
  }

  function Inserted(rules: Rules, db: Db, id: string, executionId: string, body: ExecutionBody): Db {
    db.(executions := db.executions[executionId := ExecutionRowOf(rules, body)],
        executionOf := db.executionOf[id := executionId])
  }

  /** The two events of a claim, the second at the head the first one left. */
  function RecordClaim(rules: Rules, db: Db, id: string, body: ExecutionBody, auditId: string,
                       auditId': string): Option<Db>
    requires id in db.approvals
  {
    var row := db.approvals[id];
    var p := ExecutionEvent(id, row, body.executionId, auditId, ExecutionAuthorized, Prepared, body.actor,
                              body.claimedAt, None);
    match Append(rules, db, p, row.head)
    case None => None
    case Some(authorized) =>
      var row' := authorized.approvals[id];
      var p' := ExecutionEvent(id, row', body.executionId, auditId', ExecutionClaimed, Claimed, body.actor,
                                body.claimedAt, None);
      Append(rules, authorized, p', row'.head)
  }

  datatype Claim = Claim(execution: ExecutionBody, approval: ApprovalRow)

  /** Why an approval may not be claimed, before the uniqueness of the execution is looked at. */
  function ClaimRefusal(rules: Rules, row: ApprovalRow, events: seq<AuditEvent>, now: DateTime): Option<Fault> {
    if Inspect(rules, events, row.count, row.head) != Intact then Some(ExecutionIntegrity)
    else if ApprovalSoundness(rules, row, events) != Sound then Some(ProvenanceInvalid)
    else if row.status == Expired || Lapsed(row, now) then Some(ExecutionApprovalLapsed)
    else if row.status != Approved then Some(NotApproved)
    else if row.terms.policyVersion != POLICY_VERSION || row.terms.action != AddContactTag || row.terms.parameters.None?
    then Some(ActionNotAllowed)
    else None
  }

  /**
   The claimed row and its two adjacent events appear together; no PENDING row is ever committed.
   The committed row is read back, which fails for an actor the execution model refuses.
   */
  function ClaimTx(rules: Rules, db: Db, id: string, now: DateTime, actor: string, executionId: string,
                   auditId: string, auditId': string): (Db, Result<Claim, Fault>)
  {
    if id !in db.approvals then (db, Err(ApprovalNotFound))
    else
      var row := db.approvals[id];
      var refusal := ClaimRefusal(rules, row, EventsOf(db, id), now);
      if refusal.Some? then (db, Err(refusal.value))
      else if id in db.executionOf then
        if db.executionOf[id] in db.executions && db.executions[db.executionOf[id]].body.status == Claimed
        then (db, Err(AlreadyClaimed)) else (db, Err(AlreadyCompleted))
      else if executionId in db.executions then (db, Err(ExecutionConflict))
      else
        var body := ClaimedBody(rules, id, row, row.terms.parameters.value, executionId, now, actor);
        match RecordClaim(rules, Inserted(rules, db, id, executionId, body), id, body, auditId, auditId')
        case None => (db, Err(ExecutionConflict))
        case Some(db') => (db', if ExecutionReadable(body) then Ok(Claim(body, row)) else Err(ExecutionIntegrity))
  }

  function OutcomeKind(target: ExecutionStatus): AuditKind {
    match target
    case Succeeded => ExecutionSucceeded
    case Failed => ExecutionFailed
    case _ => ExecutionUnknown
  }

  function FinishedBody(b: ExecutionBody, target: ExecutionStatus, now: DateTime,
                        failure: Option<FailureCategory>): ExecutionBody {
    b.(status := target, completedAt := Some(now), failure := failure)
  }

  function CompleteTx(rules: Rules, db: Db, executionId: string, target: ExecutionStatus, now: DateTime,
                      failure: Option<FailureCategory>, auditId: string): (Db, Result<ExecutionBody, Fault>)
  {
    if !Terminal(target) || (target == Succeeded) != failure.None? then (db, Err(ExecutionConflict))
    else if executionId !in db.executions then (db, Err(ExecutionNotFound))
    else
      var x := db.executions[executionId];
      var id := x.body.approvalId;
      if id !in db.approvals then (db, Err(ApprovalNotFound))
      else
        var row := db.approvals[id];
        var fault := ExecutionFault(rules, x, row, EventsOf(db, id), EventsOf(db, id), ExecutionIntegrity);
        if fault.Some? then (db, Err(fault.value))
        else if x.body.status != Claimed then (db, Err(AlreadyCompleted))
        else
          var body := FinishedBody(x.body, target, now, failure);
          var updated := db.(executions := db.executions[executionId := ExecutionRowOf(rules, body)]);
          match Append(rules, updated,
                       ExecutionEvent(id, row, executionId, auditId, OutcomeKind(target), target, x.body.actor, now,
                                      failure), row.head)
          case None => (db, Err(ExecutionPersistence))
          case Some(db') => (db', Ok(body))
  }

  function AssessmentEvent(executionId: string, row: ApprovalRow, x: ExecutionRow, auditId: string, actor: string,
                           at: DateTime, hash: Digest): AuditPayload
  {
    AuditPayload(auditId, x.body.approvalId, Some(executionId), Some(x.body.eventId), None, Some(hash), row.count + 1,
                 ReconciliationRecorded, UnknownName, actor, at)
  }

  function Assess(rules: Rules, executionId: string, x: ExecutionRow, assessmentId: string, outcome: DeclaredOutcome,
                  reason: string,
                  now: DateTime, actor: string): AssessmentRow
  {
    var body := AssessmentBody(assessmentId, executionId, x.body.approvalId, x.body.provenanceHash,
                               x.body.policyVersion,
                               x.integrityHash, actor, now, outcome, reason);
    AssessmentRow(body, GENESIS, rules.assessment(body, GENESIS))
  }

  /** What the assessment model asks of the texts of an assessment. */
  predicate ReadableAssessment(actor: string, reason: string) {
    ValidActor(actor) && ReadableAssessmentReason(reason)
  }

  /** `get_reconciliation` on one state of the tables. */
  function ReadAssessment(rules: Rules, db: Db, executionId: string): Result<AssessmentBody, Fault> {
    if executionId !in db.assessments then Err(ExecutionNotFound)
    else
      var y := db.assessments[executionId];
      if !AssessmentReadable(y.body) then Err(ReconciliationIntegrity)
      else if executionId !in db.executions then Err(ExecutionNotFound)
      else
        var x := db.executions[executionId];
        if || rules.assessment(y.body, y.prev) != y.hash
           || y.prev != GENESIS
           || x.body.status != Unknown
           || x.integrityHash != y.body.originalHash
           || x.body.provenanceHash != y.body.provenanceHash
        then Err(ReconciliationIntegrity)
        else Ok(y.body)
  }

  function ReconcileTx(rules: Rules, db: Db, executionId: string, outcome: DeclaredOutcome, reason: string,
                       now: DateTime,
                       actor: string, assessmentId: string, auditId: string): (Db, Result<AssessmentBody, Fault>)
  {
    if executionId !in db.executions then (db, Err(ExecutionNotFound))
    else
      var x := db.executions[executionId];
      var id := x.body.approvalId;
      if id !in db.approvals then (db, Err(ApprovalNotFound))
      else
        var row := db.approvals[id];
        var fault := ExecutionFault(rules, x, row, EventsOf(db, id), EventsOf(db, id), ReconciliationIntegrity);
        if fault.Some? then (db, Err(fault.value))
        else if x.body.status != Unknown then (db, Err(NotReconciliable))
        else if executionId in db.assessments || assessmentId in db.assessmentIds || !StorableReason(reason)
        then (db, Err(AlreadyAssessed))
        else
          var y := Assess(rules, executionId, x, assessmentId, outcome, reason, now, actor);
          var inserted := db.(assessments := db.assessments[executionId := y],
                              assessmentIds := db.assessmentIds + {assessmentId});
          match Append(rules, inserted, AssessmentEvent(executionId, row, x, auditId, actor, now, y.hash), row.head)
          case None => (db, Err(AlreadyAssessed))
          case Some(db') => (db', ReadAssessment(rules, db', executionId))
  }

  /** `get_execution` when its three reads see one state of the tables. */
  function ReadExecution(rules: Rules, db: Db, executionId: string): Result<ExecutionBody, Fault> {
    if executionId !in db.executions then Err(ExecutionNotFound)
    else
      var x := db.executions[executionId];
      if x.body.approvalId !in db.approvals then Err(ApprovalNotFound)
      else
        var events := EventsOf(db, x.body.approvalId);
        match ExecutionFault(rules, x, db.approvals[x.body.approvalId], events, events, ExecutionIntegrity)
        case Some(fault) => Err(fault)
        case None => Ok(x.body)
  }
}
