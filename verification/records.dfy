/** Rows of the four business tables, their enumerations, and the digests that commit to them. */
module Records {
  import opened Prelude
  import opened Timestamps
  import opened Texts

  function Zeros(n: nat): (s: string)
    ensures |s| == n
  {
    if n == 0 then "" else Zeros(n - 1) + "0"
  }

  lemma {:induction false} ZerosAre(n: nat)
    ensures forall i | 0 <= i < n :: Zeros(n)[i] == '0'
  {
    if n > 0 {
      ZerosAre(n - 1);
    }
  }

  /** A SHA-256 digest in hexadecimal: only its fixed length matters. */
  type Digest = s: string | |s| == 64 witness Zeros(64)

  const GENESIS: Digest := Zeros(64)
  const POLICY_VERSION: string := "1.0"
  const SYSTEM_ACTOR: Actor := "SYSTEM"
  const MAX_SEQUENCE: int := 1_000_000

  datatype EventType =
    | CustomerRequest | CustomerMessage | CustomerCreated | CustomerUpdated | OrderCreated | OrderUpdated
    | PaymentReceived | SupportRequest | InternalTask | SystemAlert | ContactTagRequest

  datatype EventSource = WebForm | Api | Webhook | Import | InternalSource

  datatype Decision = Allow | RequireHumanApproval | Deny

  datatype Action =
    | NoAction | Review | ContactHuman | RequestInformation | Escalate | ScheduleConsultation | Nurture | AddContactTag

  datatype Risk = LowRisk | MediumRisk | HighRisk | CriticalRisk

  datatype ApprovalStatus = Pending | Approved | Rejected | Expired

  datatype ExecutionStatus = Prepared | Claimed | Succeeded | Failed | Unknown

  datatype AuditKind =
    | ApprovalCreated | ApprovalApproved | ApprovalRejected | ApprovalExpired | TransitionRejected
    | ExecutionAuthorized | ExecutionClaimed | ExecutionSucceeded | ExecutionFailed | ExecutionUnknown
    | ReconciliationRecorded

  /** The status column of an audit event; approvals and executions share the name PENDING. */
  datatype StatusName =
    | PendingName | ApprovedName | RejectedName | ExpiredName | ClaimedName | SucceededName | FailedName | UnknownName

  datatype FailureCategory =
    | ValidationFailure | ApprovalInvalid | ApprovalLapsed | AlreadyExecuted | ProviderAuthentication
    | ProviderRateLimit | ProviderBadRequest | ProviderUnavailable | ProviderTimeout | ProviderFailure
    | UnknownOutcome | PersistenceFailure | InternalFailure

  datatype DeclaredOutcome = DeclaredSucceeded | DeclaredFailed

  function ApprovalStatusName(s: ApprovalStatus): StatusName {
    match s
    case Pending => PendingName
    case Approved => ApprovedName
    case Rejected => RejectedName
    case Expired => ExpiredName
  }

  /** An execution waiting to be claimed is stored as PENDING. */
  function ExecutionStatusName(s: ExecutionStatus): StatusName {
    match s
    case Prepared => PendingName
    case Claimed => ClaimedName
    case Succeeded => SucceededName
    case Failed => FailedName
    case Unknown => UnknownName
  }

  predicate Terminal(s: ExecutionStatus) {
    s in {Succeeded, Failed, Unknown}
  }

  datatype Parameters = Parameters(contactId: string, tag: string)

  datatype EvidenceCode =
    | NoActionRecommended | PolicyConditionsSatisfied | LowConfidence | ElevatedPriority | HighUrgency | UnknownIntent
    | RecommendationRequiresReview | EscalationRecommended | IdentityMismatch | CategoryMismatch | MissingEvidence
    | InvalidPolicyVersion | ConflictingSignals | MutationRequiresApproval

  datatype EvidenceSource = FromAnalysis | FromEvent | FromPolicy

  datatype EvidenceValue = NoValue | TextValue(text: string) | NumberValue(number: real)

  datatype Evidence = Evidence(code: EvidenceCode, source: EvidenceSource, value: EvidenceValue)

  /** The fields an approval row repeats from its provenance document. */
  datatype Terms = Terms(
    eventId: string,
    eventType: EventType,
    source: EventSource,
    policyVersion: string,
    decision: Decision,
    action: Action,
    risk: Risk,
    confidence: real,
    evidence: seq<Evidence>,
    parameters: Option<Parameters>)

  datatype Provenance = Provenance(terms: Terms, eventDigest: Digest, intelligenceDigest: Digest)

  datatype ApprovalRow = ApprovalRow(
    approvalId: string,
    terms: Terms,
    status: ApprovalStatus,
    createdAt: DateTime,
    expiresAt: DateTime,
    decidedAt: Option<DateTime>,
    approver: Option<string>,
    reason: Option<string>,
    provenance: Provenance,
    provenanceHash: Digest,
    count: int,
    head: Digest)

  /** The hashed part of an audit event; `prev` is hashed after it. */
  datatype AuditPayload = AuditPayload(
    id: string,
    approvalId: string,
    executionId: Option<string>,
    eventId: Option<string>,
    failure: Option<FailureCategory>,
    commitment: Option<Digest>,
    sequence: int,
    kind: AuditKind,
    status: StatusName,
    actor: string,
    at: DateTime)

  datatype AuditEvent = AuditEvent(payload: AuditPayload, prev: Digest, hash: Digest)

  datatype ExecutionBody = ExecutionBody(
    executionId: string,
    approvalId: string,
    eventId: string,
    parameters: Parameters,
    status: ExecutionStatus,
    createdAt: DateTime,
    claimedAt: DateTime,
    completedAt: Option<DateTime>,
    failure: Option<FailureCategory>,
    provenanceHash: Digest,
    policyVersion: string,
    actor: string,
    parametersHash: Digest)

  datatype ExecutionRow = ExecutionRow(body: ExecutionBody, integrityHash: Digest)

  datatype AssessmentBody = AssessmentBody(
    assessmentId: string,
    executionId: string,
    approvalId: string,
    provenanceHash: Digest,
    policyVersion: string,
    originalHash: Digest,
    actor: string,
    at: DateTime,
    outcome: DeclaredOutcome,
    reason: string)

  datatype AssessmentRow = AssessmentRow(body: AssessmentBody, prev: Digest, hash: Digest)

  /** What is left open: the digests the tables store, and the pattern no rejection reason may match. */
  datatype Rules = Rules(
    event: (AuditPayload, Digest) -> Digest,
    execution: ExecutionBody -> Digest,
    parameters: Parameters -> Digest,
    provenance: Provenance -> Digest,
    assessment: (AssessmentBody, Digest) -> Digest,
    unsafeReason: string -> bool)

  // ---------------------------------------------------------------- validators run when rows are read

  /** A contact-tag action has parameters and no other action does. */
  predicate ParametersMatchAction(t: Terms) {
    (t.action == AddContactTag) == t.parameters.Some?
  }

  predicate ProvenanceReadable(p: Provenance) {
    p.terms.policyVersion == POLICY_VERSION && ParametersMatchAction(p.terms)
  }

  predicate ApprovalReadable(rules: Rules, r: ApprovalRow) {
    && r.terms.policyVersion == POLICY_VERSION
    && Before(r.createdAt, r.expiresAt)
    && ParametersMatchAction(r.terms)
    && (r.approver.Some? ==> ValidActor(r.approver.value))
    && (r.reason.Some? ==> ReadableReason(rules.unsafeReason, r.reason.value))
    && match r.status
       case Pending => r.decidedAt.None? && r.approver.None? && r.reason.None?
       case Approved => r.decidedAt.Some? && r.approver.Some? && r.reason.None?
       case Rejected => r.decidedAt.Some? && r.approver.Some? && r.reason.Some?
       case Expired => r.decidedAt.Some? && r.approver.None?
  }

  predicate ExecutionReadable(b: ExecutionBody) {
    && b.policyVersion == POLICY_VERSION
    && ValidActor(b.actor)
    && Terminal(b.status) == b.completedAt.Some?
    && (b.status == Succeeded ==> b.failure.None?)
    && (b.status in {Failed, Unknown} ==> b.failure.Some?)
  }

  predicate EventReadable(e: AuditEvent) {
    1 <= e.payload.sequence <= MAX_SEQUENCE && ValidActor(e.payload.actor)
  }

  predicate AssessmentReadable(b: AssessmentBody) {
    b.policyVersion == POLICY_VERSION && ValidActor(b.actor) && ReadableAssessmentReason(b.reason)
  }
}
