/**
 The documents that are hashed: each record as a JSON object with the source's own keys, the
 digests over their canonical text, and what an equal digest means.  The hash itself is a
 parameter; every result reads "equal, or these two different texts have the same hash".
 */
module Encoding {
  import opened Prelude
  import opened Timestamps
  import opened Records
  import opened AuditTrail
  import opened Json

  // ---------------------------------------------------------------- enumeration values

  function KindText(k: AuditKind): string {
    match k
    case ApprovalCreated => "APPROVAL_CREATED"
    case ApprovalApproved => "APPROVAL_APPROVED"
    case ApprovalRejected => "APPROVAL_REJECTED"
    case ApprovalExpired => "APPROVAL_EXPIRED"
    case TransitionRejected => "APPROVAL_TRANSITION_REJECTED"
    case ExecutionAuthorized => "EXECUTION_AUTHORIZED"
    case ExecutionClaimed => "EXECUTION_CLAIMED"
    case ExecutionSucceeded => "EXECUTION_SUCCEEDED"
    case ExecutionFailed => "EXECUTION_FAILED"
    case ExecutionUnknown => "EXECUTION_UNKNOWN"
    case ReconciliationRecorded => "RECONCILIATION_RECORDED"
  }

  function StatusText(s: StatusName): string {
    match s
    case PendingName => "PENDING"
    case ApprovedName => "APPROVED"
    case RejectedName => "REJECTED"
    case ExpiredName => "EXPIRED"
    case ClaimedName => "CLAIMED"
    case SucceededName => "SUCCEEDED"
    case FailedName => "FAILED"
    case UnknownName => "UNKNOWN"
  }

  function FailureText(f: FailureCategory): string {
    match f
    case ValidationFailure => "VALIDATION_ERROR"
    case ApprovalInvalid => "APPROVAL_INVALID"
    case ApprovalLapsed => "APPROVAL_EXPIRED"
    case AlreadyExecuted => "ALREADY_EXECUTED"
    case ProviderAuthentication => "PROVIDER_AUTHENTICATION"
    case ProviderRateLimit => "PROVIDER_RATE_LIMIT"
    case ProviderBadRequest => "PROVIDER_BAD_REQUEST"
    case ProviderUnavailable => "PROVIDER_UNAVAILABLE"
    case ProviderTimeout => "PROVIDER_TIMEOUT"
    case ProviderFailure => "PROVIDER_ERROR"
    case UnknownOutcome => "UNKNOWN_OUTCOME"
    case PersistenceFailure => "PERSISTENCE_ERROR"
    case InternalFailure => "INTERNAL_ERROR"
  }

  function DeclaredText(d: DeclaredOutcome): string {
    match d
    case DeclaredSucceeded => "SUCCEEDED"
    case DeclaredFailed => "FAILED"
  }

  function EventTypeText(t: EventType): string {
    match t
    case CustomerRequest => "CUSTOMER_REQUEST"
    case CustomerMessage => "CUSTOMER_MESSAGE"
    case CustomerCreated => "CUSTOMER_CREATED"
    case CustomerUpdated => "CUSTOMER_UPDATED"
    case OrderCreated => "ORDER_CREATED"
    case OrderUpdated => "ORDER_UPDATED"
    case PaymentReceived => "PAYMENT_RECEIVED"
    case SupportRequest => "SUPPORT_REQUEST"
    case InternalTask => "INTERNAL_TASK"
    case SystemAlert => "SYSTEM_ALERT"
    case ContactTagRequest => "GHL_CONTACT_TAG_REQUEST"
  }

  function SourceText(s: EventSource): string {
    match s
    case WebForm => "WEB_FORM"
    case Api => "API"
    case Webhook => "WEBHOOK"
    case Import => "IMPORT"
    case InternalSource => "INTERNAL"
  }

  function DecisionText(d: Decision): string {
    match d
    case Allow => "ALLOW"
    case RequireHumanApproval => "REQUIRE_HUMAN_APPROVAL"
    case Deny => "DENY"
  }

  function ActionText(a: Action): string {
    match a
    case NoAction => "NONE"
    case Review => "REVIEW"
    case ContactHuman => "CONTACT_HUMAN"
    case RequestInformation => "REQUEST_INFORMATION"
    case Escalate => "ESCALATE"
    case ScheduleConsultation => "SCHEDULE_CONSULTATION"
    case Nurture => "NURTURE"
    case AddContactTag => "ADD_CONTACT_TAG"
  }

  function RiskText(r: Risk): string {
    match r
    case LowRisk => "LOW"
    case MediumRisk => "MEDIUM"
    case HighRisk => "HIGH"
    case CriticalRisk => "CRITICAL"
  }

  function CodeText(c: EvidenceCode): string {
    match c
    case NoActionRecommended => "NO_ACTION_RECOMMENDED"
    case PolicyConditionsSatisfied => "POLICY_CONDITIONS_SATISFIED"
    case LowConfidence => "LOW_CONFIDENCE"
    case ElevatedPriority => "ELEVATED_PRIORITY"
    case HighUrgency => "HIGH_URGENCY"
    case UnknownIntent => "UNKNOWN_INTENT"
    case RecommendationRequiresReview => "RECOMMENDATION_REQUIRES_REVIEW"
    case EscalationRecommended => "ESCALATION_RECOMMENDED"
    case IdentityMismatch => "IDENTITY_MISMATCH"
    case CategoryMismatch => "CATEGORY_MISMATCH"
    case MissingEvidence => "MISSING_AI_EVIDENCE"
    case InvalidPolicyVersion => "INVALID_POLICY_VERSION"
    case ConflictingSignals => "CONFLICTING_NO_ACTION_SIGNALS"
    case MutationRequiresApproval => "EXTERNAL_MUTATION_REQUIRES_APPROVAL"
  }

  function EvidenceSourceText(s: EvidenceSource): string {
    match s
    case FromAnalysis => "AI_ANALYSIS"
    case FromEvent => "CANONICAL_EVENT"
    case FromPolicy => "POLICY"
  }

  lemma KindTextInjective(a: AuditKind, b: AuditKind)
    ensures KindText(a) == KindText(b) ==> a == b
  {
  }

  lemma StatusTextInjective(a: StatusName, b: StatusName)
    ensures StatusText(a) == StatusText(b) ==> a == b
  {
  }

  lemma FailureTextInjective(a: FailureCategory, b: FailureCategory)
    ensures FailureText(a) == FailureText(b) ==> a == b
  {
  }

  lemma TermsTextInjective(s: Terms, t: Terms)
    ensures EventTypeText(s.eventType) == EventTypeText(t.eventType) ==> s.eventType == t.eventType
    ensures SourceText(s.source) == SourceText(t.source) ==> s.source == t.source
    ensures DecisionText(s.decision) == DecisionText(t.decision) ==> s.decision == t.decision
    ensures ActionText(s.action) == ActionText(t.action) ==> s.action == t.action
    ensures RiskText(s.risk) == RiskText(t.risk) ==> s.risk == t.risk
  {
  }

  lemma CodeTextInjective(a: EvidenceCode, b: EvidenceCode)
    ensures CodeText(a) == CodeText(b) ==> a == b
  {
  }

  lemma EvidenceSourceTextInjective(a: EvidenceSource, b: EvidenceSource)
    ensures EvidenceSourceText(a) == EvidenceSourceText(b) ==> a == b
  {
  }

  // ---------------------------------------------------------------- the documents

  function Optional(s: Option<string>): Value {
    match s
    case None => Null
    case Some(text) => Str(text)
  }

  function OptionalFailure(f: Option<FailureCategory>): Value {
    match f
    case None => Null
    case Some(category) => Str(FailureText(category))
  }

  function OptionalTime(t: Option<DateTime>): Value {
    match t
    case None => Null
    case Some(time) => Str(DatetimeText(time))
  }

  function AuditFields(p: AuditPayload): seq<Field> {
    [("actor_id", Str(p.actor)),
     ("approval_id", Str(p.approvalId)),
     ("audit_event_id", Str(p.id)),
     ("event_type", Str(KindText(p.kind))),
     ("event_id", Optional(p.eventId)),
     ("execution_id", Optional(p.executionId)),
     ("failure_category", OptionalFailure(p.failure)),
     ("commitment_hash", Optional(p.commitment)),
     ("occurred_at", Str(DatetimeText(p.at))),
     ("sequence_number", Int(p.sequence)),
     ("status", Str(StatusText(p.status)))]
  }

  function ExecutionFields(b: ExecutionBody): seq<Field> {
    [("action", Str("ADD_CONTACT_TAG")),
     ("action_parameters_hash", Str(b.parametersHash)),
     ("actor_id", Str(b.actor)),
     ("approval_id", Str(b.approvalId)),
     ("claimed_at", Str(DatetimeText(b.claimedAt))),
     ("completed_at", OptionalTime(b.completedAt)),
     ("contact_id", Str(b.parameters.contactId)),
     ("created_at", Str(DatetimeText(b.createdAt))),
     ("event_id", Str(b.eventId)),
     ("execution_id", Str(b.executionId)),
     ("failure_category", OptionalFailure(b.failure)),
     ("policy_version", Str(b.policyVersion)),
     ("provenance_hash", Str(b.provenanceHash)),
     ("status", Str(StatusText(ExecutionStatusName(b.status)))),
     ("tag", Str(b.parameters.tag))]
  }

  function ParametersFields(p: Parameters): seq<Field> {
    [("contact_id", Str(p.contactId)), ("tag", Str(p.tag))]
  }

  function OptionalParameters(p: Option<Parameters>): Value {
    if p.None? then Null else Obj(ParametersFields(p.value))
  }

  function AssessmentFields(b: AssessmentBody): seq<Field> {
    [("actor_id", Str(b.actor)),
     ("approval_id", Str(b.approvalId)),
     ("assessment_id", Str(b.assessmentId)),
     ("declared_outcome", Str(DeclaredText(b.outcome))),
     ("execution_id", Str(b.executionId)),
     ("occurred_at", Str(DatetimeText(b.at))),
     ("original_execution_integrity_hash", Str(b.originalHash)),
     ("policy_version", Str(b.policyVersion)),
     ("provenance_hash", Str(b.provenanceHash)),
     ("reason", Str(b.reason))]
  }

  function ValueJson(v: EvidenceValue, floatText: real -> string): Value {
    match v
    case NoValue => Null
    case TextValue(text) => Str(text)
    case NumberValue(number) => Float(floatText(number))
  }

  function EvidenceFields(e: Evidence, floatText: real -> string): seq<Field> {
    [("code", Str(CodeText(e.code))), ("source", Str(EvidenceSourceText(e.source))),
     ("value", ValueJson(e.value, floatText))]
  }

  function EvidenceJson(evidence: seq<Evidence>, floatText: real -> string): Value {
    Arr(seq(|evidence|, i requires 0 <= i < |evidence| => Obj(EvidenceFields(evidence[i], floatText))))
  }

  function ProvenanceFields(p: Provenance, floatText: real -> string): seq<Field> {
    var t := p.terms;
    [("event_id", Str(t.eventId)),
     ("event_type", Str(EventTypeText(t.eventType))),
     ("source", Str(SourceText(t.source))),
     ("policy_version", Str(t.policyVersion)),
     ("decision", Str(DecisionText(t.decision))),
     ("action", Str(ActionText(t.action))),
     ("risk", Str(RiskText(t.risk))),
     ("confidence", Float(floatText(t.confidence))),
     ("evidence", EvidenceJson(t.evidence, floatText)),
     ("canonical_event_sha256", Str(p.eventDigest)),
     ("canonical_intelligence_sha256", Str(p.intelligenceDigest)),
     ("action_parameters", OptionalParameters(t.parameters))]
  }

  // ---------------------------------------------------------------- equal documents are equal records

  /** Two objects with the same distinct keys in the same places are the same data value by value. */
  predicate SameKeys(f: seq<Field>, g: seq<Field>) {
    |f| == |g| && forall i | 0 <= i < |f| :: f[i].0 == g[i].0
  }

  lemma AlignedFields(f: seq<Field>, g: seq<Field>)
    requires DistinctKeys(f) && SameKeys(f, g) && SameData(Obj(f), Obj(g))
    ensures forall i | 0 <= i < |f| :: SameData(f[i].1, g[i].1)
  {
    forall i | 0 <= i < |f| ensures SameData(f[i].1, g[i].1) {
      assert EntryIn(f[i], g);
      var j :| 0 <= j < |g| && SameEntry(f[i], g[j]);
      assert f[j].0 == f[i].0;
      assert i == j;
    }
  }

  lemma {:induction false} SameDataReflexive(v: Value)
    ensures SameData(v, v)
    decreases v
  {
    match v
    case Arr(items) =>
      forall i | 0 <= i < |items| ensures SameData(items[i], items[i]) {
        SameDataReflexive(items[i]);
      }
    case Obj(fields) =>
      forall i | 0 <= i < |fields| ensures EntryIn(fields[i], fields) && EntryOf(fields, fields[i]) {
        SameDataReflexive(fields[i].1);
        assert SameEntry(fields[i], fields[i]);
      }
    case _ =>
  }

  predicate Leaf(v: Value) {
    !v.Arr? && !v.Obj?
  }

  lemma FieldSame(f: seq<Field>, g: seq<Field>, i: nat)
    requires DistinctKeys(f) && SameKeys(f, g) && SameData(Obj(f), Obj(g)) && i < |f|
    ensures SameData(f[i].1, g[i].1)
    ensures Leaf(f[i].1) ==> f[i].1 == g[i].1
  {
    AlignedFields(f, g);
    assert SameData(f[i].1, g[i].1);
  }

  predicate Plain(v: Value) {
    v.Null? || v.Str? || v.Int?
  }

  predicate PlainFields(f: seq<Field>) {
    forall i | 0 <= i < |f| :: Plain(f[i].1)
  }

  /** Objects of plain values with the same keys in the same places are the same data only when equal. */
  lemma PlainObjects(f: seq<Field>, g: seq<Field>)
    requires DistinctKeys(f) && SameKeys(f, g) && PlainFields(f) && SameData(Obj(f), Obj(g))
    ensures f == g
  {
    AlignedFields(f, g);
    forall i | 0 <= i < |f| ensures f[i] == g[i] {
      assert Plain(f[i].1) && SameData(f[i].1, g[i].1);
    }
  }

  lemma PlainWellFormed(f: seq<Field>)
    requires DistinctKeys(f) && PlainFields(f)
    ensures WellFormed(Obj(f))
  {
    forall i | 0 <= i < |f| ensures WellFormed(f[i].1) {
      assert Plain(f[i].1);
    }
  }

  lemma AuditKeys(p: AuditPayload)
    ensures DistinctKeys(AuditFields(p)) && PlainFields(AuditFields(p))
  {
  }

  lemma OptionalShapes(b: ExecutionBody)
    ensures Plain(OptionalTime(b.completedAt)) && Plain(OptionalFailure(b.failure))
    ensures OptionalTime(b.completedAt).Null? || OptionalTime(b.completedAt).Str?
    ensures OptionalFailure(b.failure).Null? || OptionalFailure(b.failure).Str?
  {
    hide DatetimeText, FailureText;
  }

  lemma ExecutionKeys(b: ExecutionBody)
    ensures DistinctKeys(ExecutionFields(b)) && PlainFields(ExecutionFields(b))
  {
    hide StatusText, ExecutionStatusName, DatetimeText, OptionalTime, OptionalFailure, FailureText;
    assert OptionalTime(b.completedAt).Null? || OptionalTime(b.completedAt).Str? by { OptionalShapes(b); }
    assert OptionalFailure(b.failure).Null? || OptionalFailure(b.failure).Str? by { OptionalShapes(b); }
  }

  lemma AssessmentKeys(b: AssessmentBody)
    ensures DistinctKeys(AssessmentFields(b)) && PlainFields(AssessmentFields(b))
  {
  }

  lemma ProvenanceKeys(p: Provenance, floatText: real -> string)
    ensures DistinctKeys(ProvenanceFields(p, floatText))
  {
  }

  lemma OptionalInjective(a: Option<string>, b: Option<string>)
    ensures Optional(a) == Optional(b) ==> a == b
  {
  }

  lemma OptionalTimeInjective(a: Option<DateTime>, b: Option<DateTime>)
    ensures OptionalTime(a) == OptionalTime(b) ==> a == b
  {
    if a.Some? && b.Some? {
      TextInjective(a.value, b.value);
    }
  }

  lemma OptionalFailureInjective(a: Option<FailureCategory>, b: Option<FailureCategory>)
    ensures OptionalFailure(a) == OptionalFailure(b) ==> a == b
  {
    if a.Some? && b.Some? {
      FailureTextInjective(a.value, b.value);
    }
  }

  lemma AuditFieldsInjective(p: AuditPayload, q: AuditPayload)
    requires AuditFields(p) == AuditFields(q)
    ensures p == q
  {
    var f, g := AuditFields(p), AuditFields(q);
    assert forall i | 0 <= i < 11 :: f[i].1 == g[i].1;
    assert f[3].1 == g[3].1 && f[4].1 == g[4].1 && f[5].1 == g[5].1 && f[6].1 == g[6].1;
    assert f[7].1 == g[7].1 && f[8].1 == g[8].1 && f[9].1 == g[9].1 && f[10].1 == g[10].1;
    KindTextInjective(p.kind, q.kind);
    StatusTextInjective(p.status, q.status);
    TextInjective(p.at, q.at);
    OptionalFailureInjective(p.failure, q.failure);
    OptionalInjective(p.eventId, q.eventId);
    OptionalInjective(p.executionId, q.executionId);
    assert p.commitment == q.commitment by { OptionalInjective(p.commitment, q.commitment); }
  }

  lemma ExecutionParts(b: ExecutionBody)
    ensures var f := ExecutionFields(b);
            && |f| == 15
            && f[1].1 == Str(b.parametersHash) && f[2].1 == Str(b.actor) && f[3].1 == Str(b.approvalId)
            && f[4].1 == Str(DatetimeText(b.claimedAt)) && f[5].1 == OptionalTime(b.completedAt)
            && f[6].1 == Str(b.parameters.contactId) && f[7].1 == Str(DatetimeText(b.createdAt))
            && f[8].1 == Str(b.eventId)
            && f[9].1 == Str(b.executionId) && f[10].1 == OptionalFailure(b.failure) && f[11].1 == Str(b.policyVersion)
            && f[12].1 == Str(b.provenanceHash) && f[13].1 == Str(StatusText(ExecutionStatusName(b.status)))
            && f[14].1 == Str(b.parameters.tag)
  {
    hide StatusText, ExecutionStatusName, DatetimeText, OptionalTime, OptionalFailure;
  }

  lemma ExecutionFieldsInjective(b: ExecutionBody, c: ExecutionBody)
    requires ExecutionFields(b) == ExecutionFields(c)
    ensures b == c
  {
    assert ExecutionStatusName(b.status) == ExecutionStatusName(c.status) ==> b.status == c.status;
    hide *;
    ExecutionParts(b);
    ExecutionParts(c);
    StatusTextInjective(ExecutionStatusName(b.status), ExecutionStatusName(c.status));
    TextInjective(b.claimedAt, c.claimedAt);
    TextInjective(b.createdAt, c.createdAt);
    OptionalTimeInjective(b.completedAt, c.completedAt);
    OptionalFailureInjective(b.failure, c.failure);
  }

  lemma AssessmentFieldsInjective(b: AssessmentBody, c: AssessmentBody)
    requires AssessmentFields(b) == AssessmentFields(c)
    ensures b == c
  {
    var f, g := AssessmentFields(b), AssessmentFields(c);
    assert f[0].1 == g[0].1 && f[1].1 == g[1].1 && f[2].1 == g[2].1 && f[3].1 == g[3].1 && f[4].1 == g[4].1;
    assert f[5].1 == g[5].1 && f[6].1 == g[6].1 && f[7].1 == g[7].1 && f[8].1 == g[8].1 && f[9].1 == g[9].1;
    TextInjective(b.at, c.at);
  }

  /** Equal documents are equal records: nothing that is hashed is lost or confused. */
  lemma AuditDocument(p: AuditPayload, q: AuditPayload)
    ensures WellFormed(Obj(AuditFields(p)))
    ensures SameData(Obj(AuditFields(p)), Obj(AuditFields(q))) <==> p == q
  {
    AuditKeys(p);
    assert SameKeys(AuditFields(p), AuditFields(q));
    hide *;
    PlainWellFormed(AuditFields(p));
    SameDataReflexive(Obj(AuditFields(p)));
    if SameData(Obj(AuditFields(p)), Obj(AuditFields(q))) {
      PlainObjects(AuditFields(p), AuditFields(q));
      AuditFieldsInjective(p, q);
    }
  }

  lemma ExecutionDocument(b: ExecutionBody, c: ExecutionBody)
    ensures WellFormed(Obj(ExecutionFields(b)))
    ensures SameData(Obj(ExecutionFields(b)), Obj(ExecutionFields(c))) <==> b == c
  {
    hide *;
    ExecutionKeys(b);
    ExecutionSameKeys(b, c);
    PlainWellFormed(ExecutionFields(b));
    SameDataReflexive(Obj(ExecutionFields(b)));
    if SameData(Obj(ExecutionFields(b)), Obj(ExecutionFields(c))) {
      PlainObjects(ExecutionFields(b), ExecutionFields(c));
      ExecutionFieldsInjective(b, c);
    }
  }

  lemma ExecutionSameKeys(b: ExecutionBody, c: ExecutionBody)
    ensures SameKeys(ExecutionFields(b), ExecutionFields(c))
  {
  }

  lemma AssessmentDocument(b: AssessmentBody, c: AssessmentBody)
    ensures WellFormed(Obj(AssessmentFields(b)))
    ensures SameData(Obj(AssessmentFields(b)), Obj(AssessmentFields(c))) <==> b == c
  {
    AssessmentKeys(b);
    assert SameKeys(AssessmentFields(b), AssessmentFields(c));
    hide *;
    PlainWellFormed(AssessmentFields(b));
    SameDataReflexive(Obj(AssessmentFields(b)));
    if SameData(Obj(AssessmentFields(b)), Obj(AssessmentFields(c))) {
      PlainObjects(AssessmentFields(b), AssessmentFields(c));
      AssessmentFieldsInjective(b, c);
    }
  }

  // ------------------------------------------------------------- provenance, whose numbers are read through their text

  /** Every float is written as a decimal text. */
  ghost predicate Renders(floatText: real -> string) {
    forall x: real :: FloatLexeme(floatText(x))
  }

  predicate SameEvidence(floatText: real -> string, a: Evidence, b: Evidence) {
    a.code == b.code && a.source == b.source && ValueJson(a.value, floatText) == ValueJson(b.value, floatText)
  }

  /** Equal up to numbers that are written the same. */
  ghost predicate SameProvenance(floatText: real -> string, p: Provenance, q: Provenance) {
    && p.eventDigest == q.eventDigest && p.intelligenceDigest == q.intelligenceDigest
    && p.terms == q.terms.(confidence := p.terms.confidence, evidence := p.terms.evidence)
    && floatText(p.terms.confidence) == floatText(q.terms.confidence)
    && |p.terms.evidence| == |q.terms.evidence|
    && forall i | 0 <= i < |p.terms.evidence| :: SameEvidence(floatText, p.terms.evidence[i], q.terms.evidence[i])
  }

  lemma EvidenceWellFormed(e: Evidence, floatText: real -> string)
    requires Renders(floatText)
    ensures WellFormed(Obj(EvidenceFields(e, floatText)))
  {
    var f := EvidenceFields(e, floatText);
    assert DistinctKeys(f);
    assert WellFormed(ValueJson(e.value, floatText));
  }

  lemma ProvenanceWellFormed(p: Provenance, floatText: real -> string)
    requires Renders(floatText)
    ensures WellFormed(Obj(ProvenanceFields(p, floatText)))
  {
    var f := ProvenanceFields(p, floatText);
    ProvenanceKeys(p, floatText);
    assert WellFormed(EvidenceJson(p.terms.evidence, floatText)) by {
      forall i | 0 <= i < |p.terms.evidence| ensures WellFormed(EvidenceJson(p.terms.evidence, floatText).items[i]) {
        EvidenceWellFormed(p.terms.evidence[i], floatText);
      }
    }
    if p.terms.parameters.Some? {
      assert DistinctKeys(ParametersFields(p.terms.parameters.value));
    }
    forall i | 0 <= i < |f| ensures WellFormed(f[i].1) {
    }
  }

  lemma EvidenceParts(e: Evidence, floatText: real -> string)
    ensures var f := EvidenceFields(e, floatText);
            && |f| == 3 && f[0].1 == Str(CodeText(e.code)) && f[1].1 == Str(EvidenceSourceText(e.source))
            && f[2].1 == ValueJson(e.value, floatText) && Leaf(f[0].1) && Leaf(f[1].1) && Leaf(f[2].1)
  {
  }

  lemma EvidenceKeys(a: Evidence, b: Evidence, floatText: real -> string)
    ensures DistinctKeys(EvidenceFields(a, floatText))
    ensures SameKeys(EvidenceFields(a, floatText), EvidenceFields(b, floatText))
  {
  }

  lemma EvidenceSame(floatText: real -> string, a: Evidence, b: Evidence)
    requires SameData(Obj(EvidenceFields(a, floatText)), Obj(EvidenceFields(b, floatText)))
    ensures SameEvidence(floatText, a, b)
  {
    var f, g := EvidenceFields(a, floatText), EvidenceFields(b, floatText);
    hide EvidenceFields, CodeText, EvidenceSourceText, ValueJson, SameData, DistinctKeys, SameKeys;
    EvidenceKeys(a, b, floatText);
    EvidenceParts(a, floatText);
    EvidenceParts(b, floatText);
    FieldSame(f, g, 0);
    FieldSame(f, g, 1);
    FieldSame(f, g, 2);
    CodeTextInjective(a.code, b.code);
    EvidenceSourceTextInjective(a.source, b.source);
  }

  lemma EvidenceListSame(floatText: real -> string, a: seq<Evidence>, b: seq<Evidence>)
    requires SameData(EvidenceJson(a, floatText), EvidenceJson(b, floatText))
    ensures |a| == |b| && forall i | 0 <= i < |a| :: SameEvidence(floatText, a[i], b[i])
  {
    var x, y := EvidenceJson(a, floatText).items, EvidenceJson(b, floatText).items;
    forall i | 0 <= i < |a| ensures SameEvidence(floatText, a[i], b[i]) {
      assert SameData(x[i], y[i]);
      EvidenceSame(floatText, a[i], b[i]);
    }
  }

  lemma ParametersKeys(p: Parameters, q: Parameters)
    ensures DistinctKeys(ParametersFields(p)) && SameKeys(ParametersFields(p), ParametersFields(q))
    ensures PlainFields(ParametersFields(p))
    ensures ParametersFields(p) == ParametersFields(q) ==> p == q
  {
    assert ParametersFields(p)[0].1 == Str(p.contactId) && ParametersFields(q)[0].1 == Str(q.contactId);
    assert ParametersFields(p)[1].1 == Str(p.tag) && ParametersFields(q)[1].1 == Str(q.tag);
  }

  lemma ParametersSame(p: Option<Parameters>, q: Option<Parameters>)
    requires SameData(OptionalParameters(p), OptionalParameters(q))
    ensures p == q
  {
    hide ParametersFields;
    if p.Some? && q.Some? {
      hide SameData, DistinctKeys, SameKeys, PlainFields;
      ParametersKeys(p.value, q.value);
      PlainObjects(ParametersFields(p.value), ParametersFields(q.value));
    }
  }

  lemma ProvenanceParts(p: Provenance, floatText: real -> string)
    ensures var f := ProvenanceFields(p, floatText);
            var t := p.terms;
            && |f| == 12
            && f[0].1 == Str(t.eventId) && f[1].1 == Str(EventTypeText(t.eventType))
            && f[2].1 == Str(SourceText(t.source))
            && f[3].1 == Str(t.policyVersion) && f[4].1 == Str(DecisionText(t.decision))
            && f[5].1 == Str(ActionText(t.action))
            && f[6].1 == Str(RiskText(t.risk)) && f[7].1 == Float(floatText(t.confidence))
            && f[8].1 == EvidenceJson(t.evidence, floatText)
            && f[9].1 == Str(p.eventDigest) && f[10].1 == Str(p.intelligenceDigest)
            && f[11].1 == OptionalParameters(t.parameters)
  {
    hide EventTypeText, SourceText, DecisionText, ActionText, RiskText, EvidenceJson, OptionalParameters;
  }

  lemma ProvenanceSameKeys(p: Provenance, q: Provenance, floatText: real -> string)
    ensures SameKeys(ProvenanceFields(p, floatText), ProvenanceFields(q, floatText))
  {
  }

  lemma ProvenanceSame(floatText: real -> string, p: Provenance, q: Provenance)
    requires SameData(Obj(ProvenanceFields(p, floatText)), Obj(ProvenanceFields(q, floatText)))
    ensures SameProvenance(floatText, p, q)
  {
    var f, g := ProvenanceFields(p, floatText), ProvenanceFields(q, floatText);
    hide *;
    ProvenanceKeys(p, floatText);
    ProvenanceSameKeys(p, q, floatText);
    ProvenanceParts(p, floatText);
    ProvenanceParts(q, floatText);
    ScalarsSame(f, g);
    FieldSame(f, g, 8);
    FieldSame(f, g, 11);
    TermsTextInjective(p.terms, q.terms);
    EvidenceListSame(floatText, p.terms.evidence, q.terms.evidence);
    ParametersSame(p.terms.parameters, q.terms.parameters);
    SameProvenanceFrom(floatText, p, q);
  }

  lemma ScalarsSame(f: seq<Field>, g: seq<Field>)
    requires DistinctKeys(f) && SameKeys(f, g) && SameData(Obj(f), Obj(g)) && |f| == 12 && |g| == 12
    ensures forall i | 0 <= i < 12 && (f[i].1.Str? || f[i].1.Float?) :: f[i].1 == g[i].1
  {
    forall i | 0 <= i < 12 && (f[i].1.Str? || f[i].1.Float?) ensures f[i].1 == g[i].1 {
      FieldSame(f, g, i);
    }
  }

  lemma SameProvenanceFrom(floatText: real -> string, p: Provenance, q: Provenance)
    requires p.eventDigest == q.eventDigest && p.intelligenceDigest == q.intelligenceDigest
    requires p.terms.(confidence := 0.0, evidence := []) == q.terms.(confidence := 0.0, evidence := [])
    requires floatText(p.terms.confidence) == floatText(q.terms.confidence)
    requires |p.terms.evidence| == |q.terms.evidence|
    requires forall i | 0 <= i < |p.terms.evidence| :: SameEvidence(floatText, p.terms.evidence[i], q.terms.evidence[i])
    ensures SameProvenance(floatText, p, q)
  {
  }

  // ---------------------------------------------------------------- the digests

  /** What is hashed: canonical text, and for chained records the predecessor's digest after it. */
  function EventText(p: AuditPayload, prev: Digest): string {
    Text(Obj(AuditFields(p))) + prev
  }

  function ExecutionText(b: ExecutionBody): string {
    Text(Obj(ExecutionFields(b)))
  }

  function ParametersText(p: Parameters): string {
    Text(Obj(ParametersFields(p)))
  }

  function ProvenanceText(p: Provenance, floatText: real -> string): string {
    Text(Obj(ProvenanceFields(p, floatText)))
  }

  function AssessmentText(b: AssessmentBody, prev: Digest): string {
    Text(Obj(AssessmentFields(b))) + prev
  }

  /** The source's digests, for any hash of texts. */
  function TextRules(h: string -> Digest, floatText: real -> string, unsafeReason: string -> bool): Rules {
    Rules(
      (p, prev) => h(EventText(p, prev)),
      b => h(ExecutionText(b)),
      p => h(ParametersText(p)),
      p => h(ProvenanceText(p, floatText)),
      (b, prev) => h(AssessmentText(b, prev)),
      unsafeReason)
  }

  /** Two given texts are a collision. */
  predicate Clash(h: string -> Digest, s: string, t: string) {
    s != t && h(s) == h(t)
  }

  /** The text of an event determines the event and its link. */
  lemma EventTextCommits(p: AuditPayload, d: Digest, q: AuditPayload, e: Digest)
    ensures EventText(p, d) == EventText(q, e) <==> p == q && d == e
  {
    if EventText(p, d) == EventText(q, e) {
      AuditDocument(p, q);
      AuditDocument(q, p);
      hide AuditFields, Text, WellFormed, SameData;
      ChainedTextUnambiguous(Obj(AuditFields(p)), d, Obj(AuditFields(q)), e);
    }
  }

  lemma ExecutionTextCommits(b: ExecutionBody, c: ExecutionBody)
    ensures ExecutionText(b) == ExecutionText(c) <==> b == c
  {
    ExecutionDocument(b, c);
    ExecutionDocument(c, b);
    hide ExecutionFields, Text, WellFormed, SameData;
    TextDecidesSameData(Obj(ExecutionFields(b)), Obj(ExecutionFields(c)));
  }

  lemma AssessmentTextCommits(b: AssessmentBody, d: Digest, c: AssessmentBody, e: Digest)
    ensures AssessmentText(b, d) == AssessmentText(c, e) <==> b == c && d == e
  {
    if AssessmentText(b, d) == AssessmentText(c, e) {
      AssessmentDocument(b, c);
      AssessmentDocument(c, b);
      hide AssessmentFields, Text, WellFormed, SameData;
      ChainedTextUnambiguous(Obj(AssessmentFields(b)), d, Obj(AssessmentFields(c)), e);
    }
  }

  lemma ProvenanceTextCommits(floatText: real -> string, p: Provenance, q: Provenance)
    requires Renders(floatText) && ProvenanceText(p, floatText) == ProvenanceText(q, floatText)
    ensures SameProvenance(floatText, p, q)
  {
    ProvenanceWellFormed(p, floatText);
    ProvenanceWellFormed(q, floatText);
    hide ProvenanceFields, Text, WellFormed, SameData;
    TextDecidesSameData(Obj(ProvenanceFields(p, floatText)), Obj(ProvenanceFields(q, floatText)));
    ProvenanceSame(floatText, p, q);
  }

  /**
   Two event lists accepted against one approval row are identical, or the hashed texts of two
   events at one position are different and have the same hash.
   */
  lemma ChainCommits(h: string -> Digest, floatText: real -> string, unsafeReason: string -> bool, a: seq<AuditEvent>,
                     b: seq<AuditEvent>, count: int, head: Digest)
    requires Inspect(TextRules(h, floatText, unsafeReason), a, count, head) == Intact
    requires Inspect(TextRules(h, floatText, unsafeReason), b, count, head) == Intact
    ensures || a == b
            || exists i | 0 <= i < |a| && i < |b| ::
                 Clash(h, EventText(a[i].payload, a[i].prev), EventText(b[i].payload, b[i].prev))
  {
    var rules := TextRules(h, floatText, unsafeReason);
    HeadCommitsToChain(rules, a, b, count, head);
    if a != b {
      var i :| 0 <= i < |a| && i < |b| && Collide(rules, a[i], b[i]);
      hide EventText, Inspect;
      EventTextCommits(a[i].payload, a[i].prev, b[i].payload, b[i].prev);
      assert Clash(h, EventText(a[i].payload, a[i].prev), EventText(b[i].payload, b[i].prev));
    }
  }

  /** A stored execution is the one its integrity hash was computed from, or the two texts clash. */
  lemma IntegrityHashCommits(h: string -> Digest, floatText: real -> string, unsafeReason: string -> bool,
                             b: ExecutionBody, c: ExecutionBody)
    requires TextRules(h, floatText, unsafeReason).execution(b) == TextRules(h, floatText, unsafeReason).execution(c)
    ensures b == c || Clash(h, ExecutionText(b), ExecutionText(c))
  {
    hide ExecutionText;
    ExecutionTextCommits(b, c);
  }

  lemma AssessmentHashCommits(h: string -> Digest, floatText: real -> string, unsafeReason: string -> bool,
                              b: AssessmentBody, d: Digest, c: AssessmentBody, e: Digest)
    requires TextRules(h, floatText, unsafeReason).assessment(b, d) == TextRules(h, floatText,
        unsafeReason).assessment(c, e)
    ensures (b == c && d == e) || Clash(h, AssessmentText(b, d), AssessmentText(c, e))
  {
    hide AssessmentText;
    AssessmentTextCommits(b, d, c, e);
  }

  lemma ProvenanceHashCommits(h: string -> Digest, floatText: real -> string, unsafeReason: string -> bool,
                              p: Provenance, q: Provenance)
    requires Renders(floatText)
    requires TextRules(h, floatText, unsafeReason).provenance(p) == TextRules(h, floatText, unsafeReason).provenance(q)
    ensures SameProvenance(floatText, p, q) || Clash(h, ProvenanceText(p, floatText), ProvenanceText(q, floatText))
  {
    hide ProvenanceText, SameProvenance;
    if ProvenanceText(p, floatText) == ProvenanceText(q, floatText) {
      ProvenanceTextCommits(floatText, p, q);
    }
  }
}
