/**
 The texts that are hashed, written out member by member in the order `sort_keys` puts them, and
 the names enumeration values have in them.
 */
module Documents {
  import opened Prelude
  import opened Timestamps
  import opened Records
  import opened Json
  import opened Encoding
  import opened SecurityAudit
  import opened Catalog

  /** A key and the text of its value. */
  type Member = (string, string)

  function Members(m: seq<Member>): string {
    if m == [] then ""
    else "\"" + m[0].0 + "\":" + m[0].1 + (if |m| == 1 then "" else "," + Members(m[1..]))
  }

  function Braced(m: seq<Member>): string {
    "{" + Members(m) + "}"
  }

  function NullOr(s: Option<string>): string {
    if s.None? then "null" else Quote(s.value)
  }

  function NullOrFailure(f: Option<FailureCategory>): string {
    if f.None? then "null" else Quote(FailureText(f.value))
  }

  function NullOrTime(t: Option<DateTime>): string {
    if t.None? then "null" else Quote(DatetimeText(t.value))
  }

  /** The names by which kinds, statuses, failures and declared outcomes are hashed and stored. */
  lemma KindNames()
    ensures KindText(ApprovalCreated) == "APPROVAL_CREATED" && KindText(ApprovalApproved) == "APPROVAL_APPROVED"
    ensures KindText(ApprovalRejected) == "APPROVAL_REJECTED" && KindText(ApprovalExpired) == "APPROVAL_EXPIRED"
    ensures KindText(TransitionRejected) == "APPROVAL_TRANSITION_REJECTED"
    ensures KindText(ExecutionAuthorized) == "EXECUTION_AUTHORIZED" && KindText(ExecutionClaimed) == "EXECUTION_CLAIMED"
    ensures KindText(ExecutionSucceeded) == "EXECUTION_SUCCEEDED" && KindText(ExecutionFailed) == "EXECUTION_FAILED"
    ensures KindText(ExecutionUnknown) == "EXECUTION_UNKNOWN"
    ensures KindText(ReconciliationRecorded) == "RECONCILIATION_RECORDED"
  {
  }

  lemma StatusNames()
    ensures StatusText(PendingName) == StatusText(ExecutionStatusName(Prepared)) == "PENDING"
    ensures StatusText(ApprovalStatusName(Approved)) == "APPROVED"
    ensures StatusText(ApprovalStatusName(Rejected)) == "REJECTED"
    ensures StatusText(ApprovalStatusName(Expired)) == "EXPIRED"
    ensures StatusText(ExecutionStatusName(Claimed)) == "CLAIMED"
    ensures StatusText(ExecutionStatusName(Succeeded)) == DeclaredText(DeclaredSucceeded) == "SUCCEEDED"
    ensures StatusText(ExecutionStatusName(Failed)) == DeclaredText(DeclaredFailed) == "FAILED"
    ensures StatusText(ExecutionStatusName(Unknown)) == "UNKNOWN"
  {
  }

  lemma FailureNames()
    ensures FailureText(ProviderAuthentication) == "PROVIDER_AUTHENTICATION"
    ensures FailureText(ProviderRateLimit) == "PROVIDER_RATE_LIMIT"
    ensures FailureText(ProviderBadRequest) == "PROVIDER_BAD_REQUEST"
    ensures FailureText(ProviderUnavailable) == "PROVIDER_UNAVAILABLE"
    ensures FailureText(ProviderTimeout) == "PROVIDER_TIMEOUT" && FailureText(ProviderFailure) == "PROVIDER_ERROR"
    ensures FailureText(UnknownOutcome) == "UNKNOWN_OUTCOME"
  {
  }

  // ---------------------------------------------------------------- an object's text

  /** The keys of the documents need no escapes. */
  predicate PlainKey(s: string) {
    forall i | 0 <= i < |s| :: 'a' <= s[i] <= 'z' || '0' <= s[i] <= '9' || s[i] == '_'
  }

  lemma {:induction false} PlainKeyText(s: string)
    requires PlainKey(s)
    ensures EscapeAll(s) == s
    decreases |s|
  {
    if s != "" {
      PlainKeyText(s[1..]);
      assert Escape(s[0]) == [s[0]];
    }
  }

  ghost predicate AdjacentKeys(m: seq<Member>) {
    forall i | 0 <= i < |m| - 1 :: KeyLess(m[i].0, m[i + 1].0)
  }

  lemma {:induction false} AdjacentAscends(m: seq<Member>, i: nat, j: nat)
    requires AdjacentKeys(m) && i < j < |m|
    ensures KeyLess(m[i].0, m[j].0)
    decreases j
  {
    if i < j - 1 {
      AdjacentAscends(m, i, j - 1);
      KeyLessTransitive(m[i].0, m[j - 1].0, m[j].0);
    }
  }

  function Pick(f: seq<Field>, order: seq<nat>): (g: seq<Field>)
    requires forall i | 0 <= i < |order| :: order[i] < |f|
    ensures |g| == |order| && forall i | 0 <= i < |g| :: g[i] == f[order[i]]
  {
    seq(|order|, i requires 0 <= i < |order| => f[order[i]])
  }

  /** `m` lists the fields of `f` in the given order, each with its canonical text. */
  ghost predicate Lists(m: seq<Member>, f: seq<Field>, order: seq<nat>) {
    && |m| == |f| == |order|
    && (forall j | 0 <= j < |f| :: j in order)
    && (forall i | 0 <= i < |m| ::
          order[i] < |f| && PlainKey(m[i].0) && m[i] == (f[order[i]].0, Text(f[order[i]].1)))
  }

  lemma SortedAsListed(f: seq<Field>, m: seq<Member>, order: seq<nat>)
    requires DistinctKeys(f) && Lists(m, f, order) && AdjacentKeys(m)
    ensures SortFields(CanonFields(f)) == Pick(CanonFields(f), order)
  {
    var c := CanonFields(f);
    var g := Pick(c, order);
    CanonFieldsAt(f);
    CanonFieldsDistinct(f);
    SortFieldsSorts(c);
    forall i, j | 0 <= i < j < |g| ensures KeyLess(g[i].0, g[j].0) {
      AdjacentAscends(m, i, j);
    }
    forall x ensures x in SortFields(c) <==> x in g {
      assert x in SortFields(c) <==> x in multiset(SortFields(c));
      if x in c {
        var j :| 0 <= j < |c| && c[j] == x;
        assert j in order;
        var i :| 0 <= i < |order| && order[i] == j;
        assert g[i] == x;
      }
    }
    AscendingUnique(SortFields(c), g);
  }

  lemma {:induction false} WrittenMembers(g: seq<Field>, m: seq<Member>)
    requires |g| == |m| && forall i | 0 <= i < |m| :: PlainKey(m[i].0) && m[i] == (g[i].0, Write(g[i].1))
    ensures WriteFields(g) == Members(m)
    decreases |g|
  {
    hide Write;
    if g != [] {
      PlainKeyText(m[0].0);
      assert WriteField(g[0]) == "\"" + m[0].0 + "\":" + m[0].1;
      forall i | 0 <= i < |m| - 1 ensures PlainKey(m[1..][i].0) && m[1..][i] == (g[1..][i].0, Write(g[1..][i].1)) {
        assert m[1..][i] == m[i + 1] && g[1..][i] == g[i + 1];
      }
      WrittenMembers(g[1..], m[1..]);
      if |g| == 1 {
        assert WriteFields(g) == WriteField(g[0]);
      } else {
        assert WriteFields(g) == WriteField(g[0]) + "," + WriteFields(g[1..]);
      }
    }
  }

  /** The canonical text of an object, from its members in ascending order. */
  lemma ObjectText(f: seq<Field>, m: seq<Member>, order: seq<nat>)
    requires DistinctKeys(f) && Lists(m, f, order) && AdjacentKeys(m)
    ensures Text(Obj(f)) == Braced(m)
  {
    var g := Pick(CanonFields(f), order);
    SortedAsListed(f, m, order);
    CanonFieldsAt(f);
    assert Canon(Obj(f)) == Obj(g);
    WrittenMembers(g, m);
    assert Write(Obj(g)) == "{" + WriteFields(g) + "}";
  }

  lemma StrText(s: string)
    ensures Text(Str(s)) == Quote(s)
  {
  }

  lemma PlainText(s: string, t: Option<string>, f: Option<FailureCategory>, d: Option<DateTime>, n: int)
    ensures Text(Str(s)) == Quote(s) && Text(Int(n)) == Decimal(n) && Text(Optional(t)) == NullOr(t)
    ensures Text(OptionalFailure(f)) == NullOrFailure(f) && Text(OptionalTime(d)) == NullOrTime(d)
  {
    hide DatetimeText, FailureText, Quote, Decimal;
  }

  // ---------------------------------------------------------------- the documents, member by member

  /** An audit event as hashed, before the predecessor's digest. */
  function EventMembers(p: AuditPayload): seq<Member> {
    [("actor_id", Quote(p.actor)),
     ("approval_id", Quote(p.approvalId)),
     ("audit_event_id", Quote(p.id)),
     ("commitment_hash", NullOr(p.commitment)),
     ("event_id", NullOr(p.eventId)),
     ("event_type", Quote(KindText(p.kind))),
     ("execution_id", NullOr(p.executionId)),
     ("failure_category", NullOrFailure(p.failure)),
     ("occurred_at", Quote(DatetimeText(p.at))),
     ("sequence_number", Decimal(p.sequence)),
     ("status", Quote(StatusText(p.status)))]
  }

  lemma EventOrder1()
    ensures KeyLess("actor_id", "approval_id")
    ensures KeyLess("approval_id", "audit_event_id")
    ensures KeyLess("audit_event_id", "commitment_hash")
    ensures KeyLess("commitment_hash", "event_id")
    ensures KeyLess("event_id", "event_type")
  {
  }

  lemma EventOrder2()
    ensures KeyLess("event_type", "execution_id")
    ensures KeyLess("execution_id", "failure_category")
    ensures KeyLess("failure_category", "occurred_at")
    ensures KeyLess("occurred_at", "sequence_number")
    ensures KeyLess("sequence_number", "status")
  {
  }

  lemma EventKeysAscend(m: seq<Member>)
    requires |m| == 11
    requires m[0].0 == "actor_id" && m[1].0 == "approval_id"
    requires m[2].0 == "audit_event_id" && m[3].0 == "commitment_hash"
    requires m[4].0 == "event_id" && m[5].0 == "event_type"
    requires m[6].0 == "execution_id" && m[7].0 == "failure_category"
    requires m[8].0 == "occurred_at" && m[9].0 == "sequence_number"
    requires m[10].0 == "status"
    ensures AdjacentKeys(m)
  {
    hide KeyLess;
    EventOrder1();
    EventOrder2();
  }

  lemma EventKeysPlain(m: seq<Member>)
    requires |m| == 11
    requires m[0].0 == "actor_id" && m[1].0 == "approval_id"
    requires m[2].0 == "audit_event_id" && m[3].0 == "commitment_hash"
    requires m[4].0 == "event_id" && m[5].0 == "event_type"
    requires m[6].0 == "execution_id" && m[7].0 == "failure_category"
    requires m[8].0 == "occurred_at" && m[9].0 == "sequence_number"
    requires m[10].0 == "status"
    ensures forall i | 0 <= i < |m| :: PlainKey(m[i].0)
  {
  }

  lemma EventListed(p: AuditPayload)
    ensures Lists(EventMembers(p), AuditFields(p),
                  [0, 1, 2, 7, 4, 3, 5, 6, 8, 9, 10])
    ensures AdjacentKeys(EventMembers(p))
  {
    var m, f := EventMembers(p), AuditFields(p);
    var order := [0, 1, 2, 7, 4, 3, 5, 6, 8, 9, 10];
    hide Text, Quote, Decimal, NullOr, NullOrFailure, NullOrTime, Optional, OptionalFailure, OptionalTime, KindText,
         StatusText, DatetimeText, PlainKey, AdjacentKeys;
    EventKeysAscend(m);
    EventKeysPlain(m);
    PlainText(p.actor, p.commitment, p.failure, None, p.sequence);
    PlainText(p.approvalId, p.eventId, None, None, 0);
    PlainText(p.id, p.executionId, None, None, 0);
    StrText(KindText(p.kind));
    StrText(StatusText(p.status));
    StrText(DatetimeText(p.at));
    assert forall j: nat | j < 11 :: j in order by {
      assert order[0] == 0;
      assert order[1] == 1;
      assert order[2] == 2;
      assert order[5] == 3;
      assert order[4] == 4;
      assert order[6] == 5;
      assert order[7] == 6;
      assert order[3] == 7;
      assert order[8] == 8;
      assert order[9] == 9;
      assert order[10] == 10;
    }
  }

  lemma EventTextIs(p: AuditPayload, prev: Digest)
    ensures EventText(p, prev) == Braced(EventMembers(p)) + prev
  {
    hide AuditFields, EventMembers, Text, Braced, DistinctKeys, Lists, AdjacentKeys;
    AuditKeys(p);
    EventListed(p);
    ObjectText(AuditFields(p), EventMembers(p), [0, 1, 2, 7, 4, 3, 5, 6, 8, 9, 10]);
  }

  /** An execution as hashed. */
  function ExecutionMembers(b: ExecutionBody): seq<Member> {
    [("action", Quote("ADD_CONTACT_TAG")),
     ("action_parameters_hash", Quote(b.parametersHash)),
     ("actor_id", Quote(b.actor)),
     ("approval_id", Quote(b.approvalId)),
     ("claimed_at", Quote(DatetimeText(b.claimedAt))),
     ("completed_at", NullOrTime(b.completedAt)),
     ("contact_id", Quote(b.parameters.contactId)),
     ("created_at", Quote(DatetimeText(b.createdAt))),
     ("event_id", Quote(b.eventId)),
     ("execution_id", Quote(b.executionId)),
     ("failure_category", NullOrFailure(b.failure)),
     ("policy_version", Quote(b.policyVersion)),
     ("provenance_hash", Quote(b.provenanceHash)),
     ("status", Quote(StatusText(ExecutionStatusName(b.status)))),
     ("tag", Quote(b.parameters.tag))]
  }

  lemma ExecutionOrder1()
    ensures KeyLess("action", "action_parameters_hash")
    ensures KeyLess("action_parameters_hash", "actor_id")
    ensures KeyLess("actor_id", "approval_id")
    ensures KeyLess("approval_id", "claimed_at")
    ensures KeyLess("claimed_at", "completed_at")
  {
  }

  lemma ExecutionOrder2()
    ensures KeyLess("completed_at", "contact_id")
    ensures KeyLess("contact_id", "created_at")
    ensures KeyLess("created_at", "event_id")
    ensures KeyLess("event_id", "execution_id")
    ensures KeyLess("execution_id", "failure_category")
  {
  }

  lemma ExecutionOrder3()
    ensures KeyLess("failure_category", "policy_version")
    ensures KeyLess("policy_version", "provenance_hash")
    ensures KeyLess("provenance_hash", "status")
    ensures KeyLess("status", "tag")
  {
  }

  lemma ExecutionKeysAscend(m: seq<Member>)
    requires |m| == 15
    requires m[0].0 == "action" && m[1].0 == "action_parameters_hash"
    requires m[2].0 == "actor_id" && m[3].0 == "approval_id"
    requires m[4].0 == "claimed_at" && m[5].0 == "completed_at"
    requires m[6].0 == "contact_id" && m[7].0 == "created_at"
    requires m[8].0 == "event_id" && m[9].0 == "execution_id"
    requires m[10].0 == "failure_category" && m[11].0 == "policy_version"
    requires m[12].0 == "provenance_hash" && m[13].0 == "status"
    requires m[14].0 == "tag"
    ensures AdjacentKeys(m)
  {
    hide KeyLess;
    ExecutionOrder1();
    ExecutionOrder2();
    ExecutionOrder3();
  }

  lemma ExecutionKeysPlain(m: seq<Member>)
    requires |m| == 15
    requires m[0].0 == "action" && m[1].0 == "action_parameters_hash"
    requires m[2].0 == "actor_id" && m[3].0 == "approval_id"
    requires m[4].0 == "claimed_at" && m[5].0 == "completed_at"
    requires m[6].0 == "contact_id" && m[7].0 == "created_at"
    requires m[8].0 == "event_id" && m[9].0 == "execution_id"
    requires m[10].0 == "failure_category" && m[11].0 == "policy_version"
    requires m[12].0 == "provenance_hash" && m[13].0 == "status"
    requires m[14].0 == "tag"
    ensures forall i | 0 <= i < |m| :: PlainKey(m[i].0)
  {
  }

  lemma ExecutionListed(b: ExecutionBody)
    ensures Lists(ExecutionMembers(b), ExecutionFields(b),
                  [0, 1, 2, 3, 4, 5, 6, 7, 8, 9, 10, 11, 12, 13, 14])
    ensures AdjacentKeys(ExecutionMembers(b))
  {
    var m, f := ExecutionMembers(b), ExecutionFields(b);
    var order := [0, 1, 2, 3, 4, 5, 6, 7, 8, 9, 10, 11, 12, 13, 14];
    hide Text, Quote, Decimal, NullOr, NullOrFailure, NullOrTime, Optional, OptionalFailure, OptionalTime, KindText,
         StatusText, DatetimeText, PlainKey, AdjacentKeys, ExecutionStatusName;
    ExecutionKeysAscend(m);
    ExecutionKeysPlain(m);
    PlainText("ADD_CONTACT_TAG", None, b.failure, b.completedAt, 0);
    StrText(b.parametersHash);
    StrText(b.actor);
    StrText(b.approvalId);
    StrText(DatetimeText(b.claimedAt));
    StrText(b.parameters.contactId);
    StrText(DatetimeText(b.createdAt));
    StrText(b.eventId);
    StrText(b.executionId);
    StrText(b.policyVersion);
    StrText(b.provenanceHash);
    StrText(StatusText(ExecutionStatusName(b.status)));
    StrText(b.parameters.tag);
    assert forall j: nat | j < 15 :: order[j] == j;
  }

  lemma ExecutionTextIs(b: ExecutionBody)
    ensures ExecutionText(b) == Braced(ExecutionMembers(b))
  {
    hide ExecutionFields, ExecutionMembers, Text, Braced, DistinctKeys, Lists, AdjacentKeys;
    ExecutionKeys(b);
    ExecutionListed(b);
    ObjectText(ExecutionFields(b), ExecutionMembers(b), [0, 1, 2, 3, 4, 5, 6, 7, 8, 9, 10, 11, 12, 13, 14]);
  }

  /** The parameters of an action as hashed. */
  function ParametersMembers(p: Parameters): seq<Member> {
    [("contact_id", Quote(p.contactId)),
     ("tag", Quote(p.tag))]
  }

  lemma ParametersOrder1()
    ensures KeyLess("contact_id", "tag")
  {
  }

  lemma ParametersKeysAscend(m: seq<Member>)
    requires |m| == 2
    requires m[0].0 == "contact_id" && m[1].0 == "tag"
    ensures AdjacentKeys(m)
  {
    hide KeyLess;
    ParametersOrder1();
  }

  lemma ParametersKeysPlain(m: seq<Member>)
    requires |m| == 2
    requires m[0].0 == "contact_id" && m[1].0 == "tag"
    ensures forall i | 0 <= i < |m| :: PlainKey(m[i].0)
  {
  }

  lemma ParametersListed(p: Parameters)
    ensures Lists(ParametersMembers(p), ParametersFields(p),
                  [0, 1])
    ensures AdjacentKeys(ParametersMembers(p))
  {
    var m, f := ParametersMembers(p), ParametersFields(p);
    var order := [0, 1];
    hide Text, Quote, PlainKey, AdjacentKeys;
    ParametersKeysAscend(m);
    ParametersKeysPlain(m);
    StrText(p.contactId);
    StrText(p.tag);
    assert forall j: nat | j < 2 :: order[j] == j;
  }

  lemma ParametersTextIs(p: Parameters)
    ensures ParametersText(p) == Braced(ParametersMembers(p))
  {
    hide ParametersFields, ParametersMembers, Text, Braced, DistinctKeys, Lists, AdjacentKeys;
    ParametersKeys(p, p);
    ParametersListed(p);
    ObjectText(ParametersFields(p), ParametersMembers(p), [0, 1]);
  }

  /** An assessment as hashed, before the predecessor's digest. */
  function AssessmentMembers(b: AssessmentBody): seq<Member> {
    [("actor_id", Quote(b.actor)),
     ("approval_id", Quote(b.approvalId)),
     ("assessment_id", Quote(b.assessmentId)),
     ("declared_outcome", Quote(DeclaredText(b.outcome))),
     ("execution_id", Quote(b.executionId)),
     ("occurred_at", Quote(DatetimeText(b.at))),
     ("original_execution_integrity_hash", Quote(b.originalHash)),
     ("policy_version", Quote(b.policyVersion)),
     ("provenance_hash", Quote(b.provenanceHash)),
     ("reason", Quote(b.reason))]
  }

  lemma AssessmentOrder1()
    ensures KeyLess("actor_id", "approval_id")
    ensures KeyLess("approval_id", "assessment_id")
    ensures KeyLess("assessment_id", "declared_outcome")
    ensures KeyLess("declared_outcome", "execution_id")
    ensures KeyLess("execution_id", "occurred_at")
  {
  }

  lemma AssessmentOrder2()
    ensures KeyLess("occurred_at", "original_execution_integrity_hash")
    ensures KeyLess("original_execution_integrity_hash", "policy_version")
    ensures KeyLess("policy_version", "provenance_hash")
    ensures KeyLess("provenance_hash", "reason")
  {
  }

  lemma AssessmentKeysAscend(m: seq<Member>)
    requires |m| == 10
    requires m[0].0 == "actor_id" && m[1].0 == "approval_id"
    requires m[2].0 == "assessment_id" && m[3].0 == "declared_outcome"
    requires m[4].0 == "execution_id" && m[5].0 == "occurred_at"
    requires m[6].0 == "original_execution_integrity_hash" && m[7].0 == "policy_version"
    requires m[8].0 == "provenance_hash" && m[9].0 == "reason"
    ensures AdjacentKeys(m)
  {
    hide KeyLess;
    AssessmentOrder1();
    AssessmentOrder2();
  }

  lemma AssessmentKeysPlain(m: seq<Member>)
    requires |m| == 10
    requires m[0].0 == "actor_id" && m[1].0 == "approval_id"
    requires m[2].0 == "assessment_id" && m[3].0 == "declared_outcome"
    requires m[4].0 == "execution_id" && m[5].0 == "occurred_at"
    requires m[6].0 == "original_execution_integrity_hash" && m[7].0 == "policy_version"
    requires m[8].0 == "provenance_hash" && m[9].0 == "reason"
    ensures forall i | 0 <= i < |m| :: PlainKey(m[i].0)
  {
  }

  lemma AssessmentListed(b: AssessmentBody)
    ensures Lists(AssessmentMembers(b), AssessmentFields(b),
                  [0, 1, 2, 3, 4, 5, 6, 7, 8, 9])
    ensures AdjacentKeys(AssessmentMembers(b))
  {
    var m, f := AssessmentMembers(b), AssessmentFields(b);
    var order := [0, 1, 2, 3, 4, 5, 6, 7, 8, 9];
    hide Text, Quote, Decimal, NullOr, NullOrFailure, NullOrTime, Optional, OptionalFailure, OptionalTime, KindText,
         StatusText, DatetimeText, PlainKey, AdjacentKeys, DeclaredText;
    AssessmentKeysAscend(m);
    AssessmentKeysPlain(m);
    StrText(b.actor);
    StrText(b.approvalId);
    StrText(b.assessmentId);
    StrText(DeclaredText(b.outcome));
    StrText(b.executionId);
    StrText(DatetimeText(b.at));
    StrText(b.originalHash);
    StrText(b.policyVersion);
    StrText(b.provenanceHash);
    StrText(b.reason);
    assert forall j: nat | j < 10 :: order[j] == j;
  }

  lemma AssessmentTextIs(b: AssessmentBody, prev: Digest)
    ensures AssessmentText(b, prev) == Braced(AssessmentMembers(b)) + prev
  {
    hide AssessmentFields, AssessmentMembers, Text, Braced, DistinctKeys, Lists, AdjacentKeys;
    AssessmentKeys(b);
    AssessmentListed(b);
    ObjectText(AssessmentFields(b), AssessmentMembers(b), [0, 1, 2, 3, 4, 5, 6, 7, 8, 9]);
  }

  /** A security event as hashed, before the predecessor's digest. */
  function SecurityMembers(p: SecurityPayload, n: int): seq<Member> {
    [("actor_id", NullOr(p.actor)),
     ("audit_event_id", Quote(p.id)),
     ("event_type", Quote(p.kind)),
     ("occurred_at", Quote(p.at)),
     ("operation", Quote(p.operation)),
     ("outcome", Quote(p.outcome)),
     ("request_id", Quote(p.request)),
     ("role", NullOr(p.role)),
     ("sequence_number", Decimal(n))]
  }

  lemma SecurityOrder1()
    ensures KeyLess("actor_id", "audit_event_id")
    ensures KeyLess("audit_event_id", "event_type")
    ensures KeyLess("event_type", "occurred_at")
    ensures KeyLess("occurred_at", "operation")
    ensures KeyLess("operation", "outcome")
  {
  }

  lemma SecurityOrder2()
    ensures KeyLess("outcome", "request_id")
    ensures KeyLess("request_id", "role")
    ensures KeyLess("role", "sequence_number")
  {
  }

  lemma SecurityKeysAscend(m: seq<Member>)
    requires |m| == 9
    requires m[0].0 == "actor_id" && m[1].0 == "audit_event_id"
    requires m[2].0 == "event_type" && m[3].0 == "occurred_at"
    requires m[4].0 == "operation" && m[5].0 == "outcome"
    requires m[6].0 == "request_id" && m[7].0 == "role"
    requires m[8].0 == "sequence_number"
    ensures AdjacentKeys(m)
  {
    hide KeyLess;
    SecurityOrder1();
    SecurityOrder2();
  }

  lemma SecurityKeysPlain(m: seq<Member>)
    requires |m| == 9
    requires m[0].0 == "actor_id" && m[1].0 == "audit_event_id"
    requires m[2].0 == "event_type" && m[3].0 == "occurred_at"
    requires m[4].0 == "operation" && m[5].0 == "outcome"
    requires m[6].0 == "request_id" && m[7].0 == "role"
    requires m[8].0 == "sequence_number"
    ensures forall i | 0 <= i < |m| :: PlainKey(m[i].0)
  {
  }

  lemma SecurityListed(p: SecurityPayload, n: int)
    ensures Lists(SecurityMembers(p, n), SecurityFields(p, n),
                  [0, 1, 2, 3, 4, 5, 6, 7, 8])
    ensures AdjacentKeys(SecurityMembers(p, n))
  {
    var m, f := SecurityMembers(p, n), SecurityFields(p, n);
    var order := [0, 1, 2, 3, 4, 5, 6, 7, 8];
    hide Text, Quote, Decimal, NullOr, NullOrFailure, NullOrTime, Optional, OptionalFailure, OptionalTime, KindText,
         StatusText, DatetimeText, PlainKey, AdjacentKeys;
    SecurityKeysAscend(m);
    SecurityKeysPlain(m);
    PlainText(p.id, p.actor, None, None, n);
    PlainText(p.kind, p.role, None, None, 0);
    StrText(p.at);
    StrText(p.operation);
    StrText(p.outcome);
    StrText(p.request);
    assert forall j: nat | j < 9 :: order[j] == j;
  }

  lemma SecurityTextIs(p: SecurityPayload, n: int, prev: Digest)
    ensures SecurityText(p, n, prev) == Braced(SecurityMembers(p, n)) + prev
  {
    hide SecurityFields, SecurityMembers, Text, Braced, DistinctKeys, Lists, AdjacentKeys;
    SecurityKeys(p, n);
    SecurityListed(p, n);
    ObjectText(SecurityFields(p, n), SecurityMembers(p, n), [0, 1, 2, 3, 4, 5, 6, 7, 8]);
  }

  function EvidenceValueText(v: EvidenceValue, floatText: real -> string): string {
    match v
    case NoValue => "null"
    case TextValue(text) => Quote(text)
    case NumberValue(number) => floatText(number)
  }

  /** One piece of evidence. */
  function EvidenceMembers(e: Evidence, floatText: real -> string): seq<Member> {
    [("code", Quote(CodeText(e.code))),
     ("source", Quote(EvidenceSourceText(e.source))),
     ("value", EvidenceValueText(e.value, floatText))]
  }

  lemma EvidenceOrder1()
    ensures KeyLess("code", "source")
    ensures KeyLess("source", "value")
  {
  }

  lemma EvidenceKeysAscend(m: seq<Member>)
    requires |m| == 3
    requires m[0].0 == "code" && m[1].0 == "source"
    requires m[2].0 == "value"
    ensures AdjacentKeys(m)
  {
    hide KeyLess;
    EvidenceOrder1();
  }

  lemma EvidenceKeysPlain(m: seq<Member>)
    requires |m| == 3
    requires m[0].0 == "code" && m[1].0 == "source"
    requires m[2].0 == "value"
    ensures forall i | 0 <= i < |m| :: PlainKey(m[i].0)
  {
  }

  lemma EvidenceListed(e: Evidence, floatText: real -> string)
    ensures Lists(EvidenceMembers(e, floatText), EvidenceFields(e, floatText),
                  [0, 1, 2])
    ensures AdjacentKeys(EvidenceMembers(e, floatText))
  {
    var m, f := EvidenceMembers(e, floatText), EvidenceFields(e, floatText);
    var order := [0, 1, 2];
    hide Text, Quote, CodeText, EvidenceSourceText, ValueJson, EvidenceValueText, PlainKey, AdjacentKeys;
    EvidenceKeysAscend(m);
    EvidenceKeysPlain(m);
    StrText(CodeText(e.code));
    StrText(EvidenceSourceText(e.source));
    EvidenceValueIs(e.value, floatText);
    assert forall j: nat | j < 3 :: order[j] == j;
  }

  lemma EvidenceValueIs(v: EvidenceValue, floatText: real -> string)
    ensures Text(ValueJson(v, floatText)) == EvidenceValueText(v, floatText)
  {
    hide Quote;
  }

  lemma EvidenceTextIs(e: Evidence, floatText: real -> string)
    ensures Text(Obj(EvidenceFields(e, floatText))) == Braced(EvidenceMembers(e, floatText))
  {
    hide EvidenceFields, EvidenceMembers, Text, Braced, DistinctKeys, Lists, AdjacentKeys;
    EvidenceKeys(e, e, floatText);
    EvidenceListed(e, floatText);
    ObjectText(EvidenceFields(e, floatText), EvidenceMembers(e, floatText), [0, 1, 2]);
  }

  /** The pieces of evidence in order, separated by commas. */
  function EvidenceItems(evidence: seq<Evidence>, floatText: real -> string): string {
    if evidence == [] then ""
    else
      Braced(EvidenceMembers(evidence[0], floatText)) +
      (if |evidence| == 1 then "" else "," + EvidenceItems(evidence[1..], floatText))
  }

  lemma {:induction false} ItemsTextIs(evidence: seq<Evidence>, items: seq<Value>, floatText: real -> string)
    requires |items| == |evidence|
    requires forall i | 0 <= i < |items| :: items[i] == Canon(Obj(EvidenceFields(evidence[i], floatText)))
    ensures WriteItems(items) == EvidenceItems(evidence, floatText)
    decreases |items|
  {
    hide Canon, Write, EvidenceFields, EvidenceMembers, Braced;
    if items != [] {
      EvidenceTextIs(evidence[0], floatText);
      assert Write(items[0]) == Text(Obj(EvidenceFields(evidence[0], floatText)));
      forall i | 0 <= i < |items| - 1
        ensures items[1..][i] == Canon(Obj(EvidenceFields(evidence[1..][i], floatText)))
      {
        assert items[1..][i] == items[i + 1] && evidence[1..][i] == evidence[i + 1];
      }
      ItemsTextIs(evidence[1..], items[1..], floatText);
    }
  }

  lemma EvidenceListText(evidence: seq<Evidence>, floatText: real -> string)
    ensures Text(EvidenceJson(evidence, floatText)) == "[" + EvidenceItems(evidence, floatText) + "]"
  {
    var items := Canon(EvidenceJson(evidence, floatText)).items;
    hide EvidenceFields, EvidenceItems;
    ItemsTextIs(evidence, items, floatText);
  }

  function NullOrParameters(p: Option<Parameters>): string {
    if p.None? then "null" else Braced(ParametersMembers(p.value))
  }

  lemma NestedText(t: Terms, floatText: real -> string)
    ensures Text(Float(floatText(t.confidence))) == floatText(t.confidence)
    ensures Text(OptionalParameters(t.parameters)) == NullOrParameters(t.parameters)
  {
    hide ParametersFields, ParametersMembers, Braced;
    if t.parameters.Some? {
      ParametersTextIs(t.parameters.value);
    }
  }

  lemma CanonicalOrder()
    ensures KeyLess("canonical_event_sha256", "canonical_intelligence_sha256")
  {
    assert "canonical_event_sha256" == "canonical_" + "event_sha256";
    assert "canonical_intelligence_sha256" == "canonical_" + "intelligence_sha256";
    CommonPrefixOrder("canonical_", "event_sha256", "intelligence_sha256");
  }

  /** A provenance document as hashed. */
  function ProvenanceMembers(p: Provenance, floatText: real -> string): seq<Member> {
    [("action", Quote(ActionText(p.terms.action))),
     ("action_parameters", NullOrParameters(p.terms.parameters)),
     ("canonical_event_sha256", Quote(p.eventDigest)),
     ("canonical_intelligence_sha256", Quote(p.intelligenceDigest)),
     ("confidence", floatText(p.terms.confidence)),
     ("decision", Quote(DecisionText(p.terms.decision))),
     ("event_id", Quote(p.terms.eventId)),
     ("event_type", Quote(EventTypeText(p.terms.eventType))),
     ("evidence", "[" + EvidenceItems(p.terms.evidence, floatText) + "]"),
     ("policy_version", Quote(p.terms.policyVersion)),
     ("risk", Quote(RiskText(p.terms.risk))),
     ("source", Quote(SourceText(p.terms.source)))]
  }

  lemma ProvenanceOrder1()
    ensures KeyLess("action", "action_parameters")
    ensures KeyLess("action_parameters", "canonical_event_sha256")
    ensures KeyLess("canonical_event_sha256", "canonical_intelligence_sha256")
    ensures KeyLess("canonical_intelligence_sha256", "confidence")
    ensures KeyLess("confidence", "decision")
  {
    CanonicalOrder();
  }

  lemma ProvenanceOrder2()
    ensures KeyLess("decision", "event_id")
    ensures KeyLess("event_id", "event_type")
    ensures KeyLess("event_type", "evidence")
    ensures KeyLess("evidence", "policy_version")
    ensures KeyLess("policy_version", "risk")
  {
  }

  lemma ProvenanceOrder3()
    ensures KeyLess("risk", "source")
  {
  }

  lemma ProvenanceKeysAscend(m: seq<Member>)
    requires |m| == 12
    requires m[0].0 == "action" && m[1].0 == "action_parameters"
    requires m[2].0 == "canonical_event_sha256" && m[3].0 == "canonical_intelligence_sha256"
    requires m[4].0 == "confidence" && m[5].0 == "decision"
    requires m[6].0 == "event_id" && m[7].0 == "event_type"
    requires m[8].0 == "evidence" && m[9].0 == "policy_version"
    requires m[10].0 == "risk" && m[11].0 == "source"
    ensures AdjacentKeys(m)
  {
    hide KeyLess;
    ProvenanceOrder1();
    ProvenanceOrder2();
    ProvenanceOrder3();
  }

  lemma ProvenanceKeysPlain(m: seq<Member>)
    requires |m| == 12
    requires m[0].0 == "action" && m[1].0 == "action_parameters"
    requires m[2].0 == "canonical_event_sha256" && m[3].0 == "canonical_intelligence_sha256"
    requires m[4].0 == "confidence" && m[5].0 == "decision"
    requires m[6].0 == "event_id" && m[7].0 == "event_type"
    requires m[8].0 == "evidence" && m[9].0 == "policy_version"
    requires m[10].0 == "risk" && m[11].0 == "source"
    ensures forall i | 0 <= i < |m| :: PlainKey(m[i].0)
  {
  }

  lemma ProvenanceListed(p: Provenance, floatText: real -> string)
    ensures Lists(ProvenanceMembers(p, floatText), ProvenanceFields(p, floatText),
                  [5, 11, 9, 10, 7, 4, 0, 1, 8, 3, 6, 2])
    ensures AdjacentKeys(ProvenanceMembers(p, floatText))
  {
    var m, f := ProvenanceMembers(p, floatText), ProvenanceFields(p, floatText);
    var order := [5, 11, 9, 10, 7, 4, 0, 1, 8, 3, 6, 2];
    hide Text, Quote, ActionText, DecisionText, EventTypeText, RiskText, SourceText, EvidenceJson, EvidenceItems,
         OptionalParameters, NullOrParameters, PlainKey,
         AdjacentKeys;
    ProvenanceKeysAscend(m);
    ProvenanceKeysPlain(m);
    NestedText(p.terms, floatText);
    EvidenceListText(p.terms.evidence, floatText);
    StrText(ActionText(p.terms.action));
    StrText(p.eventDigest);
    StrText(p.intelligenceDigest);
    StrText(DecisionText(p.terms.decision));
    StrText(p.terms.eventId);
    StrText(EventTypeText(p.terms.eventType));
    StrText(p.terms.policyVersion);
    StrText(RiskText(p.terms.risk));
    StrText(SourceText(p.terms.source));
    assert forall j: nat | j < 12 :: j in order by {
      assert order[6] == 0;
      assert order[7] == 1;
      assert order[11] == 2;
      assert order[9] == 3;
      assert order[5] == 4;
      assert order[0] == 5;
      assert order[10] == 6;
      assert order[4] == 7;
      assert order[8] == 8;
      assert order[2] == 9;
      assert order[3] == 10;
      assert order[1] == 11;
    }
  }

  lemma ProvenanceTextIs(p: Provenance, floatText: real -> string)
    ensures ProvenanceText(p, floatText) == Braced(ProvenanceMembers(p, floatText))
  {
    hide ProvenanceFields, ProvenanceMembers, Text, Braced, DistinctKeys, Lists, AdjacentKeys;
    ProvenanceKeys(p, floatText);
    ProvenanceListed(p, floatText);
    ObjectText(ProvenanceFields(p, floatText), ProvenanceMembers(p, floatText),
               [5, 11, 9, 10, 7, 4, 0, 1, 8, 3, 6, 2]);
  }
}
