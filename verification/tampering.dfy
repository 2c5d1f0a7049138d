/**
 What the verifiers of stored rows notice.  The conditions under which an approval, an execution
 and an assessment are accepted, written out; and, with the source's own digests, what follows
 for a row put in place of one the operations wrote.
 */
module Tampering {
  import opened Prelude
  import opened Timestamps
  import opened Texts
  import opened Records
  import opened AuditTrail
  import opened Transactions
  import opened Invariants
  import opened Preservation
  import opened Progress
  import opened Policy
  import opened Protocol
  import opened Guarantees
  import opened Encoding

  // ---------------------------------------------------------------- what is accepted, written out

  /** The event carries its number, the digest of the one before it, its own digest, and a known actor. */
  predicate InPlace(rules: Rules, events: seq<AuditEvent>, i: nat)
    requires i < |events|
  {
    && events[i].payload.sequence == i + 1
    && events[i].prev == (if i == 0 then GENESIS else events[i - 1].hash)
    && events[i].hash == rules.event(events[i].payload, events[i].prev)
    && ValidActor(events[i].payload.actor)
  }

  /** Numbered, linked, free of repetition, short enough, by known actors, and ending at the row's count and head. */
  ghost predicate TrailFits(rules: Rules, row: ApprovalRow, events: seq<AuditEvent>) {
    && |events| == row.count <= 1_000_000
    && (forall i | 0 <= i < |events| :: InPlace(rules, events, i))
    && (forall i, j | 0 <= i < j < |events| :: events[i].payload.id != events[j].payload.id)
    && row.head == if events == [] then GENESIS else events[|events| - 1].hash
  }

  /** The row repeats a provenance document that has the stored digest and asked for a human. */
  predicate ProvenanceFits(rules: Rules, row: ApprovalRow) {
    && rules.provenance(row.provenance) == row.provenanceHash
    && row.provenance.terms == row.terms
    && row.terms.decision == RequireHumanApproval && row.terms.policyVersion == "1.0"
    && (row.terms.action == AddContactTag <==> row.terms.parameters.Some?)
  }

  /** Its decision has the shape its status asks for. */
  predicate DecisionFits(rules: Rules, row: ApprovalRow) {
    && Before(row.createdAt, row.expiresAt)
    && (row.decidedAt.None? <==> row.status == Pending)
    && (row.status in {Pending, Expired} ==> row.approver.None?)
    && (row.status in {Approved, Rejected} ==> row.approver.Some? && ValidActor(row.approver.value))
    && (row.status in {Pending, Approved} ==> row.reason.None?)
    && (row.status == Rejected ==> row.reason.Some?)
    && (row.reason.Some? ==> ReadableReason(rules.unsafeReason, row.reason.value))
  }

  /** The execution has the digests of its own fields, and its approval's parameters, provenance and action. */
  predicate ExecutionFits(rules: Rules, x: ExecutionRow, row: ApprovalRow) {
    && x.integrityHash == rules.execution(x.body)
    && x.body.parametersHash == rules.parameters(x.body.parameters)
    && row.terms.parameters == Some(x.body.parameters) && row.terms.action == AddContactTag
    && x.body.provenanceHash == row.provenanceHash && x.body.policyVersion == "1.0"
    && ValidActor(x.body.actor)
    && (x.body.completedAt.Some? <==> x.body.status in {Succeeded, Failed, Unknown})
    && (x.body.status == Succeeded ==> x.body.failure.None?)
    && (x.body.status in {Failed, Unknown} ==> x.body.failure.Some?)
  }

  lemma TrailFitsExactly(rules: Rules, row: ApprovalRow, events: seq<AuditEvent>)
    ensures Inspect(rules, events, row.count, row.head) == Intact <==> TrailFits(rules, row, events)
  {
    InspectAccepts(rules, events, row.count, row.head);
    hide Inspect, ValidActor, InPlace, LinkedAt;
    if Linked(rules, events) && KnownActors(events) {
      forall i | 0 <= i < |events| ensures InPlace(rules, events, i) {
        InPlaceMeans(rules, events, i);
      }
    }
    if TrailFits(rules, row, events) {
      forall i | 0 <= i < |events| ensures LinkedAt(rules, events, i) && ValidActor(events[i].payload.actor) {
        InPlaceMeans(rules, events, i);
      }
    }
  }

  lemma InPlaceMeans(rules: Rules, events: seq<AuditEvent>, i: nat)
    requires i < |events|
    ensures InPlace(rules, events, i) <==> LinkedAt(rules, events, i) && ValidActor(events[i].payload.actor)
  {
    hide ValidActor;
  }

  /** An approval is accepted exactly when trail, provenance and decision fit. */
  lemma ApprovalAcceptedExactly(rules: Rules, row: ApprovalRow, events: seq<AuditEvent>)
    ensures ApprovalSoundness(rules, row, events) == Sound <==>
              TrailFits(rules, row, events) && ProvenanceFits(rules, row) && DecisionFits(rules, row)
  {
    TrailFitsExactly(rules, row, events);
    hide Inspect, TrailFits, ValidActor, ReadableReason;
  }

  /** An execution is accepted exactly when its approval is and its own fields fit. */
  lemma ExecutionAcceptedExactly(rules: Rules, x: ExecutionRow, row: ApprovalRow, events: seq<AuditEvent>,
                                 malformed: Fault)
    ensures ExecutionFault(rules, x, row, events, events, malformed) == None <==>
            && TrailFits(rules, row, events) && ProvenanceFits(rules, row) && DecisionFits(rules, row)
            && ExecutionFits(rules, x, row)
  {
    TrailFitsExactly(rules, row, events);
    ApprovalAcceptedExactly(rules, row, events);
    hide Inspect, ApprovalSoundness, TrailFits, DecisionFits, ValidActor;
  }

  /**
   Which error an altered row raises: the approval's provenance is blamed for a document that
   lacks its digest or a readable row that does not repeat it; the execution for a broken trail
   or fields that do not fit; and what no model accepts is the caller's malformed case.
   */
  lemma BlameExactly(rules: Rules, x: ExecutionRow, row: ApprovalRow, events: seq<AuditEvent>, malformed: Fault)
    requires malformed != ProvenanceInvalid
    ensures ExecutionFault(rules, x, row, events, events, malformed) == Some(ProvenanceInvalid) <==>
            && TrailFits(rules, row, events) && ProvenanceReadable(row.provenance)
            && (|| rules.provenance(row.provenance) != row.provenanceHash
                || (ApprovalReadable(rules, row)
                    && (row.provenance.terms != row.terms || row.terms.decision != RequireHumanApproval)))
    ensures TrailFits(rules, row, events) && ProvenanceFits(rules, row) && DecisionFits(rules, row)
            && ExecutionReadable(x.body) && !ExecutionFits(rules, x, row) ==>
              ExecutionFault(rules, x, row, events, events, malformed) == Some(ExecutionIntegrity)
  {
    TrailFitsExactly(rules, row, events);
    ApprovalAcceptedExactly(rules, row, events);
    hide Inspect, TrailFits, DecisionFits, ValidActor, ApprovalReadable;
  }

  /** An assessment is answered exactly when it is one of an UNKNOWN execution as that execution stands. */
  lemma AssessmentAcceptedExactly(rules: Rules, db: Db, executionId: string)
    ensures ReadAssessment(rules, db, executionId).Ok? <==>
            && executionId in db.assessments && executionId in db.executions
            && var (y, x) := (db.assessments[executionId], db.executions[executionId]);
               && y.hash == rules.assessment(y.body, y.prev) && y.prev == GENESIS
               && x.body.status == Unknown
               && y.body.originalHash == x.integrityHash && y.body.provenanceHash == x.body.provenanceHash
               && y.body.policyVersion == "1.0" && ValidActor(y.body.actor) && 1 <= |y.body.reason| <= 500
    ensures ReadAssessment(rules, db, executionId).Ok? ==>
              ReadAssessment(rules, db, executionId).value == db.assessments[executionId].body
  {
    hide ValidActor;
  }

  // ---------------------------------------------------------------- rows put in place of stored ones

  /**
   With the source's digests, in every reachable state: a row put in place of a stored execution
   under its integrity hash is answered only if it is that execution, or the texts hashed for the
   two are different and have one hash.
   */
  lemma AlteredExecutionNeedsClash(config: Config, actions: seq<Move>, executionId: string, x: ExecutionRow,
                                   h: string -> Digest, floatText: real -> string)
    requires config.rules == TextRules(h, floatText, config.rules.unsafeReason)
    requires executionId in Reached(config, actions).db.executions
    requires x.integrityHash == Reached(config, actions).db.executions[executionId].integrityHash
    requires var db := Reached(config, actions).db;
             ReadExecution(config.rules, db.(executions := db.executions[executionId := x]), executionId).Ok?
    ensures var stored := Reached(config, actions).db.executions[executionId];
            x == stored || Clash(h, ExecutionText(x.body), ExecutionText(stored.body))
  {
    var db := Reached(config, actions).db;
    var stored := db.executions[executionId];
    ReachedTables(config, actions);
    ReadExecutionFits(config.rules, db.(executions := db.executions[executionId := x]), executionId);
    hide Inv, Reached, ReadExecution, TextRules, ExecutionText, ValidActor;
    ExecutionRows(config.rules, db, executionId);
    IntegrityHashCommits(h, floatText, config.rules.unsafeReason, x.body, stored.body);
  }

  lemma ReadExecutionFits(rules: Rules, db: Db, executionId: string)
    requires ReadExecution(rules, db, executionId).Ok?
    ensures executionId in db.executions
    ensures var x := db.executions[executionId];
            x.body.approvalId in db.approvals && ExecutionFits(rules, x, db.approvals[x.body.approvalId])
  {
    var x := db.executions[executionId];
    hide ExecutionFault, ExecutionFits;
    ExecutionAcceptedExactly(rules, x, db.approvals[x.body.approvalId], EventsOf(db, x.body.approvalId),
                             ExecutionIntegrity);
  }

  /** The same for an assessment under its stored hash. */
  lemma AlteredAssessmentNeedsClash(config: Config, actions: seq<Move>, executionId: string, y: AssessmentRow,
                                    h: string -> Digest, floatText: real -> string)
    requires config.rules == TextRules(h, floatText, config.rules.unsafeReason)
    requires executionId in Reached(config, actions).db.assessments
    requires y.hash == Reached(config, actions).db.assessments[executionId].hash
    requires var db := Reached(config, actions).db;
             ReadAssessment(config.rules, db.(assessments := db.assessments[executionId := y]), executionId).Ok?
    ensures var stored := Reached(config, actions).db.assessments[executionId];
            y == stored || Clash(h, AssessmentText(y.body, y.prev), AssessmentText(stored.body, stored.prev))
  {
    var db := Reached(config, actions).db;
    var stored := db.assessments[executionId];
    ReachedTables(config, actions);
    hide Inv, Reached, ReadAssessment, TextRules, AssessmentText, ValidActor;
    AssessmentAcceptedExactly(config.rules, db.(assessments := db.assessments[executionId := y]), executionId);
    AssessmentAccepted(config.rules, db, executionId);
    AssessmentAcceptedExactly(config.rules, db, executionId);
    AssessmentHashCommits(h, floatText, config.rules.unsafeReason, y.body, y.prev, stored.body, stored.prev);
  }

  /**
   The same for the terms of an approval: a row under the stored provenance digest is accepted
   only with the stored terms, numbers as far as their text goes, or two texts clash.
   */
  lemma AlteredApprovalNeedsClash(config: Config, actions: seq<Move>, id: string, row: ApprovalRow,
                                  h: string -> Digest, floatText: real -> string)
    requires config.rules == TextRules(h, floatText, config.rules.unsafeReason) && Renders(floatText)
    requires id in Reached(config, actions).db.approvals
    requires row.provenanceHash == Reached(config, actions).db.approvals[id].provenanceHash
    requires ApprovalSoundness(config.rules, row, EventsOf(Reached(config, actions).db, id)) == Sound
    ensures var stored := Reached(config, actions).db.approvals[id];
            || (&& SameProvenance(floatText, row.provenance, stored.provenance)
                && row.terms == row.provenance.terms && stored.terms == stored.provenance.terms
                && row.count == stored.count && row.head == stored.head)
            || Clash(h, ProvenanceText(row.provenance, floatText), ProvenanceText(stored.provenance, floatText))
  {
    var db := Reached(config, actions).db;
    var stored := db.approvals[id];
    ReachedTables(config, actions);
    hide Inv, Reached, ApprovalSoundness, TextRules, ProvenanceText, SameProvenance, Renders, DecisionFits;
    ApprovalAcceptedExactly(config.rules, row, EventsOf(db, id));
    CoherentRows(config.rules, db, id);
    CoherentLinked(config.rules, db, id);
    ProvenanceHashCommits(h, floatText, config.rules.unsafeReason, row.provenance, stored.provenance);
  }

  /**
   An approval's times and decision have no digest of their own: in every reachable state within
   the bound, a row with any others is accepted exactly when they have the shape its status asks for.
   */
  lemma DecisionIsCheckedForShape(config: Config, actions: seq<Move>, id: string, row: ApprovalRow)
    requires id in Reached(config, actions).db.approvals
    requires |EventsOf(Reached(config, actions).db, id)| <= 1_000_000
    requires var stored := Reached(config, actions).db.approvals[id];
             row == stored.(status := row.status, createdAt := row.createdAt, expiresAt := row.expiresAt,
                            decidedAt := row.decidedAt, approver := row.approver, reason := row.reason)
    ensures ApprovalSoundness(config.rules, row, EventsOf(Reached(config, actions).db, id)) == Sound <==>
              DecisionFits(config.rules, row)
  {
    var db := Reached(config, actions).db;
    ReachedTables(config, actions);
    hide Inv, Reached, ApprovalSoundness, DecisionFits, TrailFits;
    ApprovalAccepted(config.rules, db, id);
    ApprovalAcceptedExactly(config.rules, row, EventsOf(db, id));
    ApprovalAcceptedExactly(config.rules, db.approvals[id], EventsOf(db, id));
    TrailOfSame(config.rules, db.approvals[id], row, EventsOf(db, id));
  }

  lemma TrailOfSame(rules: Rules, row: ApprovalRow, row': ApprovalRow, events: seq<AuditEvent>)
    requires row'.count == row.count && row'.head == row.head
    ensures TrailFits(rules, row, events) == TrailFits(rules, row', events)
  {
  }
}
