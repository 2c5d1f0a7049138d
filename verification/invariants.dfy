/** The invariant every committed state of the tables satisfies, and its preservation by each operation. */
module Invariants {
  import opened Prelude
  import opened Timestamps
  import opened Texts
  import opened Records
  import opened AuditTrail
  import opened Ledger
  import opened Transactions

  /** Everything the tables hold about one approval. */
  datatype View = View(
    row: ApprovalRow, events: seq<AuditEvent>, execution: Option<ExecutionRow>, assessment: Option<AssessmentRow>)

  function ViewOf(db: Db, id: string): View
    requires id in db.approvals
  {
    View(
      db.approvals[id],
      EventsOf(db, id),
      if id in db.executionOf && db.executionOf[id] in db.executions then Some(db.executions[db.executionOf[id]])
      else None,
      if id in db.executionOf && db.executionOf[id] in db.assessments then Some(db.assessments[db.executionOf[id]])
      else None)
  }

  function ExecutionAccountOf(x: ExecutionRow): ExecutionAccount {
    ExecutionAccount(x.body.executionId, x.body.status, x.body.actor, x.body.claimedAt, x.body.completedAt,
                     x.body.failure)
  }

  /** What the rows say, in the terms of the audit log. */
  function AccountOf(v: View): Account {
    Account(
      Some(v.row.status), v.row.decidedAt, v.row.approver,
      if v.execution.None? then None else Some(ExecutionAccountOf(v.execution.value)),
      if v.assessment.None? then None else Some(v.assessment.value.hash))
  }

  ghost predicate ChainCoherent(rules: Rules, id: string, v: View) {
    match v
    case View(row, events, _, _) =>
      && row.approvalId == id
      && row.count == |events|
      && row.head == LinkAt(events, |events|)
      && Linked(rules, events)
      && DistinctIds(events)
      && KnownActors(events)
      && (forall i | 0 <= i < |events| :: events[i].payload.approvalId == id)
      && Replay(events) == Some(AccountOf(v))
  }

  predicate RowSound(rules: Rules, row: ApprovalRow) {
    && ProvenanceReadable(row.provenance)
    && rules.provenance(row.provenance) == row.provenanceHash
    && ApprovalReadable(rules, row)
    && row.provenance.terms == row.terms
    && row.terms.decision == RequireHumanApproval
  }

  /** Decisions fall strictly before the expiry and expiries at or after it, whatever the clock did. */
  predicate ExpiryExact(row: ApprovalRow) {
    && (row.status in {Approved, Rejected} && row.decidedAt.Some? ==> Before(row.decidedAt.value, row.expiresAt))
    && (row.status == Expired && row.decidedAt.Some? ==> !Before(row.decidedAt.value, row.expiresAt))
  }

  predicate ExecutionSound(rules: Rules, id: string, row: ApprovalRow, x: ExecutionRow) {
    && x.body.approvalId == id
    && x.body.eventId == row.terms.eventId
    && x.body.status != Prepared
    && ExecutionReadable(x.body)
    && ExecutionMatches(rules, x, row)
    && row.status == Approved
    && Before(x.body.claimedAt, row.expiresAt)
  }

  predicate AssessmentSound(rules: Rules, x: ExecutionRow, y: AssessmentRow) {
    && x.body.status == Unknown
    && y.body.executionId == x.body.executionId
    && AssessmentReadable(y.body)
    && y.body.originalHash == x.integrityHash
    && y.body.provenanceHash == x.body.provenanceHash
    && y.prev == GENESIS
    && rules.assessment(y.body, y.prev) == y.hash
  }

  predicate RowsCoherent(rules: Rules, id: string, v: View) {
    match v
    case View(row, _, execution, assessment) =>
      && row.approvalId == id
      && RowSound(rules, row)
      && ExpiryExact(row)
      && (execution.Some? ==> ExecutionSound(rules, id, row, execution.value))
      && (assessment.Some? ==> execution.Some? && AssessmentSound(rules, execution.value, assessment.value))
  }

  ghost predicate Coherent(rules: Rules, id: string, v: View) {
    ChainCoherent(rules, id, v) && RowsCoherent(rules, id, v)
  }

  ghost predicate ExecutionsIndexed(db: Db) {
    match db
    case Db(_, _, _, _, _, _, _) =>
    && (forall id | id in db.executionOf ::
          id in db.approvals && db.executionOf[id] in db.executions
            && db.executions[db.executionOf[id]].body.approvalId == id)
    && (forall x | x in db.executions ::
          && db.executions[x].body.executionId == x
          && db.executions[x].body.approvalId in db.executionOf
          && db.executionOf[db.executions[x].body.approvalId] == x)
    && (forall x | x in db.assessments :: x in db.executions && db.assessments[x].body.assessmentId in db.assessmentIds)
  }

  ghost predicate EventsIndexed(db: Db) {
    match db
    case Db(_, _, _, _, _, _, _) => forall id, i | id in db.events && 0 <= i < |db.events[id]| ::
      db.events[id][i].payload.id in db.auditIds
  }

  ghost predicate AllCoherent(rules: Rules, db: Db) {
    match db
    case Db(approvals, events, _, _, _, _, _) =>
      && events.Keys == approvals.Keys
      && (forall id | id in approvals :: Coherent(rules, id, ViewOf(db, id)))
  }

  ghost predicate Inv(rules: Rules, db: Db) {
    match db
    case Db(_, _, _, _, _, _, _) => AllCoherent(rules, db) && EventsIndexed(db) && ExecutionsIndexed(db)
  }

  lemma InvInitially(rules: Rules)
    ensures Inv(rules, EMPTY_DB)
  {
  }

  // ---------------------------------------------------------------- one event at the end of one chain

  /** The tables after an event was appended to the chain of `p.approvalId`. */
  function Appended(rules: Rules, db: Db, p: AuditPayload): Db
    requires p.approvalId in db.approvals
  {
    var events := EventsOf(db, p.approvalId);
    var e := NextEvent(rules, p, LinkAt(events, |events|));
    db.(
      events := db.events[p.approvalId := events + [e]],
      auditIds := db.auditIds + {p.id},
      approvals := db.approvals[p.approvalId := db.approvals[p.approvalId].(count := p.sequence, head := e.hash)])
  }

  /**
   On a linked chain, the next number at the current head is refused only for a repeated identifier
   or the actor's length.
   */
  lemma AppendAtEnd(rules: Rules, db: Db, p: AuditPayload, prev: Digest)
    requires p.approvalId in db.approvals
    requires Linked(rules, EventsOf(db, p.approvalId))
    requires p.sequence == |EventsOf(db, p.approvalId)| + 1
    requires prev == LinkAt(EventsOf(db, p.approvalId), |EventsOf(db, p.approvalId)|)
    ensures Append(rules, db, p, prev) ==
            if p.id in db.auditIds || !StorableActor(p.actor) then None else Some(Appended(rules, db, p))
  {
    var events := EventsOf(db, p.approvalId);
    forall i | 0 <= i < |events| ensures events[i].payload.sequence == i + 1 {
      assert LinkedAt(rules, events, i);
    }
    assert !SequenceTaken(events, p.sequence);
  }

  lemma ExtendChain(rules: Rules, id: string, v: View, v': View, p: AuditPayload)
    requires ChainCoherent(rules, id, v)
    requires p.approvalId == id && p.sequence == |v.events| + 1 && ValidActor(p.actor)
    requires forall i | 0 <= i < |v.events| :: v.events[i].payload.id != p.id
    requires var e := NextEvent(rules, p, LinkAt(v.events, |v.events|));
             v'.events == v.events + [e] && v'.row.approvalId == id && v'.row.count == p.sequence
               && v'.row.head == e.hash
    requires Advance(AccountOf(v), p) == Some(AccountOf(v'))
    ensures ChainCoherent(rules, id, v')
  {
    AppendKeepsChain(rules, v.events, p);
    ReplayAppend(v.events, NextEvent(rules, p, LinkAt(v.events, |v.events|)));
  }

  lemma FreshInChain(db: Db, id: string, auditId: string)
    requires EventsIndexed(db) && auditId !in db.auditIds
    ensures forall i | 0 <= i < |EventsOf(db, id)| :: EventsOf(db, id)[i].payload.id != auditId
  {
  }

  function Grown(rules: Rules, v: View, p: AuditPayload): View {
    var e := NextEvent(rules, p, LinkAt(v.events, |v.events|));
    v.(row := v.row.(count := p.sequence, head := e.hash), events := v.events + [e])
  }

  lemma AppendedViews(rules: Rules, db: Db, p: AuditPayload)
    requires p.approvalId in db.approvals
    ensures ViewOf(Appended(rules, db, p), p.approvalId) == Grown(rules, ViewOf(db, p.approvalId), p)
    ensures forall id | id in db.approvals && id != p.approvalId :: ViewOf(Appended(rules, db, p), id) == ViewOf(db, id)
  {
  }

  lemma AppendedIndexed(rules: Rules, db: Db, p: AuditPayload)
    requires p.approvalId in db.approvals && EventsIndexed(db)
    ensures EventsIndexed(Appended(rules, db, p))
  {
    var db' := Appended(rules, db, p);
    forall id, i | id in db'.events && 0 <= i < |db'.events[id]| ensures db'.events[id][i].payload.id in db'.auditIds {
      if id == p.approvalId && i < |EventsOf(db, id)| {
        assert db'.events[id][i] == db.events[id][i];
      }
    }
  }

  lemma AppendedKeys(rules: Rules, db: Db, p: AuditPayload)
    requires p.approvalId in db.approvals
    ensures Appended(rules, db, p).approvals.Keys == db.approvals.Keys
    ensures Appended(rules, db, p).events.Keys == db.events.Keys + {p.approvalId}
  {
  }

  lemma AppendedExecutions(rules: Rules, db: Db, p: AuditPayload)
    requires p.approvalId in db.approvals && ExecutionsIndexed(db)
    ensures ExecutionsIndexed(Appended(rules, db, p))
  {
  }

  /** What an operation may do to the view of its approval before appending the event `p`. */
  ghost predicate Rewrites(rules: Rules, v: View, w: View, p: AuditPayload) {
    match w
    case View(_, events, _, _) =>
    && events == v.events
    && p.sequence == |v.events| + 1
    && ValidActor(p.actor)
    && Advance(AccountOf(v), p) == Some(AccountOf(w))
    && RowsCoherent(rules, p.approvalId, w)
  }

  lemma GrownCoherent(rules: Rules, v: View, w: View, p: AuditPayload)
    requires Coherent(rules, p.approvalId, v) && Rewrites(rules, v, w, p)
    requires forall i | 0 <= i < |v.events| :: v.events[i].payload.id != p.id
    ensures Coherent(rules, p.approvalId, Grown(rules, w, p))
  {
    ExtendChain(rules, p.approvalId, v, Grown(rules, w, p), p);
  }

  lemma OperationView(rules: Rules, db: Db, mid: Db, p: AuditPayload)
    requires EventsIndexed(db) && p.id !in db.auditIds
    requires p.approvalId in db.approvals && p.approvalId in mid.approvals
    requires Coherent(rules, p.approvalId, ViewOf(db, p.approvalId))
    requires Rewrites(rules, ViewOf(db, p.approvalId), ViewOf(mid, p.approvalId), p)
    ensures Coherent(rules, p.approvalId, ViewOf(Appended(rules, mid, p), p.approvalId))
  {
    FreshInChain(db, p.approvalId, p.id);
    GrownCoherent(rules, ViewOf(db, p.approvalId), ViewOf(mid, p.approvalId), p);
    AppendedViews(rules, mid, p);
  }

  /** Only the rows of one approval differ, and that approval may be new. */
  ghost predicate OnlyViewChanged(db: Db, db': Db, id: string) {
    match db'
    case Db(approvals, events, _, _, _, _, _) =>
      && approvals.Keys == db.approvals.Keys + {id}
      && events.Keys == db.events.Keys + {id}
      && (forall other | other in db.approvals && other != id :: ViewOf(db', other) == ViewOf(db, other))
  }

  lemma AppendedOnlyView(rules: Rules, db: Db, mid: Db, p: AuditPayload)
    requires p.approvalId in mid.approvals
    requires mid.events == db.events && mid.approvals.Keys == db.approvals.Keys + {p.approvalId}
    requires forall id | id in db.approvals && id != p.approvalId :: ViewOf(mid, id) == ViewOf(db, id)
    ensures OnlyViewChanged(db, Appended(rules, mid, p), p.approvalId)
  {
    AppendedKeys(rules, mid, p);
    AppendedViews(rules, mid, p);
  }

  lemma OnlyViewCoherent(rules: Rules, db: Db, db': Db, id: string)
    requires AllCoherent(rules, db) && OnlyViewChanged(db, db', id)
    requires Coherent(rules, id, ViewOf(db', id))
    ensures AllCoherent(rules, db')
  {
    forall other | other in db'.approvals ensures Coherent(rules, other, ViewOf(db', other)) {
      assert other in db.approvals.Keys + {id};
    }
  }

  /** `mid` is `db` with the row, execution or assessment of one approval rewritten. */
  ghost predicate Rewritten(db: Db, mid: Db, id: string) {
    match mid
    case Db(approvals, events, auditIds, _, _, _, _) =>
      && approvals.Keys == db.approvals.Keys
      && events == db.events
      && auditIds == db.auditIds
      && ExecutionsIndexed(mid)
      && (forall other | other in db.approvals && other != id :: ViewOf(mid, other) == ViewOf(db, other))
  }

  lemma RewrittenAppended(rules: Rules, db: Db, mid: Db, p: AuditPayload)
    requires p.approvalId in db.approvals && p.approvalId in mid.approvals
    requires Rewritten(db, mid, p.approvalId) && EventsIndexed(db)
    ensures OnlyViewChanged(db, Appended(rules, mid, p), p.approvalId)
    ensures EventsIndexed(Appended(rules, mid, p)) && ExecutionsIndexed(Appended(rules, mid, p))
  {
    hide ViewOf, ExecutionsIndexed;
    assert mid.approvals.Keys == db.approvals.Keys + {p.approvalId};
    hide Appended, OnlyViewChanged;
    AppendedOnlyView(rules, db, mid, p);
    AppendedIndexed(rules, mid, p);
    AppendedExecutions(rules, mid, p);
  }

  /** One operation on one approval: its rows are rewritten and the event `p` is appended for it. */
  lemma OperationKeepsInv(rules: Rules, db: Db, mid: Db, p: AuditPayload)
    requires Inv(rules, db)
    requires p.approvalId in db.approvals && p.approvalId in mid.approvals && p.id !in db.auditIds
    requires Rewritten(db, mid, p.approvalId)
    requires Rewrites(rules, ViewOf(db, p.approvalId), ViewOf(mid, p.approvalId), p)
    ensures Inv(rules, Appended(rules, mid, p))
  {
    hide Coherent, Appended, ViewOf, Rewrites, Rewritten, EventsIndexed, ExecutionsIndexed, OnlyViewChanged;
    RewrittenAppended(rules, db, mid, p);
    OperationView(rules, db, mid, p);
    OnlyViewCoherent(rules, db, Appended(rules, mid, p), p.approvalId);
  }
}
