/**
 Readers outside a transaction.  `get_execution`, `verify_audit_chain` and `get_reconciliation`
 issue one SELECT after another, so each may see a later state of the tables than the one before.
 */
module Readers {
  import opened Prelude
  import opened Records
  import opened AuditTrail
  import opened Transactions
  import opened Invariants
  import opened Preservation
  import opened Progress
  import opened Protocol
  import opened Guarantees
  import opened Policy

  /** The execution row, the approval row and the two selections of audit rows, each from its own state. */
  function GetExecutionAcross(rules: Rules, d1: Db, d2: Db, d3: Db, d4: Db,
                              executionId: string): Result<ExecutionBody, Fault> {
    if executionId !in d1.executions then Err(ExecutionNotFound)
    else
      var x := d1.executions[executionId];
      var id := x.body.approvalId;
      if id !in d2.approvals then Err(ApprovalNotFound)
      else match ExecutionFault(rules, x, d2.approvals[id], EventsOf(d3, id), EventsOf(d4, id), ExecutionIntegrity)
        case Some(fault) => Err(fault)
        case None => Ok(x.body)
  }

  function VerifyChainAcross(rules: Rules, d1: Db, d2: Db, id: string): Result<bool, Fault> {
    if id !in d1.approvals then Err(ApprovalNotFound)
    else Ok(Inspect(rules, EventsOf(d2, id), d1.approvals[id].count, d1.approvals[id].head) == Intact)
  }

  function GetReconciliationAcross(rules: Rules, d1: Db, d2: Db, executionId: string): Result<AssessmentBody, Fault> {
    if executionId !in d1.assessments then Err(ExecutionNotFound)
    else ReadAssessment(rules, d2.(assessments := d1.assessments), executionId)
  }

  ghost predicate SameTrail(db: Db, db': Db, id: string) {
    EventsOf(db, id) == EventsOf(db', id)
  }

  lemma TrailGrows(rules: Rules, db: Db, db': Db, id: string)
    requires Inv(rules, db) && Inv(rules, db') && Later(db, db') && id in db.approvals
    ensures id in db'.approvals && EventsOf(db, id) <= EventsOf(db', id)
    ensures db.approvals[id].count == |EventsOf(db, id)|
  {
    CoherentLinked(rules, db, id);
    ViewKept(db, db', id);
    hide Inv, Later;
  }

  /** The loop compares the row's count with the rows it selects, so any append in between is seen. */
  lemma ChainAcross(rules: Rules, db: Db, db': Db, id: string)
    requires Inv(rules, db) && Inv(rules, db') && Later(db, db') && id in db.approvals
    ensures Inspect(rules, EventsOf(db', id), db.approvals[id].count, db.approvals[id].head) ==
            if !SameTrail(db, db', id) then Broken
            else if |EventsOf(db, id)| <= 1_000_000 then Intact
            else Unreadable
  {
    hide Inv, Later, Scan;
    TrailGrows(rules, db, db', id);
    ApprovalAccepted(rules, db, id);
    if |EventsOf(db, id)| == |EventsOf(db', id)| {
      assert SameTrail(db, db', id);
    }
  }

  lemma SoundAcross(rules: Rules, db: Db, db': Db, id: string)
    requires Inv(rules, db) && Inv(rules, db') && Later(db, db') && id in db.approvals
    ensures ApprovalSoundness(rules, db.approvals[id], EventsOf(db', id)) ==
            if !SameTrail(db, db', id) then Tampered
            else if |EventsOf(db, id)| <= 1_000_000 then Sound
            else Malformed
  {
    hide Inv, Later, Inspect;
    ChainAcross(rules, db, db', id);
    ApprovalAccepted(rules, db, id);
  }

  lemma FaultFrom(rules: Rules, x: ExecutionRow, row: ApprovalRow, first: seq<AuditEvent>, second: seq<AuditEvent>,
                  malformed: Fault)
    requires ExecutionReadable(x.body) && ExecutionMatches(rules, x, row)
    ensures ExecutionFault(rules, x, row, first, second, malformed) == None <==>
            Inspect(rules, first, row.count, row.head) == Intact && ApprovalSoundness(rules, row, second) == Sound
  {
    hide Inspect, ApprovalSoundness, ExecutionMatches, ExecutionReadable;
  }

  /** Four states of one run, in order. */
  ghost predicate Moments(rules: Rules, d1: Db, d2: Db, d3: Db, d4: Db) {
    && Inv(rules, d1) && Inv(rules, d2) && Inv(rules, d3) && Inv(rules, d4)
    && Later(d1, d2) && Later(d2, d3) && Later(d3, d4)
  }

  lemma MomentsMean(rules: Rules, d1: Db, d2: Db, d3: Db, d4: Db)
    ensures Moments(rules, d1, d2, d3, d4) <==>
            && Inv(rules, d1) && Inv(rules, d2) && Inv(rules, d3) && Inv(rules, d4)
            && Later(d1, d2) && Later(d2, d3) && Later(d3, d4)
  {
    hide Inv, Later;
  }

  /** No event was appended to the approval between its row and either selection of audit rows. */
  ghost predicate Undisturbed(d2: Db, d3: Db, d4: Db, id: string) {
    SameTrail(d2, d3, id) && SameTrail(d2, d4, id)
  }

  /**
   `get_execution` against a moving database: it accepts exactly when no event was appended to
   that approval between the approval row and either selection of audit rows (and the chain is
   readable); what it returns is the row committed when the call began.
   */
  lemma GetExecutionIsSound(rules: Rules, d1: Db, d2: Db, d3: Db, d4: Db, executionId: string, x: ExecutionRow)
    requires Moments(rules, d1, d2, d3, d4)
    requires executionId in d1.executions && d1.executions[executionId] == x
    ensures var r := GetExecutionAcross(rules, d1, d2, d3, d4, executionId);
            if Undisturbed(d2, d3, d4, x.body.approvalId) && |EventsOf(d2, x.body.approvalId)| <= 1_000_000
            then r == Ok(x.body) else r.Err?
  {
    var id := x.body.approvalId;
    hide *;
    MomentsMean(rules, d1, d2, d3, d4);
    StaleRowMatches(rules, d1, d2, executionId);
    var row := d2.approvals[id];
    LaterTransitive(d2, d3, d4);
    ChainAcross(rules, d2, d3, id);
    SoundAcross(rules, d2, d4, id);
    UndisturbedMeans(d2, d3, d4, id);
    FaultFrom(rules, x, row, EventsOf(d3, id), EventsOf(d4, id), ExecutionIntegrity);
    AcrossIs(rules, d1, d2, d3, d4, executionId);
  }

  lemma UndisturbedMeans(d2: Db, d3: Db, d4: Db, id: string)
    ensures Undisturbed(d2, d3, d4, id) <==> SameTrail(d2, d3, id) && SameTrail(d2, d4, id)
  {
  }

  lemma AcrossIs(rules: Rules, d1: Db, d2: Db, d3: Db, d4: Db, executionId: string)
    requires executionId in d1.executions && d1.executions[executionId].body.approvalId in d2.approvals
    ensures var x := d1.executions[executionId];
            var id := x.body.approvalId;
            var fault := ExecutionFault(rules, x, d2.approvals[id], EventsOf(d3, id), EventsOf(d4, id),
                                        ExecutionIntegrity);
            GetExecutionAcross(rules, d1, d2, d3, d4, executionId) == if fault.Some? then Err(fault.value)
            else Ok(x.body)
  {
    hide ExecutionFault, EventsOf;
  }

  /** An execution row read earlier still matches the approval row read later. */
  lemma StaleRowMatches(rules: Rules, db: Db, db': Db, executionId: string)
    requires Inv(rules, db) && Inv(rules, db') && Later(db, db') && executionId in db.executions
    ensures var x := db.executions[executionId];
            && x.body.approvalId in db'.approvals
            && ExecutionReadable(x.body) && ExecutionMatches(rules, x, db'.approvals[x.body.approvalId])
  {
    var x := db.executions[executionId];
    var id := x.body.approvalId;
    assert id in db.approvals && ExecutionSound(rules, id, db.approvals[id], x) by {
      hide *;
      ExecutionRows(rules, db, executionId);
    }
    ViewKept(db, db', id);
    hide Inv, Later, ViewLater, ViewOf;
  }

  /** `verify_audit_chain` answers true exactly when nothing was appended between its two reads. */
  lemma VerifyChainIsSound(rules: Rules, d1: Db, d2: Db, id: string)
    requires Inv(rules, d1) && Inv(rules, d2) && Later(d1, d2) && id in d1.approvals
    ensures VerifyChainAcross(rules, d1, d2, id) == Ok(SameTrail(d1, d2, id) && |EventsOf(d1, id)| <= 1_000_000)
  {
    hide Inv, Later, Inspect, SameTrail;
    ChainAcross(rules, d1, d2, id);
  }

  /** `get_reconciliation` needs no such luck: an UNKNOWN row and its assessment never change again. */
  lemma GetReconciliationIsSound(rules: Rules, d1: Db, d2: Db, executionId: string)
    requires Inv(rules, d1) && Inv(rules, d2) && Later(d1, d2) && executionId in d1.assessments
    ensures GetReconciliationAcross(rules, d1, d2, executionId) == Ok(d1.assessments[executionId].body)
  {
    hide *;
    AssessedRowIsFinal(rules, d1, d2, executionId);
    AssessmentAccepted(rules, d1, executionId);
    SameAssessment(rules, d1, d2, executionId);
  }

  lemma AssessedRowIsFinal(rules: Rules, db: Db, db': Db, executionId: string)
    requires Inv(rules, db) && Inv(rules, db') && Later(db, db') && executionId in db.assessments
    ensures executionId in db.executions && executionId in db'.executions
    ensures db'.executions[executionId] == db.executions[executionId]
  {
    assert executionId in db.executions by { hide AllCoherent, EventsIndexed; }
    var x := db.executions[executionId];
    var id := x.body.approvalId;
    hide *;
    ExecutionInView(rules, db, executionId);
    assert id in db.approvals;
    CoherentAt(rules, db, id);
    UnknownWhenAssessed(rules, id, ViewOf(db, id));
    ViewKept(db, db', id);
    SameExecution(ViewOf(db, id), ViewOf(db', id), x);
    ViewExecutionFound(rules, db', id, x);
  }

  lemma UnknownWhenAssessed(rules: Rules, id: string, v: View)
    requires Coherent(rules, id, v) && v.assessment.Some?
    ensures v.execution.Some? && v.execution.value.body.status == Unknown
  {
    hide ChainCoherent, RowSound, ExpiryExact, ExecutionSound;
  }

  lemma SameExecution(v: View, w: View, x: ExecutionRow)
    requires ViewLater(v, w) && v.execution == Some(x) && x.body.status == Unknown
    ensures w.execution == Some(x)
  {
  }

  lemma SameAssessment(rules: Rules, d1: Db, d2: Db, executionId: string)
    requires executionId in d1.assessments && executionId in d1.executions && executionId in d2.executions
    requires d2.executions[executionId] == d1.executions[executionId]
    ensures GetReconciliationAcross(rules, d1, d2, executionId) == ReadAssessment(rules, d1, executionId)
  {
  }

  // ---------------------------------------------------------------- in terms of runs

  function TablesAt(config: Config, actions: seq<Move>, k: nat): Db
    requires k <= |actions|
  {
    Reached(config, actions[..k]).db
  }

  /** Step `k` of the run committed an event for the approval. */
  ghost predicate Commits(config: Config, actions: seq<Move>, k: nat, id: string)
    requires k < |actions|
  {
    !SameTrail(TablesAt(config, actions, k), TablesAt(config, actions, k + 1), id)
  }

  /** A trail that differs between two moments of a run was changed by some step between them. */
  lemma {:induction false} SomeStepCommitted(config: Config, actions: seq<Move>, i: nat, j: nat, id: string)
    requires i <= j <= |actions| && !SameTrail(TablesAt(config, actions, i), TablesAt(config, actions, j), id)
    ensures exists k | i <= k < j :: Commits(config, actions, k, id)
    decreases j
  {
    hide TablesAt, EventsOf;
    if i < j {
      if SameTrail(TablesAt(config, actions, i), TablesAt(config, actions, j - 1), id) {
        assert Commits(config, actions, j - 1, id);
      } else {
        SomeStepCommitted(config, actions, i, j - 1, id);
      }
    }
  }

  lemma MomentsOrdered(config: Config, actions: seq<Move>, i: nat, j: nat)
    requires i <= j <= |actions|
    ensures Inv(config.rules, TablesAt(config, actions, i)) && Inv(config.rules, TablesAt(config, actions, j))
    ensures Later(TablesAt(config, actions, i), TablesAt(config, actions, j))
  {
    hide Inv, Later, Step;
    ReachedTables(config, actions[..i]);
    ReachedTables(config, actions[..j]);
    assert actions[..i] + actions[i..j] == actions[..j];
    RunAppend(config, INITIAL, actions[..i], actions[i..j]);
    RunKeepsTables(config, Reached(config, actions[..i]), actions[i..j]);
  }

  /**
   `get_execution` overlapping any run, its four reads at moments `t1 <= t2 <= t3 <= t4`: it
   answers the row committed at `t1`, or fails; it succeeds exactly when the approval's trail is
   the same at the last three moments and within the bound; and while the chain is within the
   bound, a failure means that a step in the gap committed an event for that very approval.
   */
  lemma GetExecutionOverRun(config: Config, actions: seq<Move>, t1: nat, t2: nat, t3: nat, t4: nat, executionId: string,
                            x: ExecutionRow)
    requires t1 <= t2 <= t3 <= t4 <= |actions|
    requires executionId in TablesAt(config, actions, t1).executions
    requires TablesAt(config, actions, t1).executions[executionId] == x
    ensures var d2 := TablesAt(config, actions, t2);
            var id := x.body.approvalId;
            var r := GetExecutionAcross(config.rules, TablesAt(config, actions, t1), d2, TablesAt(config, actions, t3),
                                        TablesAt(config, actions, t4), executionId);
            && (r == Ok(x.body) || r.Err?)
            && (r.Ok? <==>
                  && Undisturbed(d2, TablesAt(config, actions, t3), TablesAt(config, actions, t4), id)
                  && |EventsOf(d2, id)| <= 1_000_000)
            && (r.Err? && |EventsOf(d2, id)| <= 1_000_000 ==>
                   exists k | t2 <= k < t4 :: Commits(config, actions, k, id))
  {
    hide *;
    var id := x.body.approvalId;
    MomentsOrdered(config, actions, t1, t2);
    MomentsOrdered(config, actions, t2, t3);
    MomentsOrdered(config, actions, t3, t4);
    var d2, d3, d4 := TablesAt(config, actions, t2), TablesAt(config, actions, t3), TablesAt(config, actions, t4);
    MomentsMean(config.rules, TablesAt(config, actions, t1), d2, d3, d4);
    GetExecutionIsSound(config.rules, TablesAt(config, actions, t1), d2, d3, d4, executionId, x);
    UndisturbedMeans(d2, d3, d4, id);
    if !SameTrail(d2, d3, id) {
      SomeStepCommitted(config, actions, t2, t3, id);
    } else if !SameTrail(d2, d4, id) {
      SomeStepCommitted(config, actions, t2, t4, id);
    }
  }

  /** `verify_audit_chain` overlapping any run: a false answer on a chain within the bound means a commit in the gap. */
  lemma VerifyChainOverRun(config: Config, actions: seq<Move>, t1: nat, t2: nat, id: string)
    requires t1 <= t2 <= |actions| && id in TablesAt(config, actions, t1).approvals
    ensures var d1 := TablesAt(config, actions, t1);
            var same := SameTrail(d1, TablesAt(config, actions, t2), id);
            && VerifyChainAcross(config.rules, d1, TablesAt(config, actions, t2), id) == Ok(same
                 && |EventsOf(d1, id)| <= 1_000_000)
            && (!same ==> exists k | t1 <= k < t2 :: Commits(config, actions, k, id))
  {
    hide *;
    MomentsOrdered(config, actions, t1, t2);
    VerifyChainIsSound(config.rules, TablesAt(config, actions, t1), TablesAt(config, actions, t2), id);
    if !SameTrail(TablesAt(config, actions, t1), TablesAt(config, actions, t2), id) {
      SomeStepCommitted(config, actions, t1, t2, id);
    }
  }

  /** `get_reconciliation` overlapping any run answers the assessment it read first. */
  lemma GetReconciliationOverRun(config: Config, actions: seq<Move>, t1: nat, t2: nat, executionId: string)
    requires t1 <= t2 <= |actions| && executionId in TablesAt(config, actions, t1).assessments
    ensures GetReconciliationAcross(config.rules, TablesAt(config, actions, t1), TablesAt(config, actions, t2),
                                    executionId) ==
            Ok(TablesAt(config, actions, t1).assessments[executionId].body)
  {
    hide *;
    MomentsOrdered(config, actions, t1, t2);
    GetReconciliationIsSound(config.rules, TablesAt(config, actions, t1), TablesAt(config, actions, t2), executionId);
  }
}
