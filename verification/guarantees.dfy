/** What the whole system guarantees in every reachable state, whatever the threads, clocks and crashes. */
module Guarantees {
  import opened Prelude
  import opened Timestamps
  import opened Texts
  import opened Records
  import opened AuditTrail
  import opened Ledger
  import opened Transactions
  import opened Invariants
  import opened Preservation
  import opened Progress
  import opened Frames
  import opened Outcomes
  import opened Policy
  import opened Protocol
  import Encoding

  lemma ReachedTables(config: Config, actions: seq<Move>)
    ensures Inv(config.rules, Reached(config, actions).db)
  {
    ReachedInv(config, actions);
    hide Inv, CallsInv, OriginsBind, Reached;
  }

  // ---------------------------------------------------------------- a call is bound to a decision

  ghost predicate ApprovedAt(events: seq<AuditEvent>, k: int, approver: Option<string>, at: Option<DateTime>) {
    && 0 <= k < |events|
    && events[k].payload.kind == ApprovalApproved
    && Some(events[k].payload.actor) == approver
    && Some(events[k].payload.at) == at
  }

  ghost predicate ClaimedAt(events: seq<AuditEvent>, k: int, e: ExecutionAccount) {
    && 0 <= k < |events|
    && events[k].payload.kind == ExecutionClaimed
    && events[k].payload.executionId == Some(e.executionId)
    && events[k].payload.actor == e.actor
    && events[k].payload.at == e.claimedAt
  }

  lemma {:induction false} ApprovalEventExists(events: seq<AuditEvent>)
    requires Replay(events).Some? && Replay(events).value.status == Some(Approved)
    ensures exists k :: ApprovedAt(events, k, Replay(events).value.approver, Replay(events).value.decidedAt)
    decreases |events|
  {
    var n := |events| - 1;
    var a := Replay(events).value;
    if events[n].payload.kind == ApprovalApproved {
      assert ApprovedAt(events, n, a.approver, a.decidedAt);
    } else {
      assert Replay(events[..n]).value.status == a.status;
      ApprovalEventExists(events[..n]);
      var k :| ApprovedAt(events[..n], k, a.approver, a.decidedAt);
      assert ApprovedAt(events, k, a.approver, a.decidedAt);
    }
  }

  /** An execution past preparation was claimed in the trail, after the approval it rests on. */
  lemma {:induction false} ClaimEventExists(events: seq<AuditEvent>)
    requires Replay(events).Some? && Replay(events).value.execution.Some?
    requires Replay(events).value.execution.value.status != Prepared
    ensures var a := Replay(events).value;
            exists k, m | k < m ::
              ApprovedAt(events, k, a.approver, a.decidedAt) && ClaimedAt(events, m, a.execution.value)
    decreases |events|
  {
    var n := |events| - 1;
    var a := Replay(events).value;
    TrailTellsOneStory(events[..n]);
    if events[n].payload.kind == ExecutionClaimed {
      ApprovalEventExists(events[..n]);
      var k :| ApprovedAt(events[..n], k, a.approver, a.decidedAt);
      assert ApprovedAt(events, k, a.approver, a.decidedAt) && ClaimedAt(events, n, a.execution.value);
    } else {
      ClaimEventExists(events[..n]);
      var a' := Replay(events[..n]).value;
      var k, m :| k < m && ApprovedAt(events[..n], k, a'.approver, a'.decidedAt)
        && ClaimedAt(events[..n], m, a'.execution.value);
      assert ApprovedAt(events, k, a.approver, a.decidedAt) && ClaimedAt(events, m, a.execution.value);
    }
  }

  /** What must be true of an execution for its parameters to be sent. */
  ghost predicate Bound(config: Config, s: System, approvalId: string, executionId: string, parameters: Parameters) {
    match s
    case System(db, _, _, origins) =>
      && approvalId in db.approvals && approvalId in origins && executionId in db.executions
      && FromRequest(config, origins[approvalId], parameters)
      && DecidedInTime(db.approvals[approvalId], db.executions[executionId])
      && Witnessed(EventsOf(db, approvalId), db.approvals[approvalId], db.executions[executionId])
  }

  /**
   The event is a tag request whose payload holds exactly this contact and this tag, unchanged and
   within their patterns; the analysis is about it, and policy asked for a human on this action.
   */
  predicate FromRequest(config: Config, origin: Origin, parameters: Parameters) {
    var e := Evaluate(config.threshold, origin.event, origin.intelligence, "1.0");
    && origin.event.eventType == ContactTagRequest
    && Requests(origin.event.payload, parameters) && config.validParameters(parameters)
    && Concerns(origin.intelligence, origin.event)
    && e.decision == RequireHumanApproval && e.action == AddContactTag
  }

  /** Approved, and claimed, strictly before the expiry. */
  predicate DecidedInTime(row: ApprovalRow, x: ExecutionRow) {
    && row.status == Approved
    && row.decidedAt.Some? && Before(row.decidedAt.value, row.expiresAt)
    && Before(x.body.claimedAt, row.expiresAt)
  }

  ghost predicate Witnessed(events: seq<AuditEvent>, row: ApprovalRow, x: ExecutionRow) {
    exists k, m | k < m ::
      ApprovedAt(events, k, row.approver, row.decidedAt) && ClaimedAt(events, m, ExecutionAccountOf(x))
  }

  lemma TermsAreRequested(config: Config, origin: Origin, terms: Terms)
    requires Describes(config, origin.event, origin.intelligence, terms) && terms.action == AddContactTag
    ensures terms.parameters.Some? && FromRequest(config, origin, terms.parameters.value)
  {
    TagOnlyOnRequest(config.threshold, origin.event, origin.intelligence);
    DecisionExactly(config.threshold, origin.event, origin.intelligence);
    hide Evaluate, Requests, Concerns;
  }

  lemma ExecutionWitnessed(rules: Rules, db: Db, executionId: string)
    requires Inv(rules, db) && executionId in db.executions
    ensures var x := db.executions[executionId];
            && x.body.approvalId in db.approvals
            && db.approvals[x.body.approvalId].terms.action == AddContactTag
            && db.approvals[x.body.approvalId].terms.parameters == Some(x.body.parameters)
            && DecidedInTime(db.approvals[x.body.approvalId], x)
            && Witnessed(EventsOf(db, x.body.approvalId), db.approvals[x.body.approvalId], x)
  {
    var x := db.executions[executionId];
    ExecutionRows(rules, db, executionId);
    CoherentRows(rules, db, x.body.approvalId);
    ExecutionInView(rules, db, executionId);
    CoherentAt(rules, db, x.body.approvalId);
    hide Inv, RowsCoherent, Linked, DistinctIds;
    assert Replay(EventsOf(db, x.body.approvalId)) == Some(AccountOf(ViewOf(db, x.body.approvalId)));
    hide Replay;
    ClaimEventExists(EventsOf(db, x.body.approvalId));
  }

  lemma ExecutionIsBound(config: Config, s: System, executionId: string)
    requires SystemInv(config, s) && executionId in s.db.executions
    ensures Bound(config, s, s.db.executions[executionId].body.approvalId, executionId,
                  s.db.executions[executionId].body.parameters)
  {
    var id := s.db.executions[executionId].body.approvalId;
    assert Inv(config.rules, s.db) && OriginsBind(config, s) by { hide Inv, CallsInv, OriginsBind; }
    hide Inv, SystemInv, Witnessed, DecidedInTime, FromRequest, Describes, BeginsWith;
    ExecutionWitnessed(config.rules, s.db, executionId);
    assert id in s.origins.Keys;
    TermsAreRequested(config, s.origins[id], s.db.approvals[id].terms);
  }

  /**
   At the moment a thread may call the provider, and so before the call is made: the parameters
   it will send are those of the event behind the approval, policy required a human for exactly
   that action, and the approval and the claim both happened before the expiry, in that order.
   */
  lemma CallIsBound(config: Config, actions: seq<Move>, thread: int)
    requires PcOf(Reached(config, actions), thread).Claiming?
    ensures var pc := PcOf(Reached(config, actions), thread);
            Bound(config, Reached(config, actions), pc.approvalId, pc.executionId, pc.parameters)
  {
    var s := Reached(config, actions);
    ReachedInv(config, actions);
    CallsIndexed(config, s);
    hide SystemInv, Reached, Bound, NeverCalled, CallsRecorded, OutcomesTrue, ExecutionsIndexed;
    ExecutionIsBound(config, s, PcOf(s, thread).executionId);
  }

  /** Every logged call stays bound in every later state. */
  lemma LoggedCallsAreBound(config: Config, actions: seq<Move>, i: nat)
    requires i < |Reached(config, actions).calls|
    ensures var c := Reached(config, actions).calls[i];
            Bound(config, Reached(config, actions), c.approvalId, c.executionId, c.parameters)
  {
    var s := Reached(config, actions);
    ReachedInv(config, actions);
    CallsIndexed(config, s);
    hide SystemInv, Reached, Bound, ThreadsOwn, ThreadsRemember, OutcomesTrue, ExecutionsIndexed;
    assert Matches(s.calls[i], s.db.executions[s.calls[i].executionId]);
    ExecutionIsBound(config, s, s.calls[i].executionId);
  }

  // ---------------------------------------------------------------- an approval repeats what it was created from

  /** Some move of the run created this approval from these inputs. */
  ghost predicate MadeBy(actions: seq<Move>, k: int, id: string, o: Origin, auditId: string) {
    && 0 <= k < |actions| && actions[k].CreateApproval? && ValidActor(o.creator)
    && actions[k] == CreateApproval(o.event, o.intelligence, id, o.createdAt, o.expiresAt, o.creator, auditId)
  }

  lemma OriginStep(config: Config, s: System, a: Move, id: string)
    requires id in Step(config, s, a).origins
    ensures (id in s.origins && Step(config, s, a).origins[id] == s.origins[id]) ||
            (a.CreateApproval? && a.approvalId == id && Step(config, s, a).origins[id] ==
                Origin(a.event, a.intelligence, a.now, a.expiresAt, a.actor))
  {
    hide CreateTx, GetTx, TransitionTx, ClaimTx, CompleteTx, ReconcileTx, DraftFor;
  }

  lemma {:induction false} OriginIsAMove(config: Config, actions: seq<Move>, id: string)
    requires id in Reached(config, actions).origins
    ensures exists k, auditId :: MadeBy(actions, k, id, Reached(config, actions).origins[id], auditId)
    decreases |actions|
  {
    var n := |actions| - 1;
    var s := Reached(config, actions[..n]);
    hide Step;
    assert Reached(config, actions) == Step(config, s, actions[n]);
    OriginStep(config, s, actions[n], id);
    var o := Reached(config, actions).origins[id];
    if id in s.origins && s.origins[id] == o {
      OriginIsAMove(config, actions[..n], id);
      var k, auditId :| MadeBy(actions[..n], k, id, o, auditId);
      assert MadeBy(actions, k, id, o, auditId);
    } else {
      assert MadeBy(actions, n, id, o, actions[n].auditId);
    }
  }

  /**
   In every reachable state, every approval was created by a move of the run; its row repeats
   that move's event, analysis, times and policy answer field by field, its provenance document
   holds the digest of the event and the digest of the analysis, and its trail begins with the
   creation.
   */
  lemma ApprovalsRepeatTheirOrigin(config: Config, actions: seq<Move>, id: string)
    requires id in Reached(config, actions).db.approvals
    ensures var s := Reached(config, actions);
            && id in s.origins
            && CreatedFrom(config, s.origins[id], s.db.approvals[id])
            && BeginsWith(config.rules, id, s.origins[id], EventsOf(s.db, id))
            && exists k, auditId :: MadeBy(actions, k, id, s.origins[id], auditId)
  {
    var s := Reached(config, actions);
    ReachedInv(config, actions);
    assert OriginsBind(config, s) by { hide Inv, CallsInv, OriginsBind, Reached; }
    assert id in s.origins.Keys;
    hide SystemInv, Reached, CreatedFrom, BeginsWith, MadeBy;
    OriginIsAMove(config, actions, id);
  }

  // ---------------------------------------------------------------- the recorded status and the calls made

  ghost predicate OnlyCall(s: System, i: int, executionId: string) {
    0 <= i < |s.calls| && forall j | 0 <= j < |s.calls| :: s.calls[j].executionId == executionId <==> j == i
  }

  lemma FirstIsOnly(s: System, i: int)
    requires CallsRecorded(s) && 0 <= i < |s.calls|
    ensures OnlyCall(s, i, s.calls[i].executionId)
  {
    forall j | 0 <= j < |s.calls| ensures s.calls[j].executionId == s.calls[i].executionId <==> j == i {
      if j < i {
        assert s.calls[j].executionId != s.calls[i].executionId;
      } else if i < j {
        assert s.calls[i].executionId != s.calls[j].executionId;
      }
    }
  }

  ghost predicate Reports(s: System, i: int, body: ExecutionBody) {
    && OnlyCall(s, i, body.executionId)
    && s.calls[i].parameters == body.parameters && s.calls[i].approvalId == body.approvalId
    && Tells(s.calls[i].outcome, body.status, body.failure)
  }

  lemma FinishedReports(s: System, executionId: string)
    requires ExecutionsIndexed(s.db) && CallsRecorded(s) && OutcomesTrue(s)
    requires executionId in s.db.executions && s.db.executions[executionId].body.status != Claimed
    ensures exists i :: Reports(s, i, s.db.executions[executionId].body)
  {
    var body := s.db.executions[executionId].body;
    hide RecordedStatus, RecordedFailure, Tells;
    var i :| 0 <= i < |s.calls| && s.calls[i].executionId == executionId
             && body.status == RecordedStatus(s.calls[i].outcome)
             && body.failure == RecordedFailure(s.calls[i].outcome);
    FirstIsOnly(s, i);
    RecordedTells(s.calls[i].outcome, body.status, body.failure);
    assert Matches(s.calls[i], s.db.executions[executionId]);
    assert Reports(s, i, body);
  }

  /**
   A finished execution reports the answer to the one call that was made for it: SUCCEEDED when it
   was answered, FAILED when the provider called its error definitive, UNKNOWN otherwise.
   */
  lemma StatusTellsOutcome(config: Config, actions: seq<Move>, executionId: string)
    requires executionId in Reached(config, actions).db.executions
    requires Reached(config, actions).db.executions[executionId].body.status != Claimed
    ensures var s := Reached(config, actions);
            exists i :: Reports(s, i, s.db.executions[executionId].body)
  {
    hide *;
    ReachedInv(config, actions);
    CallsIndexed(config, Reached(config, actions));
    FinishedReports(Reached(config, actions), executionId);
  }

  ghost predicate CalledOnce(s: System, executionId: string, outcome: Outcome) {
    && executionId in s.db.executions && s.db.executions[executionId].body.status == Claimed
    && exists i :: OnlyCall(s, i, executionId) && s.calls[i].outcome == outcome
  }

  lemma AnsweredCalledOnce(s: System, thread: int)
    requires CallsRecorded(s) && ThreadsOwn(s) && ThreadsRemember(s) && PcOf(s, thread).Answered?
    ensures CalledOnce(s, PcOf(s, thread).executionId, PcOf(s, thread).outcome)
  {
    var pc := PcOf(s, thread);
    hide OnlyCall;
    assert CalledWith(s, pc.executionId, pc.outcome);
    assert pc.executionId in s.db.executions && s.db.executions[pc.executionId].body.status == Claimed;
    var i :| 0 <= i < |s.calls| && s.calls[i].executionId == pc.executionId && s.calls[i].outcome == pc.outcome;
    FirstIsOnly(s, i);
  }

  lemma AnsweredOrphans(s: System, thread: int)
    requires ThreadsOwn(s) && PcOf(s, thread).Answered?
    ensures Orphaned(s.(threads := s.threads[thread := Idle]), PcOf(s, thread).executionId)
  {
  }

  lemma CalledOnceKept(s: System, s': System, executionId: string, outcome: Outcome)
    requires CalledOnce(s, executionId, outcome) && s.calls <= s'.calls
    requires executionId in s'.db.executions && s'.db.executions[executionId].body.status == Claimed
    requires forall i | |s.calls| <= i < |s'.calls| :: s'.calls[i].executionId != executionId
    ensures CalledOnce(s', executionId, outcome)
  {
    var i :| OnlyCall(s, i, executionId) && s.calls[i].outcome == outcome;
    assert forall j | 0 <= j < |s.calls| :: s'.calls[j] == s.calls[j];
    assert OnlyCall(s', i, executionId);
  }

  /** After the answer and before it is recorded, exactly one call was made, with that answer. */
  lemma AnsweredMeansCalled(config: Config, actions: seq<Move>, thread: int)
    requires PcOf(Reached(config, actions), thread).Answered?
    ensures CalledOnce(Reached(config, actions), PcOf(Reached(config, actions), thread).executionId,
                       PcOf(Reached(config, actions), thread).outcome)
  {
    hide *;
    ReachedInv(config, actions);
    CallsIndexed(config, Reached(config, actions));
    AnsweredCalledOnce(Reached(config, actions), thread);
  }

  /** A crash between the answer and its recording leaves CLAIMED for ever, with that one call behind it. */
  lemma CrashAfterAnswerIsFinal(config: Config, before: seq<Move>, thread: int, after: seq<Move>)
    requires PcOf(Reached(config, before), thread).Answered?
    ensures var pc := PcOf(Reached(config, before), thread);
            CalledOnce(Reached(config, before + [Crash(thread)] + after), pc.executionId, pc.outcome)
  {
    hide *;
    var s := Reached(config, before);
    var pc := PcOf(s, thread);
    var crashed := s.(threads := s.threads[thread := Idle]);
    CrashStep(config, s, thread);
    AnsweredMeansCalled(config, before, thread);
    ReachedInv(config, before);
    CallsIndexed(config, s);
    AnsweredOrphans(s, thread);
    RunAfterCrash(config, before, thread, after);
    var s' := Run(config, crashed, after);
    OrphanRun(config, crashed, after, pc.executionId);
    LeftAloneMeans(crashed, s', pc.executionId);
    CalledOnceKept(s, s', pc.executionId, pc.outcome);
  }

  lemma CrashStep(config: Config, s: System, thread: int)
    ensures Step(config, s, Crash(thread)) == s.(threads := s.threads[thread := Idle])
  {
  }

  lemma LeftAloneMeans(s: System, s': System, executionId: string)
    requires LeftAlone(s, s', executionId)
    ensures executionId in s'.db.executions && s'.db.executions[executionId].body.status == Claimed
    ensures s.calls <= s'.calls && forall i | |s.calls| <= i < |s'.calls| :: s'.calls[i].executionId != executionId
  {
  }

  // ---------------------------------------------------------------- the log is a complete account

  /**
   In every reachable state, replaying an approval's events gives exactly its status and
   decision, its execution and its assessment's digest; refusals aside, the kinds of the events
   are the one story that account can have.
   */
  lemma AuditLogIsComplete(config: Config, actions: seq<Move>, id: string)
    requires id in Reached(config, actions).db.approvals
    ensures var v := ViewOf(Reached(config, actions).db, id);
            && Replay(v.events) == Some(AccountOf(v))
            && Story(v.events) == StoryOf(AccountOf(v))
            && v.row.count == |v.events|
            && (v.execution.Some? ==> v.execution.value.body.status != Prepared)
  {
    var db := Reached(config, actions).db;
    ReachedTables(config, actions);
    CoherentAt(config.rules, db, id);
    hide Inv, Reached, Linked, DistinctIds, Replay, Story, StoryOf;
    TrailTellsOneStory(ViewOf(db, id).events);
  }

  lemma AuthorizedIsNotLast(events: seq<AuditEvent>)
    requires events != [] && Replay(events).Some?
    requires Replay(events).value.execution.Some? ==> Replay(events).value.execution.value.status != Prepared
    ensures events[|events| - 1].payload.kind != ExecutionAuthorized
  {
  }

  /**
   In every reachable trail an AUTHORIZED event is followed at once by the CLAIMED event of the
   same execution, and a refused transition comes after a decision and never between those two.
   */
  lemma TrailIsWellOrdered(config: Config, actions: seq<Move>, id: string, i: nat)
    requires id in Reached(config, actions).db.approvals && i < |EventsOf(Reached(config, actions).db, id)|
    ensures var events := EventsOf(Reached(config, actions).db, id);
            && (events[i].payload.kind == ExecutionAuthorized ==>
                  && i + 1 < |events| && events[i + 1].payload.kind == ExecutionClaimed
                  && events[i + 1].payload.executionId == events[i].payload.executionId)
            && (events[i].payload.kind == TransitionRejected ==>
                  && i > 0 && events[i - 1].payload.kind != ExecutionAuthorized
                  && exists d | 0 <= d < i ::
                       events[d].payload.kind in {ApprovalApproved, ApprovalRejected, ApprovalExpired})
  {
    var events := EventsOf(Reached(config, actions).db, id);
    AuditLogIsComplete(config, actions, id);
    assert Replay(events).Some?;
    assert Replay(events).value.execution.Some? ==> Replay(events).value.execution.value.status != Prepared;
    hide *;
    AuthorizedIsNotLast(events);
    if events[i].payload.kind == ExecutionAuthorized {
      AuthorizedThenClaimed(events, i);
    }
    if events[i].payload.kind == TransitionRejected {
      RefusalsFollowDecision(events, i);
      RefusalsAvoidClaims(events, i - 1);
    }
  }

  /**
   With the source's own digests: a trail other than the stored one that passes verification
   against a stored approval row contains an event whose hashed text differs from the stored
   event's and has the same hash.
   */
  lemma ForgedTrailNeedsClash(config: Config, actions: seq<Move>, id: string, forged: seq<AuditEvent>,
                              h: string -> Digest, floatText: real -> string)
    requires config.rules == Encoding.TextRules(h, floatText, config.rules.unsafeReason)
    requires id in Reached(config, actions).db.approvals
    requires var row := Reached(config, actions).db.approvals[id];
             row.count <= 1_000_000 && Inspect(config.rules, forged, row.count, row.head) == Intact
    ensures var events := EventsOf(Reached(config, actions).db, id);
            || forged == events
            || exists i | 0 <= i < |forged| && i < |events| ::
                 Encoding.Clash(h, Encoding.EventText(forged[i].payload, forged[i].prev),
                                Encoding.EventText(events[i].payload, events[i].prev))
  {
    assert MAX_SEQUENCE == 1_000_000;
    hide *;
    var db := Reached(config, actions).db;
    ReachedTables(config, actions);
    CoherentLinked(config.rules, db, id);
    ApprovalAccepted(config.rules, db, id);
    Encoding.ChainCommits(h, floatText, config.rules.unsafeReason, forged, EventsOf(db, id), db.approvals[id].count,
                          db.approvals[id].head);
  }

  // ---------------------------------------------------------------- expiry and finality

  /** Expiry is exact in every reachable state, however clocks behaved. */
  lemma ExpiryIsExact(config: Config, actions: seq<Move>, id: string)
    requires id in Reached(config, actions).db.approvals
    ensures var row := Reached(config, actions).db.approvals[id];
            && (row.status == Pending <==> row.decidedAt.None?)
            && (row.status in {Approved, Rejected} ==>
                   row.decidedAt.Some? && Before(row.decidedAt.value, row.expiresAt))
            && (row.status == Expired ==> row.decidedAt.Some? && !Before(row.decidedAt.value, row.expiresAt))
  {
    ReachedTables(config, actions);
    CoherentRows(config.rules, Reached(config, actions).db, id);
    hide Inv, Reached;
  }

  /** Later states keep every approval, every decision, every finished execution and every event. */
  lemma HistoryIsFinal(config: Config, actions: seq<Move>, more: seq<Move>, id: string)
    requires id in Reached(config, actions).db.approvals
    ensures var (db, db') := (Reached(config, actions).db, Reached(config, actions + more).db);
            && id in db'.approvals
            && RowLater(db.approvals[id], db'.approvals[id])
            && ViewLater(ViewOf(db, id), ViewOf(db', id))
  {
    ReachedTables(config, actions);
    RunAppend(config, INITIAL, actions, more);
    hide Inv;
    RunKeepsTables(config, Reached(config, actions), more);
    ViewKept(Reached(config, actions).db, Reached(config, actions + more).db, id);
  }

  lemma ViewKept(db: Db, db': Db, id: string)
    requires Later(db, db') && id in db.approvals
    ensures id in db'.approvals && ViewLater(ViewOf(db, id), ViewOf(db', id))
    ensures RowLater(db.approvals[id], db'.approvals[id])
  {
    assert id in db'.approvals.Keys;
    hide RowLater;
  }

  lemma ViewExecutionFound(rules: Rules, db: Db, id: string, x: ExecutionRow)
    requires Inv(rules, db) && id in db.approvals && ViewOf(db, id).execution == Some(x)
    ensures x.body.executionId in db.executions && db.executions[x.body.executionId] == x
  {
    assert ExecutionsIndexed(db) by { hide AllCoherent, EventsIndexed, ExecutionsIndexed; }
    hide Inv;
  }

  // ---------------------------------------------------------------- when the verifiers refuse

  /**
   In every reachable state each of the four verifications accepts what the operations wrote
   exactly while the approval's chain holds at most 1,000,000 events; assessments are always
   accepted.  No chain is longer than 1,000,002.
   */
  lemma NeverLockedOut(config: Config, actions: seq<Move>, id: string)
    requires id in Reached(config, actions).db.approvals
    ensures var db := Reached(config, actions).db;
            var events := EventsOf(db, id);
            && |events| <= 1_000_002
            && (|events| <= 1_000_000 <==>
                   Inspect(config.rules, events, db.approvals[id].count, db.approvals[id].head) == Intact)
            && (|events| <= 1_000_000 <==> ApprovalSoundness(config.rules, db.approvals[id], events) == Sound)
            && (forall x | x in db.executions && db.executions[x].body.approvalId == id ::
                  (|events| <= 1_000_000 <==>
                      ExecutionFault(config.rules, db.executions[x], db.approvals[id], events, events,
                                     ExecutionIntegrity) == None))
            && (forall x | x in db.assessments :: ReadAssessment(config.rules, db, x) == Ok(db.assessments[x].body))
  {
    var db := Reached(config, actions).db;
    ReachedTables(config, actions);
    hide Inv, Inspect, ApprovalSoundness, ExecutionFault, ReadAssessment;
    ChainsBounded(config, actions, id);
    hide Reached;
    ApprovalAccepted(config.rules, db, id);
    forall x | x in db.executions && db.executions[x].body.approvalId == id
      ensures (|EventsOf(db, id)| <= 1_000_000 <==>
               ExecutionFault(config.rules, db.executions[x], db.approvals[id], EventsOf(db, id), EventsOf(db, id),
                              ExecutionIntegrity) == None)
    {
      ExecutionAccepted(config.rules, db, x, ExecutionIntegrity);
    }
    forall x | x in db.assessments ensures ReadAssessment(config.rules, db, x) == Ok(db.assessments[x].body) {
      AssessmentAccepted(config.rules, db, x);
    }
  }

  lemma {:induction false} ChainsBounded(config: Config, actions: seq<Move>, id: string)
    requires id in Reached(config, actions).db.approvals
    ensures |EventsOf(Reached(config, actions).db, id)| <= 1_000_002
    decreases |actions|
  {
    var n := |actions| - 1;
    var s := Reached(config, actions[..n]);
    ReachedTables(config, actions[..n]);
    hide Inv, Step, Inspect;
    StepKeepsTables(config, s, actions[n]);
    assert Step(config, s, actions[n]) == Reached(config, actions);
    if id in s.db.approvals {
      ChainsBounded(config, actions[..n], id);
      ViewKept(s.db, Step(config, s, actions[n]).db, id);
    } else {
      NewChain(config, s, actions[n], id);
    }
  }

  /** Only `create` makes an approval. */
  lemma OnlyCreateAdds(config: Config, s: System, a: Move)
    requires !a.CreateApproval?
    ensures forall id :: id in Step(config, s, a).db.approvals <==> id in s.db.approvals
  {
    hide CreateTx, GetTx, TransitionTx, ClaimTx, CompleteTx, ReconcileTx, DraftFor, ClaimRefusal;
    match a
    case ReadApproval(approvalId, now, auditId) =>
      GetFrame(config.rules, s.db, approvalId, now, auditId);
    case Approve(approvalId, now, actor, auditId) =>
      TransitionFrame(config.rules, s.db, approvalId, Approved, now, actor, None, auditId);
    case Reject(approvalId, reason, now, actor, auditId) =>
      if RequestedReason(config.rules.unsafeReason, reason).Some? {
        TransitionFrame(config.rules, s.db, approvalId, Rejected, now, actor,
                        RequestedReason(config.rules.unsafeReason, reason), auditId);
      }
    case StartExecution(thread, approvalId, now, actor, executionId, auditId, auditId') =>
      ClaimFrame(config.rules, s.db, approvalId, now, actor, executionId, auditId, auditId');
    case FinishExecution(thread, now, auditId) =>
      if PcOf(s, thread).Answered? {
        var pc := PcOf(s, thread);
        CompleteFrame(config.rules, s.db, pc.executionId, RecordedStatus(pc.outcome), now, RecordedFailure(pc.outcome),
                      auditId);
      }
    case Assessment(executionId, declared, reason, now, actor, assessmentId, auditId) =>
      ReconcileFrame(config.rules, s.db, executionId, declared, reason, now, actor, assessmentId, auditId);
    case CallProvider(_, _) =>
    case Crash(_) =>
  }

  /** An approval that appears in a step starts with one event. */
  lemma NewChain(config: Config, s: System, a: Move, id: string)
    requires Inv(config.rules, s.db) && id !in s.db.approvals && id in Step(config, s, a).db.approvals
    ensures |EventsOf(Step(config, s, a).db, id)| == 1
  {
    assert a.CreateApproval? by {
      hide *;
      if !a.CreateApproval? {
        OnlyCreateAdds(config, s, a);
      }
    }
    hide Inv, CreateTx, DraftFor, EventsOf;
    DraftIsSound(config, a.event, a.intelligence, a.approvalId, a.now, a.expiresAt);
    var draft := DraftFor(config, a.event, a.intelligence, a.approvalId, a.now, a.expiresAt).value;
    CreatedChain(config.rules, s.db, draft, a.now, a.actor, a.auditId, id);
  }

  lemma CreatedChain(rules: Rules, db: Db, d: Draft, now: DateTime, actor: string, auditId: string, id: string)
    requires Inv(rules, db) && id !in db.approvals && id in CreateTx(rules, db, d, now, actor, auditId).0.approvals
    ensures |EventsOf(CreateTx(rules, db, d, now, actor, auditId).0, id)| == 1
  {
    CreateFrame(rules, db, d, now, actor, auditId);
    assert id in db.approvals.Keys + {d.approvalId};
    TablesIndexed(rules, db);
    hide Inv, ExecutionsIndexed, StorableActor, Appended;
    if auditId in db.auditIds || !StorableActor(actor) {
      CreateRefused(rules, db, d, now, actor, auditId);
    } else {
      CreateEffect(rules, db, d, now, actor, auditId);
      DraftedViews(db, d);
      hide CreateTx, Drafted;
      AppendedEvents(rules, Drafted(db, d), CreatedEvent(d, now, actor, auditId));
    }
  }

  lemma AppendedEvents(rules: Rules, db: Db, p: AuditPayload)
    requires p.approvalId in db.approvals
    ensures |EventsOf(Appended(rules, db, p), p.approvalId)| == |EventsOf(db, p.approvalId)| + 1
  {
  }

  /** Past the bound an approval is frozen: no continuation of the run changes anything about it. */
  lemma FrozenPastBound(config: Config, actions: seq<Move>, more: seq<Move>, id: string)
    requires id in Reached(config, actions).db.approvals && |EventsOf(Reached(config, actions).db, id)| > 1_000_000
    ensures id in Reached(config, actions + more).db.approvals
    ensures ViewOf(Reached(config, actions + more).db, id) == ViewOf(Reached(config, actions).db, id)
  {
    HistoryIsFinal(config, actions, more, id);
    hide Reached;
  }

  /** An answer can be recorded, with a fresh event identifier, exactly while the chain is within the bound. */
  lemma AnswerIsRecorded(config: Config, actions: seq<Move>, thread: int, now: DateTime, auditId: string)
    requires PcOf(Reached(config, actions), thread).Answered? && auditId !in Reached(config, actions).db.auditIds
    ensures var s := Reached(config, actions);
            var pc := PcOf(s, thread);
            && pc.executionId in s.db.executions
            && var (db', r) := CompleteTx(config.rules, s.db, pc.executionId, RecordedStatus(pc.outcome), now,
                                          RecordedFailure(pc.outcome), auditId);
               if |EventsOf(s.db, pc.approvalId)| <= 1_000_000 then
                 && r.Ok? && Tells(pc.outcome, r.value.status, r.value.failure) && r.value.completedAt == Some(now)
                 && pc.executionId in db'.executions && db'.executions[pc.executionId].body == r.value
               else r == Err(ExecutionIntegrity) && db' == s.db
  {
    assert MAX_SEQUENCE == 1_000_000;
    hide *;
    var s := Reached(config, actions);
    ReachedTables(config, actions);
    ReachedInv(config, actions);
    CallsIndexed(config, s);
    AnsweredOwns(s, thread);
    AnswerPairs(PcOf(s, thread).outcome);
    var pc := PcOf(s, thread);
    CompletionCases(config.rules, s.db, pc.executionId, RecordedStatus(pc.outcome), now, RecordedFailure(pc.outcome),
                    auditId);
    CompletedReads(config.rules, s.db, pc.executionId, pc.outcome, now, auditId);
  }

  lemma CompletedReads(rules: Rules, db: Db, executionId: string, outcome: Outcome, now: DateTime, auditId: string)
    ensures var (db', r) := CompleteTx(rules, db, executionId, RecordedStatus(outcome), now, RecordedFailure(outcome),
                                       auditId);
            r.Ok? ==>
              && Tells(outcome, r.value.status, r.value.failure) && r.value.completedAt == Some(now)
              && executionId in db'.executions && db'.executions[executionId].body == r.value
  {
    RecordedTells(outcome, RecordedStatus(outcome), RecordedFailure(outcome));
    CompleteFrame(rules, db, executionId, RecordedStatus(outcome), now, RecordedFailure(outcome), auditId);
    hide CompleteTx, Tells, RecordedStatus, RecordedFailure;
  }

  lemma AnsweredOwns(s: System, thread: int)
    requires ThreadsOwn(s) && PcOf(s, thread).Answered?
    ensures var pc := PcOf(s, thread);
            && pc.executionId in s.db.executions && s.db.executions[pc.executionId].body.status == Claimed
            && s.db.executions[pc.executionId].body.approvalId == pc.approvalId
  {
  }

  lemma AnswerPairs(outcome: Outcome)
    ensures Terminal(RecordedStatus(outcome))
    ensures (RecordedStatus(outcome) == Succeeded) == RecordedFailure(outcome).None?
  {
  }

  lemma CompletionCases(rules: Rules, db: Db, executionId: string, target: ExecutionStatus, now: DateTime,
                        failure: Option<FailureCategory>, auditId: string)
    requires Inv(rules, db) && executionId in db.executions && db.executions[executionId].body.status == Claimed
    requires Terminal(target) && (target == Succeeded) == failure.None? && auditId !in db.auditIds
    ensures var (db', r) := CompleteTx(rules, db, executionId, target, now, failure, auditId);
            if |EventsOf(db, db.executions[executionId].body.approvalId)| <= 1_000_000 then r.Ok?
            else r == Err(ExecutionIntegrity) && db' == db
  {
    hide Inv, ExecutionFault, Append, AfterComplete;
    ExecutionAccepted(rules, db, executionId, ExecutionIntegrity);
    CompleteEffect(rules, db, executionId, target, now, failure, auditId);
  }

  lemma CompletionAfterClaim(rules: Rules, db: Db, id: string, now: DateTime, actor: string, executionId: string,
                             auditId: string, auditId': string,
                          target: ExecutionStatus, later: DateTime, failure: Option<FailureCategory>, auditId'': string)
    requires Inv(rules, db) && ClaimTx(rules, db, id, now, actor, executionId, auditId, auditId').1.Ok?
    requires Terminal(target) && (target == Succeeded) == failure.None?
    requires auditId'' !in ClaimTx(rules, db, id, now, actor, executionId, auditId, auditId').0.auditIds
    ensures var claimed := ClaimTx(rules, db, id, now, actor, executionId, auditId, auditId').0;
            && id in db.approvals
            && (CompleteTx(rules, claimed, executionId, target, later, failure, auditId'').1.Ok? <==>
                   db.approvals[id].count + 2 <= 1_000_000)
  {
    hide Inv, ClaimRefusal, RecordClaim, CompleteTx;
    ClaimFrame(rules, db, id, now, actor, executionId, auditId, auditId');
    ClaimKeepsInv(rules, db, id, now, actor, executionId, auditId, auditId');
    var claimed, r := ClaimTx(rules, db, id, now, actor, executionId, auditId, auditId').0, ClaimTx(rules, db, id, now,
        actor, executionId, auditId, auditId').1;
    ClaimAddsTwo(rules, db, id, now, actor, executionId, auditId, auditId');
    hide ClaimTx;
    CompletionCases(rules, claimed, executionId, target, later, failure, auditId'');
  }

  /**
   A claim never looks at the room left in the chain.  Its outcome can be recorded exactly when
   two events still fitted before the claim; otherwise the execution it created is stuck.
   */
  lemma ClaimThenComplete(config: Config, actions: seq<Move>, id: string, now: DateTime, actor: string,
                          executionId: string, auditId: string,
                          auditId': string, target: ExecutionStatus, later: DateTime, failure: Option<FailureCategory>,
                          auditId'': string)
    requires ClaimTx(config.rules, Reached(config, actions).db, id, now, actor, executionId, auditId, auditId').1.Ok?
    requires Terminal(target) && (target == Succeeded) == failure.None?
    requires auditId'' !in ClaimTx(config.rules, Reached(config, actions).db, id, now, actor, executionId, auditId,
                                   auditId').0.auditIds
    ensures var db := Reached(config, actions).db;
            var claimed := ClaimTx(config.rules, db, id, now, actor, executionId, auditId, auditId').0;
            && id in db.approvals
            && (CompleteTx(config.rules, claimed, executionId, target, later, failure, auditId'').1.Ok? <==>
                   db.approvals[id].count + 2 <= 1_000_000)
  {
    hide *;
    ReachedTables(config, actions);
    CompletionAfterClaim(config.rules, Reached(config, actions).db, id, now, actor, executionId, auditId, auditId',
                         target, later, failure, auditId'');
  }

  lemma ClaimAddsTwo(rules: Rules, db: Db, id: string, now: DateTime, actor: string, executionId: string,
                     auditId: string, auditId': string)
    requires Inv(rules, db) && ClaimTx(rules, db, id, now, actor, executionId, auditId, auditId').1.Ok?
    ensures id in db.approvals && db.approvals[id].count == |EventsOf(db, id)|
    ensures |EventsOf(ClaimTx(rules, db, id, now, actor, executionId, auditId, auditId').0, id)| == |EventsOf(db,
        id)| + 2
  {
    hide Inv, ClaimRefusal, RecordClaim, AfterClaim;
    ClaimFrame(rules, db, id, now, actor, executionId, auditId, auditId');
    var p := db.approvals[id].terms.parameters.value;
    ClaimEffect(rules, db, id, p, now, actor, executionId, auditId, auditId');
    CoherentLinked(rules, db, id);
    var body := ClaimedBody(rules, id, db.approvals[id], p, executionId, now, actor);
    AfterClaimView(rules, db, id, body, auditId, auditId');
    hide OnlyViewChanged, ClaimTx;
    assert id in AfterClaim(rules, db, id, body, auditId, auditId').approvals;
    assert ViewOf(AfterClaim(rules, db, id, body, auditId, auditId'),
                  id).events == EventsOf(AfterClaim(rules, db, id, body, auditId, auditId'), id);
    assert |ClaimedView(rules, id, ViewOf(db, id), body, auditId, auditId').events| == |ViewOf(db, id).events| + 2;
  }

  // ---------------------------------------------------------------- which decisions can be read back

  /** What the length checks of the approval row and of the event let in. */
  predicate StorableDecision(target: ApprovalStatus, actor: string, reason: Option<string>) {
    StorableActor(actor) && (target == Rejected && reason.Some? ==> StorableReason(reason.value))
  }

  lemma UnstorableChangesNothing(rules: Rules, db: Db, id: string, target: ApprovalStatus, now: DateTime, actor: string,
                                 reason: Option<string>, auditId: string)
    requires Inv(rules, db) && id in db.approvals && db.approvals[id].status == Pending
    requires !Lapsed(db.approvals[id], now)
    requires target in {Approved, Rejected} && |EventsOf(db, id)| <= 1_000_000
    requires !StorableDecision(target, actor, reason)
    ensures TransitionTx(rules, db, id, target, now, actor, reason, auditId) == (db, Err(ApprovalPersistence))
  {
    hide Inv, ApprovalSoundness, Append, StorableActor, StorableReason, ApprovalReadable, DecidedRow, EventsOf,
         DecisionKind;
    ApprovalAccepted(rules, db, id);
    AppendsAtEnd(rules, db, WithRow(db, id, DecidedRow(db.approvals[id], target, now, actor, reason)),
                 DecisionEvent(id, db.approvals[id], target, now, actor, auditId));
  }

  lemma DecisionIsRead(rules: Rules, db: Db, id: string, target: ApprovalStatus, now: DateTime, actor: string,
                       reason: Option<string>,
                       auditId: string, later: DateTime, auditId': string)
    requires Inv(rules, db) && id in db.approvals && db.approvals[id].status == Pending
    requires !Lapsed(db.approvals[id], now)
    requires target in {Approved, Rejected} && StorableDecision(target, actor, reason)
    requires |EventsOf(db, id)| < 1_000_000 && auditId !in db.auditIds
    ensures var (db', r) := TransitionTx(rules, db, id, target, now, actor, reason, auditId);
            && id in db'.approvals && db'.approvals[id].status == target
            && (r.Ok? <==> ReadsBack(rules, target, actor, reason))
            && (r.Err? ==>
                  && r.error == ProvenanceIntegrity
                  && ApprovalSoundness(rules, db'.approvals[id], EventsOf(db', id)) != Sound)
            && GetTx(rules, db', id, later, auditId') == (db', r)
  {
    assert MAX_SEQUENCE == 1_000_000;
    hide *;
    var row := db.approvals[id];
    ApprovalAccepted(rules, db, id);
    var row' := DecidedRow(row, target, now, actor, reason);
    var p := DecisionEvent(id, row, target, now, actor, auditId);
    DecisionEventIs(id, row, target, now, actor, auditId);
    StorableParts(target, actor, reason);
    DecideAppends(rules, db, id, row', p);
    var db' := Appended(rules, WithRow(db, id, row'), p);
    DecisionReadable(rules, db, id, target, now, actor, reason, p);
    DecisionCommits(rules, db, id, target, now, actor, reason, auditId, db');
    if ReadsBack(rules, target, actor, reason) {
      ReadsBackAdmissible(rules, row, target, now, actor, reason);
      AdmissibleKeepsInv(rules, db, id, target, now, actor, reason, auditId);
      ApprovalAccepted(rules, db', id);
    } else {
      UnreadableUnsound(rules, db'.approvals[id], EventsOf(db', id));
    }
    DecidedRead(rules, db', id, later, auditId');
  }

  /**
   The repository checks neither the actor nor the reason of a decision beyond their length.  In
   every reachable state, on a pending, unexpired approval with room in its chain: a decision
   whose texts fail the length checks changes nothing; every other one is committed, and the row
   can be read back - by this call and by every later `get` - exactly when the actor is valid
   and a rejection has a reason the approval model accepts.
   */
  lemma DecisionReadsBack(config: Config, actions: seq<Move>, id: string, target: ApprovalStatus, now: DateTime,
                          actor: string,
                          reason: Option<string>, auditId: string, later: DateTime, auditId': string)
    requires target in {Approved, Rejected}
    requires var db := Reached(config, actions).db;
             id in db.approvals && db.approvals[id].status == Pending && !Lapsed(db.approvals[id], now)
             && |EventsOf(db, id)| < 1_000_000 && auditId !in db.auditIds
    ensures var db := Reached(config, actions).db;
            var (db', r) := TransitionTx(config.rules, db, id, target, now, actor, reason, auditId);
            if !StorableDecision(target, actor, reason) then (db', r) == (db, Err(ApprovalPersistence))
            else
              && id in db'.approvals && db'.approvals[id].status == target
              && (r.Ok? <==> ReadsBack(config.rules, target, actor, reason))
              && (r.Err? ==> r.error == ProvenanceIntegrity)
              && GetTx(config.rules, db', id, later, auditId') == (db', r)
  {
    hide *;
    ReachedTables(config, actions);
    if StorableDecision(target, actor, reason) {
      DecisionIsRead(config.rules, Reached(config, actions).db, id, target, now, actor, reason, auditId, later,
                     auditId');
    } else {
      UnstorableChangesNothing(config.rules, Reached(config, actions).db, id, target, now, actor, reason, auditId);
    }
  }

  /** An approval that does not verify is frozen: no operation on it changes a table. */
  lemma UnsoundIsFrozen(rules: Rules, db: Db, id: string, target: ApprovalStatus, now: DateTime, actor: string,
                        reason: Option<string>,
                        executionId: string, auditId: string, auditId': string)
    requires id in db.approvals && ApprovalSoundness(rules, db.approvals[id], EventsOf(db, id)) != Sound
    ensures GetTx(rules, db, id, now, auditId) == (db, Err(ProvenanceIntegrity))
    ensures TransitionTx(rules, db, id, target, now, actor, reason, auditId).0 == db
    ensures ClaimTx(rules, db, id, now, actor, executionId, auditId, auditId').0 == db
  {
    hide ApprovalSoundness, Inspect, RecordClaim;
  }

  /**
   A reason is not enough: rejecting any such approval with a reason of two blanks is committed,
   and from then on the approval cannot be read, decided or claimed.
   */
  lemma BlankRejectionFreezes(config: Config, actions: seq<Move>, id: string, now: DateTime, actor: Actor,
                              auditId: string,
                              target: ApprovalStatus, later: DateTime, other: string, reason: Option<string>,
                              executionId: string, x: string, y: string)
    requires var db := Reached(config, actions).db;
             id in db.approvals && db.approvals[id].status == Pending && !Lapsed(db.approvals[id], now)
             && |EventsOf(db, id)| < 1_000_000 && auditId !in db.auditIds
    ensures var db' := TransitionTx(config.rules, Reached(config, actions).db, id, Rejected, now, actor, Some("  "),
                                    auditId).0;
            && id in db'.approvals && db'.approvals[id].status == Rejected
            && GetTx(config.rules, db', id, later, x) == (db', Err(ProvenanceIntegrity))
            && TransitionTx(config.rules, db', id, target, later, other, reason, x).0 == db'
            && ClaimTx(config.rules, db', id, later, other, executionId, x, y).0 == db'
  {
    assert StorableDecision(Rejected, actor, Some("  ")) && !ReadsBack(config.rules, Rejected, actor, Some("  ")) by {
      ValidActorStorable(actor);
      BlankReasonIsStuck(config.rules.unsafeReason);
      hide ReadableReason, StorableReason, StorableActor, ValidActor;
    }
    hide *;
    ReachedTables(config, actions);
    DecisionIsRead(config.rules, Reached(config, actions).db, id, Rejected, now, actor, Some("  "), auditId, later, x);
    var db' := TransitionTx(config.rules, Reached(config, actions).db, id, Rejected, now, actor, Some("  "), auditId).0;
    UnsoundIsFrozen(config.rules, db', id, target, later, other, reason, executionId, x, y);
  }

  lemma DecisionEventIs(id: string, row: ApprovalRow, target: ApprovalStatus, now: DateTime, actor: string,
                        auditId: string)
    ensures var p := DecisionEvent(id, row, target, now, actor, auditId);
            p.approvalId == id && p.sequence == row.count + 1 && p.id == auditId && p.actor == actor
  {
  }

  lemma StorableParts(target: ApprovalStatus, actor: string, reason: Option<string>)
    ensures StorableDecision(target, actor, reason) <==>
            StorableActor(actor) && (target == Rejected && reason.Some? ==> StorableReason(reason.value))
  {
  }

  lemma ReadsBackAdmissible(rules: Rules, row: ApprovalRow, target: ApprovalStatus, now: DateTime, actor: string,
                            reason: Option<string>)
    requires row.status == Pending && ReadsBack(rules, target, actor, reason)
    ensures Admissible(rules, row, target, now, actor, reason)
  {
  }

  lemma DecisionCommits(rules: Rules, db: Db, id: string, target: ApprovalStatus, now: DateTime, actor: string,
                        reason: Option<string>,
                        auditId: string, db': Db)
    requires id in db.approvals && db.approvals[id].status == Pending && !Lapsed(db.approvals[id], now)
    requires target in {Approved, Rejected}
    requires ApprovalSoundness(rules, db.approvals[id], EventsOf(db, id)) == Sound
    requires target == Rejected && reason.Some? ==> StorableReason(reason.value)
    requires DecideTx(rules, db, id, DecidedRow(db.approvals[id], target, now, actor, reason),
                      DecisionEvent(id, db.approvals[id], target, now, actor, auditId)) == Some(db')
    requires id in db'.approvals
    ensures TransitionTx(rules, db, id, target, now, actor, reason, auditId) ==
            (db', if ApprovalReadable(rules, db'.approvals[id]) then Ok(db'.approvals[id])
                  else Err(ProvenanceIntegrity))
  {
    hide ApprovalSoundness, DecideTx, DecidedRow, ApprovalReadable, DecisionEvent, StorableReason;
  }

  /** A decided approval is read as it is, or refused. */
  lemma DecidedRead(rules: Rules, db: Db, id: string, now: DateTime, auditId: string)
    requires id in db.approvals && db.approvals[id].status != Pending
    ensures GetTx(rules, db, id, now, auditId) ==
            (db, if ApprovalSoundness(rules, db.approvals[id], EventsOf(db, id)) == Sound then Ok(db.approvals[id])
                 else Err(ProvenanceIntegrity))
  {
    hide ApprovalSoundness;
  }

  lemma UnreadableUnsound(rules: Rules, row: ApprovalRow, events: seq<AuditEvent>)
    requires !ApprovalReadable(rules, row)
    ensures ApprovalSoundness(rules, row, events) != Sound
  {
    hide ApprovalReadable;
  }

  lemma DecideAppends(rules: Rules, db: Db, id: string, row: ApprovalRow, p: AuditPayload)
    requires Inv(rules, db) && id in db.approvals && p.approvalId == id && p.sequence == db.approvals[id].count + 1
    requires p.id !in db.auditIds
    requires StorableActor(p.actor)
    ensures id in WithRow(db, id, row).approvals
    ensures DecideTx(rules, db, id, row, p) == Some(Appended(rules, WithRow(db, id, row), p))
    ensures |EventsOf(Appended(rules, WithRow(db, id, row), p), id)| == |EventsOf(db, id)| + 1
  {
    hide Inv, Append, StorableActor;
    AppendsAtEnd(rules, db, WithRow(db, id, row), p);
  }

  lemma DecisionReadable(rules: Rules, db: Db, id: string, target: ApprovalStatus, now: DateTime, actor: string,
                         reason: Option<string>, p: AuditPayload)
    requires Inv(rules, db) && id in db.approvals && p.approvalId == id && db.approvals[id].status == Pending
    requires target in {Approved, Rejected}
    ensures var db' := Appended(rules, WithRow(db, id, DecidedRow(db.approvals[id], target, now, actor, reason)), p);
            id in db'.approvals && db'.approvals[id].status == target
              && (ApprovalReadable(rules, db'.approvals[id]) <==> ReadsBack(rules, target, actor, reason))
  {
    CoherentRows(rules, db, id);
    var row := DecidedRow(db.approvals[id], target, now, actor, reason);
    var db' := Appended(rules, WithRow(db, id, row), p);
    assert db'.approvals[id] == row.(count := p.sequence, head := db'.approvals[id].head);
    DecidedRowReadable(rules, db.approvals[id], target, now, actor, reason, p.sequence, db'.approvals[id].head);
    hide *;
  }
}
