/**
 The whole system: the repository shared by any number of threads, the three-step execution
 service, crashes, and the log of calls made to the provider.

 One action is one atomic step.  An action carries everything that is not determined by the
 state: who acts, the clock value, the identifiers drawn, and how the provider answered.
 Clock values are arbitrary and identifiers may repeat; actors and reasons are those the
 services let through.
 */
module Protocol {
  import opened Prelude
  import opened Timestamps
  import opened Texts
  import opened Records
  import opened Transactions
  import opened Invariants
  import opened Preservation
  import opened Progress
  import opened Frames
  import opened Policy

  // ---------------------------------------------------------------- the provider

  datatype ProviderCategory =
    | Authentication | RateLimit | BadRequest | Unavailable | Timeout | ProviderSide | Unclassified

  /** How a provider call ended, as the service sees it. */
  datatype Outcome =
    | Returned
    | ProviderError(category: ProviderCategory, definitive: bool)
    | OtherException

  function FailureOf(category: ProviderCategory): FailureCategory {
    match category
    case Authentication => ProviderAuthentication
    case RateLimit => ProviderRateLimit
    case BadRequest => ProviderBadRequest
    case Unavailable => ProviderUnavailable
    case Timeout => ProviderTimeout
    case ProviderSide => ProviderFailure
    case Unclassified => UnknownOutcome
  }

  function RecordedStatus(outcome: Outcome): ExecutionStatus {
    match outcome
    case Returned => Succeeded
    case ProviderError(_, definitive) => if definitive then Failed else Unknown
    case OtherException => Unknown
  }

  function RecordedFailure(outcome: Outcome): Option<FailureCategory> {
    match outcome
    case Returned => None
    case ProviderError(category, _) => Some(FailureOf(category))
    case OtherException => Some(UnknownOutcome)
  }

  /**
   What the service promises to write: SUCCEEDED only for an answer, FAILED only for an error the
   provider calls definitive, UNKNOWN for every other end, and the provider's own category.
   */
  predicate Tells(outcome: Outcome, status: ExecutionStatus, failure: Option<FailureCategory>) {
    && (status == Succeeded <==> outcome == Returned)
    && (status == Failed <==> outcome.ProviderError? && outcome.definitive)
    && (status == Unknown <==> outcome == OtherException || (outcome.ProviderError? && !outcome.definitive))
    && (failure.None? <==> outcome == Returned)
    && (outcome == OtherException ==> failure == Some(UnknownOutcome))
    && (outcome.ProviderError? ==>
          && (outcome.category == Authentication ==> failure == Some(ProviderAuthentication))
          && (outcome.category == RateLimit ==> failure == Some(ProviderRateLimit))
          && (outcome.category == BadRequest ==> failure == Some(ProviderBadRequest))
          && (outcome.category == Unavailable ==> failure == Some(ProviderUnavailable))
          && (outcome.category == Timeout ==> failure == Some(ProviderTimeout))
          && (outcome.category == ProviderSide ==> failure == Some(ProviderFailure))
          && (outcome.category == Unclassified ==> failure == Some(UnknownOutcome)))
  }

  /** There is one status and one category that tell an outcome, and they are the ones recorded. */
  lemma RecordedTells(outcome: Outcome, status: ExecutionStatus, failure: Option<FailureCategory>)
    ensures Tells(outcome, status, failure) <==>
              status == RecordedStatus(outcome) && failure == RecordedFailure(outcome)
  {
  }

  // ---------------------------------------------------------------- states and actions

  datatype Call = Call(approvalId: string, executionId: string, parameters: Parameters, outcome: Outcome)

  /** Where a thread stands in `execute`: before the claim, after it, or after the provider answered. */
  datatype Pc =
    | Idle
    | Claiming(executionId: string, approvalId: string, parameters: Parameters)
    | Answered(executionId: string, approvalId: string, outcome: Outcome)

  /** What an approval was created from, when, and by whom. */
  datatype Origin = Origin(event: Event, intelligence: Intelligence, createdAt: DateTime, expiresAt: DateTime,
                           creator: string)

  /** `calls` and `origins` record what happened; no step reads them. */
  datatype System = System(db: Db, threads: map<int, Pc>, calls: seq<Call>, origins: map<string, Origin>)

  const INITIAL := System(EMPTY_DB, map[], [], map[])

  datatype Move =
    | CreateApproval(event: Event, intelligence: Intelligence, approvalId: string, now: DateTime, expiresAt: DateTime,
                     actor: Actor, auditId: string)
    | ReadApproval(approvalId: string, now: DateTime, auditId: string)
    | Approve(approvalId: string, now: DateTime, actor: Actor, auditId: string)
    | Reject(approvalId: string, reason: string, now: DateTime, actor: Actor, auditId: string)
    | StartExecution(thread: int, approvalId: string, now: DateTime, actor: Actor, executionId: string, auditId: string,
                     auditId': string)
    | CallProvider(thread: int, outcome: Outcome)
    | FinishExecution(thread: int, now: DateTime, auditId: string)
    | Assessment(executionId: string, declared: DeclaredOutcome, reason: string, now: DateTime, actor: Actor,
                 assessmentId: string, auditId: string)
    | Crash(thread: int)

  function PcOf(s: System, thread: int): Pc {
    if thread in s.threads then s.threads[thread] else Idle
  }

  /** One step; an action that is not enabled, or whose operation raises, changes no more than the tables say. */
  function Step(config: Config, s: System, a: Move): System {
    match a
    case CreateApproval(event, intelligence, approvalId, now, expiresAt, actor, auditId) =>
      if !Before(now, expiresAt) then s
      else match DraftFor(config, event, intelligence, approvalId, now, expiresAt) {
        case None => s
        case Some(draft) =>
          var (db, r) := CreateTx(config.rules, s.db, draft, now, actor, auditId);
          var origin := Origin(event, intelligence, now, expiresAt, actor);
          if r.Ok? then s.(db := db, origins := s.origins[approvalId := origin]) else s.(db := db)
      }
    case ReadApproval(approvalId, now, auditId) =>
      s.(db := GetTx(config.rules, s.db, approvalId, now, auditId).0)
    case Approve(approvalId, now, actor, auditId) =>
      s.(db := TransitionTx(config.rules, s.db, approvalId, Approved, now, actor, None, auditId).0)
    case Reject(approvalId, reason, now, actor, auditId) =>
      (match RequestedReason(config.rules.unsafeReason, reason)
       case None => s
       case Some(text) => s.(db := TransitionTx(config.rules, s.db, approvalId, Rejected, now, actor, Some(text),
                                                auditId).0))
    case StartExecution(thread, approvalId, now, actor, executionId, auditId, auditId') =>
      if PcOf(s, thread) != Idle then s
      else
        var (db, r) := ClaimTx(config.rules, s.db, approvalId, now, actor, executionId, auditId, auditId');
        if r.Ok? && r.value.approval.terms.parameters.Some?
        then
          var pc := Claiming(executionId, approvalId, r.value.approval.terms.parameters.value);
          s.(db := db, threads := s.threads[thread := pc])
        else s.(db := db)
    case CallProvider(thread, outcome) =>
      (match PcOf(s, thread)
       case Claiming(executionId, approvalId, parameters) =>
         s.(threads := s.threads[thread := Answered(executionId, approvalId, outcome)],
            calls := s.calls + [Call(approvalId, executionId, parameters, outcome)])
       case _ => s)
    case FinishExecution(thread, now, auditId) =>
      (match PcOf(s, thread)
       case Answered(executionId, _, outcome) =>
         s.(db := CompleteTx(config.rules, s.db, executionId, RecordedStatus(outcome), now, RecordedFailure(outcome),
                             auditId).0,
            threads := s.threads[thread := Idle])
       case _ => s)
    case Assessment(executionId, declared, reason, now, actor, assessmentId, auditId) =>
      if !AssessmentReason(reason) then s
      else s.(db := ReconcileTx(config.rules, s.db, executionId, declared, reason, now, actor, assessmentId, auditId).0)
    case Crash(thread) =>
      s.(threads := s.threads[thread := Idle])
  }

  function Run(config: Config, s: System, actions: seq<Move>): System {
    if actions == [] then s
    else Step(config, Run(config, s, actions[..|actions| - 1]), actions[|actions| - 1])
  }

  /** Every state the system can reach. */
  function Reached(config: Config, actions: seq<Move>): System {
    Run(config, INITIAL, actions)
  }

  lemma {:induction false} RunAppend(config: Config, s: System, first: seq<Move>, second: seq<Move>)
    ensures Run(config, s, first + second) == Run(config, Run(config, s, first), second)
    decreases |second|
  {
    if second == [] {
      assert first + second == first;
    } else {
      var n := |second| - 1;
      assert (first + second)[..|first + second| - 1] == first + second[..n];
      RunAppend(config, s, first, second[..n]);
    }
  }

  // ---------------------------------------------------------------- the tables along a run

  /** A decision with the texts a service lets through keeps the invariant. */
  lemma AdmittedTransition(rules: Rules, db: Db, id: string, target: ApprovalStatus, now: DateTime, actor: Actor,
                           reason: Option<string>, auditId: string)
    requires Inv(rules, db) && ReadsBack(rules, target, actor, reason)
    ensures Inv(rules, TransitionTx(rules, db, id, target, now, actor, reason, auditId).0)
  {
    hide Inv, TransitionTx, ReadableReason;
    AdmissibleKeepsInv(rules, db, id, target, now, actor, reason, auditId);
  }

  lemma StepKeepsTables(config: Config, s: System, a: Move)
    requires Inv(config.rules, s.db)
    ensures Inv(config.rules, Step(config, s, a).db) && Later(s.db, Step(config, s, a).db)
  {
    hide Inv, Later, CreateTx, GetTx, TransitionTx, ClaimTx, CompleteTx, ReconcileTx, DraftFor, DraftSound;
    LaterReflexive(s.db);
    match a
    case CreateApproval(event, intelligence, approvalId, now, expiresAt, actor, auditId) =>
      if Before(now, expiresAt) && DraftFor(config, event, intelligence, approvalId, now, expiresAt).Some? {
        var draft := DraftFor(config, event, intelligence, approvalId, now, expiresAt).value;
        DraftIsSound(config, event, intelligence, approvalId, now, expiresAt);
        CreateKeepsInv(config.rules, s.db, draft, now, actor, auditId);
        CreateLater(config.rules, s.db, draft, now, actor, auditId);
      }
    case ReadApproval(approvalId, now, auditId) =>
      GetKeepsInv(config.rules, s.db, approvalId, now, auditId);
      GetLater(config.rules, s.db, approvalId, now, auditId);
    case Approve(approvalId, now, actor, auditId) =>
      AdmittedTransition(config.rules, s.db, approvalId, Approved, now, actor, None, auditId);
      TransitionLater(config.rules, s.db, approvalId, Approved, now, actor, None, auditId);
    case Reject(approvalId, reason, now, actor, auditId) =>
      if RequestedReason(config.rules.unsafeReason, reason).Some? {
        var text := RequestedReason(config.rules.unsafeReason, reason).value;
        RequestedReasonReadable(config.rules.unsafeReason, reason);
        AdmittedTransition(config.rules, s.db, approvalId, Rejected, now, actor, Some(text), auditId);
        TransitionLater(config.rules, s.db, approvalId, Rejected, now, actor, Some(text), auditId);
      }
    case StartExecution(thread, approvalId, now, actor, executionId, auditId, auditId') =>
      ClaimKeepsInv(config.rules, s.db, approvalId, now, actor, executionId, auditId, auditId');
      ClaimLater(config.rules, s.db, approvalId, now, actor, executionId, auditId, auditId');
    case CallProvider(_, _) =>
    case FinishExecution(thread, now, auditId) =>
      if PcOf(s, thread).Answered? {
        var pc := PcOf(s, thread);
        CompleteKeepsInv(config.rules, s.db, pc.executionId, RecordedStatus(pc.outcome), now,
                         RecordedFailure(pc.outcome), auditId);
        CompleteLater(config.rules, s.db, pc.executionId, RecordedStatus(pc.outcome), now, RecordedFailure(pc.outcome),
                      auditId);
      }
    case Assessment(executionId, declared, reason, now, actor, assessmentId, auditId) =>
      if AssessmentReason(reason) {
        AssessmentReasonStorable(reason);
        assert ReadableAssessment(actor, reason);
        ReconcileKeepsInv(config.rules, s.db, executionId, declared, reason, now, actor, assessmentId, auditId);
        ReconcileLater(config.rules, s.db, executionId, declared, reason, now, actor, assessmentId, auditId);
      }
    case Crash(_) =>
  }

  /** Every state of every run satisfies the invariant, and later states only extend earlier ones. */
  lemma {:induction false} RunKeepsTables(config: Config, s: System, actions: seq<Move>)
    requires Inv(config.rules, s.db)
    ensures Inv(config.rules, Run(config, s, actions).db) && Later(s.db, Run(config, s, actions).db)
    decreases |actions|
  {
    hide Inv, Later, Step;
    if actions == [] {
      LaterReflexive(s.db);
    } else {
      var n := |actions| - 1;
      var mid := Run(config, s, actions[..n]);
      RunKeepsTables(config, s, actions[..n]);
      StepKeepsTables(config, mid, actions[n]);
      LaterTransitive(s.db, mid.db, Step(config, mid, actions[n]).db);
    }
  }

  // ---------------------------------------------------------------- threads, calls and executions along a run

  predicate Holds(s: System, thread: int, executionId: string) {
    !PcOf(s, thread).Idle? && PcOf(s, thread).executionId == executionId
  }

  predicate Matches(c: Call, x: ExecutionRow) {
    x.body.approvalId == c.approvalId && x.body.parameters == c.parameters
  }

  ghost predicate CalledWith(s: System, executionId: string, outcome: Outcome) {
    exists i | 0 <= i < |s.calls| :: s.calls[i].executionId == executionId && s.calls[i].outcome == outcome
  }

  ghost predicate NeverCalled(s: System, executionId: string) {
    forall i | 0 <= i < |s.calls| :: s.calls[i].executionId != executionId
  }

  /** A thread inside `execute` owns one CLAIMED row, which no other thread owns. */
  ghost predicate ThreadsOwn(s: System) {
    match s
    case System(db, threads, _, _) =>
      && (forall t | t in threads && !threads[t].Idle? ::
            && threads[t].executionId in db.executions
            && db.executions[threads[t].executionId].body.status == Claimed
            && db.executions[threads[t].executionId].body.approvalId == threads[t].approvalId)
      && (forall t, u | t in threads && u in threads && t != u && !threads[t].Idle? && !threads[u].Idle? ::
            threads[t].executionId != threads[u].executionId)
  }

  /** Before the call nothing was sent for the row; after it exactly the recorded answer was received. */
  ghost predicate ThreadsRemember(s: System) {
    match s
    case System(db, threads, _, _) =>
      && (forall t | t in threads && threads[t].Claiming? ::
            && NeverCalled(s, threads[t].executionId)
            && threads[t].executionId in db.executions
            && db.executions[threads[t].executionId].body.parameters == threads[t].parameters)
      && (forall t | t in threads && threads[t].Answered? :: CalledWith(s, threads[t].executionId, threads[t].outcome))
  }

  /** Calls are for distinct executions and carry their rows' parameters. */
  ghost predicate CallsRecorded(s: System) {
    match s
    case System(db, _, calls, _) =>
      && (forall i | 0 <= i < |calls| ::
             calls[i].executionId in db.executions && Matches(calls[i], db.executions[calls[i].executionId]))
      && (forall i, j | 0 <= i < j < |calls| :: calls[i].executionId != calls[j].executionId)
  }

  /** A finished row reports the answer of a call that was made. */
  ghost predicate OutcomesTrue(s: System) {
    match s
    case System(db, _, calls, _) =>
      forall x | x in db.executions && db.executions[x].body.status != Claimed ::
        exists i | 0 <= i < |calls| ::
          && calls[i].executionId == x
          && db.executions[x].body.status == RecordedStatus(calls[i].outcome)
          && db.executions[x].body.failure == RecordedFailure(calls[i].outcome)
  }

  /** The row repeats what it was created from: its terms, its provenance document and its times. */
  ghost predicate CreatedFrom(config: Config, o: Origin, row: ApprovalRow) {
    && Documents(config, o.event, o.intelligence, row.provenance)
    && row.terms == row.provenance.terms
    && row.provenanceHash == config.rules.provenance(row.provenance)
    && row.createdAt == o.createdAt && row.expiresAt == o.expiresAt
  }

  /** The trail starts with the creation: by its creator, at its time, bare, and linked to 64 zeros. */
  ghost predicate BeginsWith(rules: Rules, id: string, o: Origin, events: seq<AuditEvent>) {
    && events != []
    && var p, prev := events[0].payload, events[0].prev;
       && p == AuditPayload(p.id, id, None, None, None, None, 1, ApprovalCreated, PendingName, o.creator, o.createdAt)
       && (forall i | 0 <= i < 64 :: prev[i] == '0')
       && events[0].hash == rules.event(p, prev)
  }

  /** Every approval repeats, and its trail begins with, what it was created from. */
  ghost predicate OriginsBind(config: Config, s: System) {
    match s
    case System(db, _, _, origins) =>
      && origins.Keys == db.approvals.Keys
      && forall id | id in origins ::
           && CreatedFrom(config, origins[id], db.approvals[id])
           && BeginsWith(config.rules, id, origins[id], EventsOf(db, id))
  }

  ghost predicate CallsInv(s: System) {
    match s
    case System(_, _, _, _) => ThreadsOwn(s) && ThreadsRemember(s) && CallsRecorded(s) && OutcomesTrue(s)
  }

  ghost predicate SystemInv(config: Config, s: System) {
    match s
    case System(db, _, _, _) => Inv(config.rules, db) && CallsInv(s) && OriginsBind(config, s)
  }

  /** Steps of other clients change neither executions nor threads nor calls. */
  lemma BystanderKeepsCalls(s: System, s': System)
    requires CallsInv(s)
    requires s'.db.executions == s.db.executions && s'.threads == s.threads && s'.calls == s.calls
    ensures CallsInv(s')
  {
  }

  lemma CrashKeepsCalls(s: System, thread: int)
    requires CallsInv(s)
    ensures CallsInv(s.(threads := s.threads[thread := Idle]))
  {
  }

  lemma ClaimKeepsCalls(s: System, s': System, thread: int, x: ExecutionRow)
    requires CallsInv(s) && PcOf(s, thread).Idle?
    requires x.body.executionId !in s.db.executions && x.body.status == Claimed
    requires s'.db.executions == s.db.executions[x.body.executionId := x] && s'.calls == s.calls
    requires s'.threads == s.threads[thread := Claiming(x.body.executionId, x.body.approvalId, x.body.parameters)]
    ensures CallsInv(s')
  {
    assert NeverCalled(s, x.body.executionId) by {
      assert CallsRecorded(s);
    }
    ClaimKeepsThreads(s, s', thread, x);
    assert CallsRecorded(s') && OutcomesTrue(s');
  }

  lemma ClaimKeepsThreads(s: System, s': System, thread: int, x: ExecutionRow)
    requires ThreadsOwn(s) && ThreadsRemember(s) && PcOf(s, thread).Idle? && NeverCalled(s, x.body.executionId)
    requires x.body.executionId !in s.db.executions && x.body.status == Claimed
    requires s'.db.executions == s.db.executions[x.body.executionId := x] && s'.calls == s.calls
    requires s'.threads == s.threads[thread := Claiming(x.body.executionId, x.body.approvalId, x.body.parameters)]
    ensures ThreadsOwn(s') && ThreadsRemember(s')
  {
    forall t | t in s'.threads && !s'.threads[t].Idle?
      ensures s'.threads[t].executionId in s'.db.executions
      ensures t != thread ==> s'.threads[t].executionId != x.body.executionId
    {
    }
    forall t | t in s'.threads && s'.threads[t].Claiming? ensures NeverCalled(s', s'.threads[t].executionId) {
      if t != thread {
        assert NeverCalled(s, s.threads[t].executionId);
      }
    }
    forall t | t in s'.threads && s'.threads[t].Answered?
      ensures CalledWith(s', s'.threads[t].executionId, s'.threads[t].outcome)
    {
      assert CalledWith(s, s.threads[t].executionId, s.threads[t].outcome);
    }
  }

  lemma CallKeepsCalls(s: System, thread: int, outcome: Outcome)
    requires CallsInv(s) && PcOf(s, thread).Claiming?
    ensures var pc := PcOf(s, thread);
            CallsInv(s.(threads := s.threads[thread := Answered(pc.executionId, pc.approvalId, outcome)],
                        calls := s.calls + [Call(pc.approvalId, pc.executionId, pc.parameters, outcome)]))
  {
    var pc := PcOf(s, thread);
    var s' := s.(threads := s.threads[thread := Answered(pc.executionId, pc.approvalId, outcome)],
                 calls := s.calls + [Call(pc.approvalId, pc.executionId, pc.parameters, outcome)]);
    assert s'.calls[|s.calls|].executionId == pc.executionId;
    assert NeverCalled(s, pc.executionId);
    assert forall i | 0 <= i < |s.calls| :: s'.calls[i] == s.calls[i];
    CallKeepsThreads(s, s', thread, pc, outcome);
    assert CallsRecorded(s');
    forall x | x in s'.db.executions && s'.db.executions[x].body.status != Claimed
      ensures exists i | 0 <= i < |s'.calls| ::
                && s'.calls[i].executionId == x
                && s'.db.executions[x].body.status == RecordedStatus(s'.calls[i].outcome)
                && s'.db.executions[x].body.failure == RecordedFailure(s'.calls[i].outcome)
    {
      var i :| 0 <= i < |s.calls| && s.calls[i].executionId == x
               && s.db.executions[x].body.status == RecordedStatus(s.calls[i].outcome)
               && s.db.executions[x].body.failure == RecordedFailure(s.calls[i].outcome);
      assert s'.calls[i] == s.calls[i];
    }
  }

  lemma CallKeepsThreads(s: System, s': System, thread: int, pc: Pc, outcome: Outcome)
    requires ThreadsOwn(s) && ThreadsRemember(s) && pc == PcOf(s, thread) && pc.Claiming?
    requires s' == s.(threads := s.threads[thread := Answered(pc.executionId, pc.approvalId, outcome)],
                      calls := s.calls + [Call(pc.approvalId, pc.executionId, pc.parameters, outcome)])
    ensures ThreadsOwn(s') && ThreadsRemember(s')
  {
    assert forall i | 0 <= i < |s.calls| :: s'.calls[i] == s.calls[i];
    forall t | t in s'.threads && s'.threads[t].Claiming? ensures NeverCalled(s', s'.threads[t].executionId) {
      assert t != thread && NeverCalled(s, s.threads[t].executionId);
    }
    forall t | t in s'.threads && s'.threads[t].Answered?
      ensures CalledWith(s', s'.threads[t].executionId, s'.threads[t].outcome)
    {
      if t == thread {
        assert s'.calls[|s.calls|].executionId == pc.executionId;
      } else {
        assert CalledWith(s, s.threads[t].executionId, s.threads[t].outcome);
        var i :| 0 <= i < |s.calls| && s.calls[i].executionId == s.threads[t].executionId
          && s.calls[i].outcome == s.threads[t].outcome;
        assert s'.calls[i] == s.calls[i];
      }
    }
  }

  lemma FinishKeepsCalls(s: System, s': System, thread: int, x: ExecutionRow)
    requires CallsInv(s) && PcOf(s, thread).Answered?
    requires var pc := PcOf(s, thread);
             && pc.executionId in s.db.executions
             && var body := s.db.executions[pc.executionId].body;
             && Matches(Call(body.approvalId, pc.executionId, body.parameters, pc.outcome), x)
             && x.body.status == RecordedStatus(pc.outcome) && x.body.failure == RecordedFailure(pc.outcome)
             && s'.db.executions == s.db.executions[pc.executionId := x]
    requires s'.calls == s.calls && s'.threads == s.threads[thread := Idle]
    ensures CallsInv(s')
  {
    var pc := PcOf(s, thread);
    assert CalledWith(s, pc.executionId, pc.outcome);
    assert ThreadsOwn(s') && ThreadsRemember(s') by {
      forall t | t in s'.threads && s'.threads[t].Answered?
        ensures CalledWith(s', s'.threads[t].executionId, s'.threads[t].outcome)
      {
        assert CalledWith(s, s.threads[t].executionId, s.threads[t].outcome);
      }
      forall t | t in s'.threads && s'.threads[t].Claiming? ensures NeverCalled(s', s'.threads[t].executionId) {
        assert NeverCalled(s, s.threads[t].executionId);
      }
    }
    assert CallsRecorded(s');
    assert OutcomesTrue(s');
  }

  lemma StepKeepsCalls(config: Config, s: System, a: Move)
    requires CallsInv(s)
    ensures CallsInv(Step(config, s, a))
  {
    hide CallsInv, CreateTx, GetTx, TransitionTx, ClaimTx, CompleteTx, ReconcileTx, DraftFor, ClaimRefusal;
    match a
    case CreateApproval(event, intelligence, approvalId, now, expiresAt, actor, auditId) =>
      if Before(now, expiresAt) && DraftFor(config, event, intelligence, approvalId, now, expiresAt).Some? {
        CreateFrame(config.rules, s.db, DraftFor(config, event, intelligence, approvalId, now, expiresAt).value, now,
                    actor, auditId);
        BystanderKeepsCalls(s, Step(config, s, a));
      }
    case ReadApproval(approvalId, now, auditId) =>
      GetFrame(config.rules, s.db, approvalId, now, auditId);
      BystanderKeepsCalls(s, Step(config, s, a));
    case Approve(approvalId, now, actor, auditId) =>
      TransitionFrame(config.rules, s.db, approvalId, Approved, now, actor, None, auditId);
      BystanderKeepsCalls(s, Step(config, s, a));
    case Reject(approvalId, reason, now, actor, auditId) =>
      if RequestedReason(config.rules.unsafeReason, reason).Some? {
        TransitionFrame(config.rules, s.db, approvalId, Rejected, now, actor,
                        RequestedReason(config.rules.unsafeReason, reason), auditId);
      }
      BystanderKeepsCalls(s, Step(config, s, a));
    case StartExecution(thread, approvalId, now, actor, executionId, auditId, auditId') =>
      ClaimFrame(config.rules, s.db, approvalId, now, actor, executionId, auditId, auditId');
      var r := ClaimTx(config.rules, s.db, approvalId, now, actor, executionId, auditId, auditId').1;
      if PcOf(s, thread) == Idle && r.Ok? {
        ClaimKeepsCalls(s, Step(config, s, a), thread, ExecutionRowOf(config.rules, r.value.execution));
      }
    case CallProvider(thread, outcome) =>
      if PcOf(s, thread).Claiming? {
        CallKeepsCalls(s, thread, outcome);
      }
    case FinishExecution(thread, now, auditId) =>
      FinishStep(config, s, thread, now, auditId);
    case Assessment(executionId, declared, reason, now, actor, assessmentId, auditId) =>
      ReconcileFrame(config.rules, s.db, executionId, declared, reason, now, actor, assessmentId, auditId);
      BystanderKeepsCalls(s, Step(config, s, a));
    case Crash(thread) =>
      CrashKeepsCalls(s, thread);
  }

  lemma FinishStep(config: Config, s: System, thread: int, now: DateTime, auditId: string)
    requires CallsInv(s)
    ensures CallsInv(Step(config, s, FinishExecution(thread, now, auditId)))
  {
    hide CallsInv, CompleteTx;
    var pc := PcOf(s, thread);
    if pc.Answered? {
      var s' := Step(config, s, FinishExecution(thread, now, auditId));
      CompleteFrame(config.rules, s.db, pc.executionId, RecordedStatus(pc.outcome), now, RecordedFailure(pc.outcome),
                    auditId);
      var r := CompleteTx(config.rules, s.db, pc.executionId, RecordedStatus(pc.outcome), now,
                          RecordedFailure(pc.outcome), auditId).1;
      if r.Ok? {
        FinishKeepsCalls(s, s', thread, ExecutionRowOf(config.rules, r.value));
      } else {
        CrashKeepsCalls(s, thread);
      }
    }
  }

  lemma FoundingKept(config: Config, db: Db, db': Db, id: string, o: Origin)
    requires Later(db, db') && id in db.approvals
    requires CreatedFrom(config, o, db.approvals[id]) && BeginsWith(config.rules, id, o, EventsOf(db, id))
    ensures id in db'.approvals
    ensures CreatedFrom(config, o, db'.approvals[id]) && BeginsWith(config.rules, id, o, EventsOf(db', id))
  {
    assert id in db'.approvals.Keys;
    assert ViewOf(db, id).row == db.approvals[id] && ViewOf(db', id).row == db'.approvals[id];
    assert ViewOf(db, id).events == EventsOf(db, id) && ViewOf(db', id).events == EventsOf(db', id);
    hide ViewOf, EventsOf, Documents;
  }

  /** A new approval is created from its draft. */
  lemma DraftFounds(config: Config, db: Db, d: Draft, o: Origin, auditId: string)
    requires Documents(config, o.event, o.intelligence, d.provenance) && DraftSound(config.rules, d)
    requires d.createdAt == o.createdAt && d.expiresAt == o.expiresAt
    requires EventsOf(Drafted(db, d), d.approvalId) == []
    ensures var p := CreatedEvent(d, o.createdAt, o.creator, auditId);
            var db' := Appended(config.rules, Drafted(db, d), p);
            && d.approvalId in db'.approvals
            && CreatedFrom(config, o, db'.approvals[d.approvalId])
            && BeginsWith(config.rules, d.approvalId, o, EventsOf(db', d.approvalId))
  {
    ZerosAre(64);
    hide Documents, Zeros;
  }

  lemma CreateKeepsOrigins(config: Config, s: System, o: Origin, draft: Draft, auditId: string)
    requires OriginsBind(config, s) && Inv(config.rules, s.db)
    requires Documents(config, o.event, o.intelligence, draft.provenance) && DraftSound(config.rules, draft)
    requires draft.createdAt == o.createdAt && draft.expiresAt == o.expiresAt
    requires Later(s.db, CreateTx(config.rules, s.db, draft, o.createdAt, o.creator, auditId).0)
    ensures var (db, r) := CreateTx(config.rules, s.db, draft, o.createdAt, o.creator, auditId);
            var created := s.(db := db, origins := s.origins[draft.approvalId := o]);
            OriginsBind(config, if r.Ok? then created else s.(db := db))
  {
    var (db, r) := CreateTx(config.rules, s.db, draft, o.createdAt, o.creator, auditId);
    hide Later, CreateTx, Inv, CreatedFrom, BeginsWith, DraftSound, Documents, Appended, Drafted, ExecutionsIndexed;
    CreateFrame(config.rules, s.db, draft, o.createdAt, o.creator, auditId);
    if r.Ok? {
      DraftCreated(config.rules, s.db, draft, o.createdAt, o.creator, auditId);
      DraftFounds(config, s.db, draft, o, auditId);
      forall id | id in s.db.approvals
        ensures id in db.approvals && CreatedFrom(config, s.origins[id], db.approvals[id])
        ensures BeginsWith(config.rules, id, s.origins[id], EventsOf(db, id))
      {
        assert id in s.origins.Keys;
        FoundingKept(config, s.db, db, id, s.origins[id]);
      }
    }
  }

  lemma DraftCreated(rules: Rules, db: Db, d: Draft, now: DateTime, actor: string, auditId: string)
    requires Inv(rules, db) && CreateTx(rules, db, d, now, actor, auditId).1.Ok?
    ensures EventsOf(Drafted(db, d), d.approvalId) == []
    ensures CreateTx(rules, db, d, now, actor, auditId).0 ==
            Appended(rules, Drafted(db, d), CreatedEvent(d, now, actor, auditId))
  {
    CreateGuards(rules, db, d, now, actor, auditId);
    TablesIndexed(rules, db);
    hide Inv, CreateTx, StorableActor, ExecutionsIndexed;
    CreateEffect(rules, db, d, now, actor, auditId);
    DraftedViews(db, d);
  }

  lemma CreateGuards(rules: Rules, db: Db, d: Draft, now: DateTime, actor: string, auditId: string)
    requires CreateTx(rules, db, d, now, actor, auditId).1.Ok?
    ensures d.approvalId !in db.approvals && auditId !in db.auditIds && StorableActor(actor)
    ensures d.terms.policyVersion == POLICY_VERSION && d.terms.decision == RequireHumanApproval
  {
    hide StorableActor, SequenceTaken;
  }

  lemma SameKeysKeepOrigins(config: Config, s: System, s': System)
    requires OriginsBind(config, s) && Later(s.db, s'.db)
    requires s'.db.approvals.Keys == s.db.approvals.Keys && s'.origins == s.origins
    ensures OriginsBind(config, s')
  {
    hide Later, CreatedFrom, BeginsWith, EventsOf;
    forall id | id in s.db.approvals
      ensures id in s'.db.approvals && CreatedFrom(config, s'.origins[id], s'.db.approvals[id])
      ensures BeginsWith(config.rules, id, s'.origins[id], EventsOf(s'.db, id))
    {
      assert id in s.origins.Keys;
      FoundingKept(config, s.db, s'.db, id, s.origins[id]);
    }
  }

  lemma StepKeepsOrigins(config: Config, s: System, a: Move)
    requires OriginsBind(config, s) && Inv(config.rules, s.db) && Later(s.db, Step(config, s, a).db)
    ensures OriginsBind(config, Step(config, s, a))
  {
    hide Later, CreateTx, GetTx, TransitionTx, ClaimTx, CompleteTx, ReconcileTx, DraftFor, ClaimRefusal, OriginsBind,
         Inv, Documents, DraftSound;
    var s' := Step(config, s, a);
    match a
    case CreateApproval(event, intelligence, approvalId, now, expiresAt, actor, auditId) =>
      if Before(now, expiresAt) && DraftFor(config, event, intelligence, approvalId, now, expiresAt).Some? {
        DraftIsSound(config, event, intelligence, approvalId, now, expiresAt);
        CreateKeepsOrigins(config, s, Origin(event, intelligence, now, expiresAt, actor),
                           DraftFor(config, event, intelligence, approvalId, now, expiresAt).value, auditId);
      }
    case ReadApproval(approvalId, now, auditId) =>
      GetFrame(config.rules, s.db, approvalId, now, auditId);
      SameKeysKeepOrigins(config, s, s');
    case Approve(approvalId, now, actor, auditId) =>
      TransitionFrame(config.rules, s.db, approvalId, Approved, now, actor, None, auditId);
      SameKeysKeepOrigins(config, s, s');
    case Reject(approvalId, reason, now, actor, auditId) =>
      if RequestedReason(config.rules.unsafeReason, reason).Some? {
        TransitionFrame(config.rules, s.db, approvalId, Rejected, now, actor,
                        RequestedReason(config.rules.unsafeReason, reason), auditId);
      }
      SameKeysKeepOrigins(config, s, s');
    case StartExecution(thread, approvalId, now, actor, executionId, auditId, auditId') =>
      ClaimFrame(config.rules, s.db, approvalId, now, actor, executionId, auditId, auditId');
      SameKeysKeepOrigins(config, s, s');
    case CallProvider(_, _) =>
      SameKeysKeepOrigins(config, s, s');
    case FinishExecution(thread, now, auditId) =>
      if PcOf(s, thread).Answered? {
        var pc := PcOf(s, thread);
        CompleteFrame(config.rules, s.db, pc.executionId, RecordedStatus(pc.outcome), now, RecordedFailure(pc.outcome),
                      auditId);
        SameKeysKeepOrigins(config, s, s');
      }
    case Assessment(executionId, declared, reason, now, actor, assessmentId, auditId) =>
      ReconcileFrame(config.rules, s.db, executionId, declared, reason, now, actor, assessmentId, auditId);
      SameKeysKeepOrigins(config, s, s');
    case Crash(_) =>
      SameKeysKeepOrigins(config, s, s');
  }

  lemma {:induction false} RunKeepsSystem(config: Config, s: System, actions: seq<Move>)
    requires SystemInv(config, s)
    ensures SystemInv(config, Run(config, s, actions))
    decreases |actions|
  {
    hide Inv, CallsInv, OriginsBind, Step, Later;
    if actions != [] {
      var n := |actions| - 1;
      var mid := Run(config, s, actions[..n]);
      RunKeepsSystem(config, s, actions[..n]);
      StepKeepsTables(config, mid, actions[n]);
      StepKeepsCalls(config, mid, actions[n]);
      StepKeepsOrigins(config, mid, actions[n]);
    }
  }

  /** Every reachable state satisfies the whole invariant. */
  lemma ReachedInv(config: Config, actions: seq<Move>)
    ensures SystemInv(config, Reached(config, actions))
  {
    InvInitially(config.rules);
    assert SystemInv(config, INITIAL);
    hide SystemInv;
    RunKeepsSystem(config, INITIAL, actions);
  }

  // ---------------------------------------------------------------- main results

  /** In every run the provider is called at most once per approval, and at most once per execution. */
  lemma AtMostOneCall(config: Config, actions: seq<Move>, i: nat, j: nat)
    requires i < j < |Reached(config, actions).calls|
    ensures Reached(config, actions).calls[i].approvalId != Reached(config, actions).calls[j].approvalId
    ensures Reached(config, actions).calls[i].executionId != Reached(config, actions).calls[j].executionId
  {
    ReachedInv(config, actions);
    var s := Reached(config, actions);
    CallsIndexed(config, s);
    hide SystemInv, Reached;
    assert s.calls[i].executionId in s.db.executions && s.calls[j].executionId in s.db.executions;
  }

  /** A claimed row that no thread owns any more: its claimer crashed, or could not record the answer. */
  predicate Orphaned(s: System, executionId: string) {
    && executionId in s.db.executions && s.db.executions[executionId].body.status == Claimed
    && forall t | t in s.threads :: !Holds(s, t, executionId)
  }

  /** The row stays as it is, stays without an owner, and is not the subject of any new call. */
  ghost predicate LeftAlone(s: System, s': System, executionId: string) {
    match s'
    case System(db, _, calls, _) =>
      && Orphaned(s, executionId) && Orphaned(s', executionId)
      && db.executions[executionId] == s.db.executions[executionId]
      && s.calls <= calls
      && forall i | |s.calls| <= i < |calls| :: calls[i].executionId != executionId
  }

  lemma LeftAloneTransitive(s: System, s': System, s'': System, executionId: string)
    requires LeftAlone(s, s', executionId) && LeftAlone(s', s'', executionId)
    ensures LeftAlone(s, s'', executionId)
  {
    hide Orphaned;
  }

  /** A step that leaves calls alone, and at most idles threads or adds and rewrites other executions. */
  lemma NoCallLeavesAlone(s: System, s': System, executionId: string)
    requires Orphaned(s, executionId) && s'.calls == s.calls
    requires executionId in s'.db.executions && s'.db.executions[executionId] == s.db.executions[executionId]
    requires forall t | t in s'.threads :: Holds(s', t, executionId) ==> t in s.threads && Holds(s, t, executionId)
    ensures LeftAlone(s, s', executionId)
  {
  }

  /** No step changes an orphaned row, adopts it, or calls the provider for it. */
  lemma OrphanStep(config: Config, s: System, a: Move, executionId: string)
    requires Orphaned(s, executionId)
    ensures LeftAlone(s, Step(config, s, a), executionId)
  {
    var s' := Step(config, s, a);
    hide Orphaned, LeftAlone, CreateTx, GetTx, TransitionTx, ClaimTx, CompleteTx, ReconcileTx, DraftFor, ClaimRefusal;
    assert executionId in s.db.executions && forall t | t in s.threads ::
      !Holds(s, t, executionId) by { assert Orphaned(s, executionId); OrphanedMeans(s, executionId); }
    match a
    case CreateApproval(event, intelligence, approvalId, now, expiresAt, actor, auditId) =>
      if Before(now, expiresAt) && DraftFor(config, event, intelligence, approvalId, now, expiresAt).Some? {
        CreateFrame(config.rules, s.db, DraftFor(config, event, intelligence, approvalId, now, expiresAt).value, now,
                    actor, auditId);
      }
      NoCallLeavesAlone(s, s', executionId);
    case ReadApproval(approvalId, now, auditId) =>
      GetFrame(config.rules, s.db, approvalId, now, auditId);
      NoCallLeavesAlone(s, s', executionId);
    case Approve(approvalId, now, actor, auditId) =>
      OrphanNotDecided(config, s, a, executionId);
    case Reject(approvalId, reason, now, actor, auditId) =>
      OrphanNotDecided(config, s, a, executionId);
    case StartExecution(thread, approvalId, now, actor, newId, auditId, auditId') =>
      OrphanNotClaimed(config, s, thread, approvalId, now, actor, newId, auditId, auditId', executionId);
    case CallProvider(thread, outcome) =>
      OrphanNotCalled(config, s, thread, outcome, executionId);
    case FinishExecution(thread, now, auditId) =>
      OrphanNotFinished(config, s, thread, now, auditId, executionId);
    case Assessment(target, declared, reason, now, actor, assessmentId, auditId) =>
      ReconcileFrame(config.rules, s.db, target, declared, reason, now, actor, assessmentId, auditId);
      NoCallLeavesAlone(s, s', executionId);
    case Crash(_) =>
      NoCallLeavesAlone(s, s', executionId);
  }

  lemma OrphanedMeans(s: System, executionId: string)
    requires Orphaned(s, executionId)
    ensures executionId in s.db.executions && forall t | t in s.threads :: !Holds(s, t, executionId)
  {
  }

  lemma OrphanNotDecided(config: Config, s: System, a: Move, executionId: string)
    requires Orphaned(s, executionId) && (a.Approve? || a.Reject?)
    ensures LeftAlone(s, Step(config, s, a), executionId)
  {
    hide Orphaned, LeftAlone, TransitionTx, RequestedReason;
    OrphanedMeans(s, executionId);
    if a.Approve? {
      TransitionFrame(config.rules, s.db, a.approvalId, Approved, a.now, a.actor, None, a.auditId);
    } else if RequestedReason(config.rules.unsafeReason, a.reason).Some? {
      TransitionFrame(config.rules, s.db, a.approvalId, Rejected, a.now, a.actor,
                      RequestedReason(config.rules.unsafeReason, a.reason), a.auditId);
    }
    NoCallLeavesAlone(s, Step(config, s, a), executionId);
  }

  lemma OrphanNotClaimed(config: Config, s: System, thread: int, approvalId: string, now: DateTime, actor: Actor,
                         newId: string, auditId: string, auditId': string, executionId: string)
    requires Orphaned(s, executionId)
    ensures LeftAlone(s, Step(config, s, StartExecution(thread, approvalId, now, actor, newId, auditId, auditId')),
                      executionId)
  {
    hide Orphaned, LeftAlone, ClaimTx, ClaimRefusal;
    OrphanedMeans(s, executionId);
    ClaimFrame(config.rules, s.db, approvalId, now, actor, newId, auditId, auditId');
    var (db', r) := ClaimTx(config.rules, s.db, approvalId, now, actor, newId, auditId, auditId');
    assert executionId in db'.executions && db'.executions[executionId] == s.db.executions[executionId] by {
      if r.Ok? {
        assert newId != executionId;
      }
    }
    NoCallLeavesAlone(s, Step(config, s, StartExecution(thread, approvalId, now, actor, newId, auditId, auditId')),
                      executionId);
  }

  lemma OrphanNotFinished(config: Config, s: System, thread: int, now: DateTime, auditId: string, executionId: string)
    requires Orphaned(s, executionId)
    ensures LeftAlone(s, Step(config, s, FinishExecution(thread, now, auditId)), executionId)
  {
    hide Orphaned, LeftAlone, CompleteTx;
    OrphanedMeans(s, executionId);
    var pc := PcOf(s, thread);
    if pc.Answered? {
      assert thread in s.threads && !Holds(s, thread, executionId);
      assert pc.executionId != executionId;
      CompleteFrame(config.rules, s.db, pc.executionId, RecordedStatus(pc.outcome), now, RecordedFailure(pc.outcome),
                    auditId);
    }
    NoCallLeavesAlone(s, Step(config, s, FinishExecution(thread, now, auditId)), executionId);
  }

  lemma OrphanNotCalled(config: Config, s: System, thread: int, outcome: Outcome, executionId: string)
    requires Orphaned(s, executionId)
    ensures LeftAlone(s, Step(config, s, CallProvider(thread, outcome)), executionId)
  {
    assert thread in s.threads ==> !Holds(s, thread, executionId);
  }

  /** An orphaned row is left alone by every continuation of the run. */
  lemma {:induction false} OrphanRun(config: Config, s: System, actions: seq<Move>, executionId: string)
    requires Orphaned(s, executionId)
    ensures LeftAlone(s, Run(config, s, actions), executionId)
    decreases |actions|
  {
    if actions != [] {
      var n := |actions| - 1;
      var mid := Run(config, s, actions[..n]);
      OrphanRun(config, s, actions[..n], executionId);
      assert Orphaned(mid, executionId);
      hide Step, Orphaned, LeftAlone;
      OrphanStep(config, mid, actions[n], executionId);
      LeftAloneTransitive(s, mid, Step(config, mid, actions[n]), executionId);
    }
  }

  /** A row without an owner and without a call is never called for, and stays CLAIMED. */
  lemma OrphanNeverCalled(config: Config, s: System, actions: seq<Move>, executionId: string)
    requires Orphaned(s, executionId) && NeverCalled(s, executionId)
    ensures var s' := Run(config, s, actions);
            && executionId in s'.db.executions && s'.db.executions[executionId] == s.db.executions[executionId]
            && NeverCalled(s', executionId)
  {
    OrphanRun(config, s, actions, executionId);
    hide Run, Step, Orphaned;
    var s' := Run(config, s, actions);
    OrphanedMeans(s', executionId);
    forall i | 0 <= i < |s'.calls| ensures s'.calls[i].executionId != executionId {
      if i < |s.calls| {
        assert s'.calls[i] == s.calls[i];
      }
    }
  }

  /**
   A thread that crashes between claim and call leaves the row CLAIMED for ever, and no later
   step of any run reaches the provider for that approval.
   */
  lemma CrashAfterClaimIsFinal(config: Config, before: seq<Move>, thread: int, after: seq<Move>)
    requires PcOf(Reached(config, before), thread).Claiming?
    ensures var pc := PcOf(Reached(config, before), thread);
            var s' := Reached(config, before + [Crash(thread)] + after);
            && pc.executionId in s'.db.executions
            && s'.db.executions[pc.executionId].body.status == Claimed
            && forall i | 0 <= i < |s'.calls| :: s'.calls[i].approvalId != pc.approvalId
  {
    var s := Reached(config, before);
    var pc := PcOf(s, thread);
    var crashed := Step(config, s, Crash(thread));
    ReachedInv(config, before);
    CrashOrphans(config, s, thread);
    RunAfterCrash(config, before, thread, after);
    ReachedInv(config, before + [Crash(thread)] + after);
    hide *;
    OrphanNeverCalled(config, crashed, after, pc.executionId);
    NotCalledForApproval(config, Run(config, crashed, after), pc.executionId, pc.approvalId);
  }

  lemma RunAfterCrash(config: Config, before: seq<Move>, thread: int, after: seq<Move>)
    ensures Reached(config, before + [Crash(thread)] + after) == Run(config,
                                                                     Step(config, Reached(config, before),
                                                                          Crash(thread)), after)
  {
    hide Step;
    RunAppend(config, INITIAL, before + [Crash(thread)], after);
    assert (before + [Crash(thread)])[..|before|] == before;
  }

  lemma CrashOrphans(config: Config, s: System, thread: int)
    requires SystemInv(config, s) && PcOf(s, thread).Claiming?
    ensures var pc := PcOf(s, thread);
            var s' := Step(config, s, Crash(thread));
            && Orphaned(s', pc.executionId) && NeverCalled(s', pc.executionId)
            && s'.db == s.db && s.db.executions[pc.executionId].body.approvalId == pc.approvalId
  {
    hide Inv, OriginsBind;
    assert ThreadsOwn(s) && ThreadsRemember(s);
    hide CallsRecorded, OutcomesTrue;
  }

  lemma NotCalledForApproval(config: Config, s: System, executionId: string, approvalId: string)
    requires SystemInv(config, s) && executionId in s.db.executions
    requires s.db.executions[executionId].body.approvalId == approvalId
    requires NeverCalled(s, executionId)
    ensures forall i | 0 <= i < |s.calls| :: s.calls[i].approvalId != approvalId
  {
    CallsIndexed(config, s);
    hide SystemInv;
    OtherApprovals(s, executionId, approvalId);
  }

  lemma CallsIndexed(config: Config, s: System)
    requires SystemInv(config, s)
    ensures ExecutionsIndexed(s.db) && CallsRecorded(s) && ThreadsOwn(s) && ThreadsRemember(s) && OutcomesTrue(s)
  {
    hide AllCoherent, EventsIndexed, ExecutionsIndexed, OriginsBind, CallsRecorded, ThreadsOwn, ThreadsRemember,
         OutcomesTrue;
  }

  lemma OtherApprovals(s: System, executionId: string, approvalId: string)
    requires ExecutionsIndexed(s.db) && CallsRecorded(s) && NeverCalled(s, executionId)
    requires executionId in s.db.executions && s.db.executions[executionId].body.approvalId == approvalId
    ensures forall i | 0 <= i < |s.calls| :: s.calls[i].approvalId != approvalId
  {
    forall i | 0 <= i < |s.calls| ensures s.calls[i].approvalId != approvalId {
      assert s.calls[i].executionId in s.db.executions;
    }
  }
}
