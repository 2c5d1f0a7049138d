/** The sequence bound is reachable: a run, without any crash, whose successful call can never be recorded. */
module Lockout {
  import opened Prelude
  import opened Timestamps
  import opened Texts
  import opened Records
  import opened AuditTrail
  import opened Transactions
  import opened Invariants
  import opened Preservation
  import opened Progress
  import opened Policy
  import opened Protocol
  import opened Guarantees

  const TAG := Parameters("contact-001", "renewal due")
  const REQUEST := Event("e", ContactTagRequest, WebForm,
                         Json.Obj([("contact_id", Json.Str("contact-001")), ("tag", Json.Str("renewal due"))]))
  const ANALYSIS := Intelligence("e", InternalCategory, LowPriority, LowUrgency, KnownIntent("tag"), 1.0, ["reason"],
                                 StepNone)

  const USER: Actor := "u"

  /** Distinct identifiers, told apart by their length. */
  function Name(k: nat): (s: string)
    ensures |s| == k
  {
    Zeros(k)
  }

  /** Created, approved, and then approved again and again, which is refused each time. */
  function Busy(t: DateTime, expiry: DateTime, n: nat): (r: seq<Move>)
    requires n >= 2
    ensures |r| == n
  {
    if n == 2 then [CreateApproval(REQUEST, ANALYSIS, "a", t, expiry, USER, Name(0)), Approve("a", t, USER, Name(1))]
    else Busy(t, expiry, n - 1) + [Approve("a", t, USER, Name(n - 1))]
  }

  /** An approved, unclaimed approval with `n` events, none of whose identifiers is longer than `n - 1`. */
  ghost predicate BusyDb(rules: Rules, db: Db, expiry: DateTime, n: nat) {
    match db
    case Db(approvals, _, auditIds, executions, executionOf, _, _) =>
      && Inv(rules, db)
      && "a" in approvals && approvals["a"].status == Approved && approvals["a"].expiresAt == expiry
      && approvals["a"].terms.action == AddContactTag && approvals["a"].terms.parameters == Some(TAG)
      && approvals["a"].terms.policyVersion == POLICY_VERSION
      && |EventsOf(db, "a")| == n
      && (forall k | k in auditIds :: |k| < n)
      && executions == map[] && executionOf == map[]
  }

  lemma RequestTerms(config: Config)
    requires config.validParameters(TAG)
    ensures TermsFor(config, REQUEST, ANALYSIS).Some?
    ensures var t := TermsFor(config, REQUEST, ANALYSIS).value;
            t.action == AddContactTag && t.parameters == Some(TAG) && t.policyVersion == POLICY_VERSION
              && t.decision == RequireHumanApproval
  {
    ParsesExactly(config, REQUEST.payload, TAG);
    assert Evaluate(config.threshold, REQUEST, ANALYSIS, POLICY_VERSION) ==
           Evaluation(RequireHumanApproval, AddContactTag, MediumRisk,
                      [Evidence(MutationRequiresApproval, FromEvent, NoValue)]);
    hide Evaluate;
  }

  lemma RequestDraft(config: Config, t: DateTime, expiry: DateTime)
    requires config.validParameters(TAG)
    ensures var d := DraftFor(config, REQUEST, ANALYSIS, "a", t, expiry);
            && d.Some? && d.value.approvalId == "a" && d.value.terms.action == AddContactTag
            && d.value.terms.parameters == Some(TAG)
            && d.value.terms.policyVersion == POLICY_VERSION && d.value.terms.decision == RequireHumanApproval
  {
    RequestTerms(config);
    hide TermsFor;
  }

  lemma CreateStep(config: Config, t: DateTime, expiry: DateTime)
    requires Before(t, expiry) && DraftFor(config, REQUEST, ANALYSIS, "a", t, expiry).Some?
    ensures var s := Step(config, INITIAL, CreateApproval(REQUEST, ANALYSIS, "a", t, expiry, USER, Name(0)));
            && s.threads == map[] && s.calls == []
            && s.db == CreateTx(config.rules, EMPTY_DB, DraftFor(config, REQUEST, ANALYSIS, "a", t, expiry).value, t,
                                USER, Name(0)).0
  {
    hide CreateTx, DraftFor;
  }

  /** After creation: one event, still pending. */
  lemma AfterCreate(config: Config, t: DateTime, expiry: DateTime)
    requires config.validParameters(TAG) && Before(t, expiry)
    ensures var d := DraftFor(config, REQUEST, ANALYSIS, "a", t, expiry);
            var s := Step(config, INITIAL, CreateApproval(REQUEST, ANALYSIS, "a", t, expiry, USER, Name(0)));
            && d.Some? && d.value.terms.action == AddContactTag && d.value.terms.parameters == Some(TAG)
            && s.threads == map[] && s.calls == []
            && s.db == Appended(config.rules, Drafted(EMPTY_DB, d.value), CreatedEvent(d.value, t, USER, Name(0)))
            && Inv(config.rules, s.db)
  {
    EmptyIndexed();
    hide *;
    InvInitially(config.rules);
    RequestDraft(config, t, expiry);
    var d := DraftFor(config, REQUEST, ANALYSIS, "a", t, expiry).value;
    DraftIsSound(config, REQUEST, ANALYSIS, "a", t, expiry);
    UserTexts(config.rules);
    CreateKeepsInv(config.rules, EMPTY_DB, d, t, USER, Name(0));
    CreateEffect(config.rules, EMPTY_DB, d, t, USER, Name(0));
    CreateStep(config, t, expiry);
  }

  lemma EmptyIndexed()
    ensures ExecutionsIndexed(EMPTY_DB) && EMPTY_DB.events.Keys == EMPTY_DB.approvals.Keys
    ensures EMPTY_DB.approvals == map[] && EMPTY_DB.auditIds == {}
  {
  }

  lemma AfterApprove(config: Config, t: DateTime, expiry: DateTime)
    requires config.validParameters(TAG) && Before(t, expiry)
    ensures var s := Reached(config, Busy(t, expiry, 2));
            BusyDb(config.rules, s.db, expiry, 2) && s.threads == map[] && s.calls == []
  {
    hide *;
    AfterCreate(config, t, expiry);
    TwoSteps(config, t, expiry);
    var s := Step(config, INITIAL, CreateApproval(REQUEST, ANALYSIS, "a", t, expiry, USER, Name(0)));
    DraftFacts(config, t, expiry);
    CreatedFacts(config.rules, DraftFor(config, REQUEST, ANALYSIS, "a", t, expiry).value, t);
    ApproveStep(config, s, t, expiry);
  }

  lemma TwoSteps(config: Config, t: DateTime, expiry: DateTime)
    ensures Reached(config, Busy(t, expiry, 2)) ==
            Step(config, Step(config, INITIAL, CreateApproval(REQUEST, ANALYSIS, "a", t, expiry, USER, Name(0))),
                 Approve("a", t, USER, Name(1)))
  {
    var create, approve := CreateApproval(REQUEST, ANALYSIS, "a", t, expiry, USER, Name(0)), Approve("a", t, USER,
        Name(1));
    hide Step;
    assert [create, approve][..1] == [create] && [create][..0] == [];
    assert Run(config, INITIAL, [create]) == Step(config, INITIAL, create);
  }

  lemma DraftFacts(config: Config, t: DateTime, expiry: DateTime)
    requires DraftFor(config, REQUEST, ANALYSIS, "a", t, expiry).Some?
    ensures var d := DraftFor(config, REQUEST, ANALYSIS, "a", t, expiry).value;
            d.approvalId == "a" && d.expiresAt == expiry && d.status == Pending
              && d.terms.policyVersion == POLICY_VERSION
  {
    hide Evaluate, ParseParameters;
  }

  lemma CreatedFacts(rules: Rules, d: Draft, t: DateTime)
    requires d.approvalId == "a"
    ensures var db := Appended(rules, Drafted(EMPTY_DB, d), CreatedEvent(d, t, USER, Name(0)));
            && "a" in db.approvals && db.approvals["a"].status == d.status && db.approvals["a"].expiresAt == d.expiresAt
            && db.approvals["a"].terms == d.terms && |EventsOf(db, "a")| == 1 && db.auditIds == {Name(0)}
            && db.executions == map[] && db.executionOf == map[]
  {
  }

  lemma ApproveStep(config: Config, s: System, t: DateTime, expiry: DateTime)
    requires Inv(config.rules, s.db) && "a" in s.db.approvals && Before(t, expiry)
    requires var row := s.db.approvals["a"];
             && row.status == Pending && row.expiresAt == expiry && row.terms.action == AddContactTag
             && row.terms.parameters == Some(TAG) && row.terms.policyVersion == POLICY_VERSION
    requires |EventsOf(s.db, "a")| == 1 && s.db.auditIds == {Name(0)} && s.db.executions == map[]
    requires s.db.executionOf == map[]
    ensures var s' := Step(config, s, Approve("a", t, USER, Name(1)));
            BusyDb(config.rules, s'.db, expiry, 2) && s'.threads == s.threads && s'.calls == s.calls
  {
    var row := s.db.approvals["a"];
    var p := DecisionEvent("a", row, Approved, t, USER, Name(1));
    var row' := DecidedRow(row, Approved, t, USER, None);
    hide *;
    UserTexts(config.rules);
    DecisionEventIs("a", row, Approved, t, USER, Name(1));
    ApprovalAccepted(config.rules, s.db, "a");
    NotLapsed(row, t, expiry);
    NamesDiffer(0, 1);
    DecideAppends(config.rules, s.db, "a", row', p);
    var db' := Appended(config.rules, WithRow(s.db, "a", row'), p);
    AdmittedTransition(config.rules, s.db, "a", Approved, t, USER, None, Name(1));
    ApprovedFacts(config.rules, s.db, row, t, p);
    ApproveIs(config, s, t, db');
    ApprovedIsBusy(config.rules, db', expiry);
  }

  lemma UserTexts(rules: Rules)
    ensures ReadsBack(rules, Approved, USER, None) && StorableActor(USER)
  {
    ValidActorStorable(USER);
  }

  lemma NotLapsed(row: ApprovalRow, t: DateTime, expiry: DateTime)
    requires row.expiresAt == expiry && Before(t, expiry)
    ensures !Lapsed(row, t)
  {
  }

  lemma NamesDiffer(k: nat, n: nat)
    requires k < n
    ensures Name(k) != Name(n) && |Name(k)| < n
  {
    assert |Name(k)| == k && |Name(n)| == n;
  }

  lemma ApproveIs(config: Config, s: System, t: DateTime, db': Db)
    requires "a" in s.db.approvals && s.db.approvals["a"].status == Pending && !Lapsed(s.db.approvals["a"], t)
    requires ApprovalSoundness(config.rules, s.db.approvals["a"], EventsOf(s.db, "a")) == Sound
    requires DecideTx(config.rules, s.db, "a", DecidedRow(s.db.approvals["a"], Approved, t, USER, None),
                      DecisionEvent("a", s.db.approvals["a"], Approved, t, USER, Name(1))) == Some(db')
    requires "a" in db'.approvals
    ensures TransitionTx(config.rules, s.db, "a", Approved, t, USER, None, Name(1)).0 == db'
    ensures Step(config, s, Approve("a", t, USER, Name(1))) == s.(db := db')
  {
    hide ApprovalSoundness, DecideTx, DecidedRow, ApprovalReadable, Lapsed;
  }

  lemma ApprovedIsBusy(rules: Rules, db: Db, expiry: DateTime)
    requires Inv(rules, db) && "a" in db.approvals && |EventsOf(db, "a")| == 2
    requires var row := db.approvals["a"];
             && row.status == Approved && row.expiresAt == expiry && row.terms.action == AddContactTag
             && row.terms.parameters == Some(TAG) && row.terms.policyVersion == POLICY_VERSION
    requires db.auditIds == {Name(0)} + {Name(1)} && db.executions == map[] && db.executionOf == map[]
    ensures BusyDb(rules, db, expiry, 2)
  {
    hide Inv, EventsOf;
    assert |Name(0)| == 0 && |Name(1)| == 1;
  }

  lemma ApprovedFacts(rules: Rules, db: Db, row: ApprovalRow, t: DateTime, p: AuditPayload)
    requires p.approvalId == "a" && p.id == Name(1)
    ensures var db' := Appended(rules, WithRow(db, "a", DecidedRow(row, Approved, t, USER, None)), p);
            && "a" in db'.approvals && db'.approvals["a"].status == Approved
            && db'.approvals["a"].expiresAt == row.expiresAt
            && db'.approvals["a"].terms == row.terms && db'.auditIds == db.auditIds + {Name(1)}
            && db'.executions == db.executions && db'.executionOf == db.executionOf
            && db'.approvals["a"].decidedAt == Some(t) && db'.approvals["a"].approver == Some(USER)
            && db'.approvals["a"].reason == None
  {
  }

  lemma {:induction false} BusyReached(config: Config, t: DateTime, expiry: DateTime, n: nat)
    requires config.validParameters(TAG) && Before(t, expiry) && 2 <= n <= MAX_SEQUENCE + 1
    ensures var s := Reached(config, Busy(t, expiry, n));
            BusyDb(config.rules, s.db, expiry, n) && s.threads == map[] && s.calls == []
    decreases n
  {
    hide Step, BusyDb;
    if n == 2 {
      AfterApprove(config, t, expiry);
    } else {
      BusyReached(config, t, expiry, n - 1);
      assert Busy(t, expiry, n)[..n - 1] == Busy(t, expiry, n - 1);
      RefuseStep(config, Reached(config, Busy(t, expiry, n - 1)), t, expiry, n - 1);
    }
  }

  lemma RefuseStep(config: Config, s: System, t: DateTime, expiry: DateTime, n: nat)
    requires BusyDb(config.rules, s.db, expiry, n) && n <= MAX_SEQUENCE
    ensures var s' := Step(config, s, Approve("a", t, USER, Name(n)));
            BusyDb(config.rules, s'.db, expiry, n + 1) && s'.threads == s.threads && s'.calls == s.calls
  {
    hide Inv;
    var row := s.db.approvals["a"];
    assert Inv(config.rules, s.db) && row.status != Pending && Name(n) !in s.db.auditIds && |EventsOf(s.db, "a")| == n;
    hide *;
    ApprovalAccepted(config.rules, s.db, "a");
    RefuseKeepsInv(config.rules, s.db, "a", t, USER, Name(n));
    RefuseIs(config, s, t, n, Appended(config.rules, s.db, RefuseEventIs(row, t, n)));
    RefusedIsBusy(config.rules, s.db, expiry, n, RefuseEventIs(row, t, n));
  }

  function RefuseEventIs(row: ApprovalRow, t: DateTime, n: nat): (p: AuditPayload)
    ensures p == RefuseEvent("a", row, t, USER, Name(n))
    ensures p.approvalId == "a" && p.id == Name(n)
  {
    RefuseEvent("a", row, t, USER, Name(n))
  }

  lemma RefuseIs(config: Config, s: System, t: DateTime, n: nat, db': Db)
    requires "a" in s.db.approvals && s.db.approvals["a"].status != Pending
    requires ApprovalSoundness(config.rules, s.db.approvals["a"], EventsOf(s.db, "a")) == Sound
    requires Append(config.rules, s.db, RefuseEvent("a", s.db.approvals["a"], t, USER, Name(n)),
                    s.db.approvals["a"].head) == Some(db')
    ensures Step(config, s, Approve("a", t, USER, Name(n))) == s.(db := db')
  {
    hide ApprovalSoundness, Append, ApprovalEvent;
  }

  lemma RefusedIsBusy(rules: Rules, db: Db, expiry: DateTime, n: nat, p: AuditPayload)
    requires BusyDb(rules, db, expiry, n) && p.approvalId == "a" && p.id == Name(n)
    requires Inv(rules, Appended(rules, db, p))
    ensures BusyDb(rules, Appended(rules, db, p), expiry, n + 1)
  {
    hide Inv, NextEvent, LinkAt;
  }

  /** The run that ends with an answered thread on a chain past the bound. */
  function Stuck(t: DateTime, expiry: DateTime): seq<Move> {
    Busy(t, expiry, MAX_SEQUENCE) +
    [StartExecution(0, "a", t, USER, "x", Name(MAX_SEQUENCE), Name(MAX_SEQUENCE + 1)), CallProvider(0, Returned)]
  }

  lemma ClaimStep(config: Config, s: System, t: DateTime, expiry: DateTime, n: nat)
    requires BusyDb(config.rules, s.db, expiry, n) && n <= MAX_SEQUENCE && Before(t, expiry) && s.threads == map[]
    ensures var s' := Step(config, s, StartExecution(0, "a", t, USER, "x", Name(n), Name(n + 1)));
            PcOf(s', 0) == Claiming("x", "a", TAG) && |EventsOf(s'.db, "a")| == n + 2
  {
    hide Inv, Inspect, ApprovalSoundness, RecordClaim, AfterClaim, ExecutionsIndexed;
    ApprovalAccepted(config.rules, s.db, "a");
    assert ClaimRefusal(config.rules, s.db.approvals["a"], EventsOf(s.db, "a"), t) == None;
    hide ClaimRefusal;
    ClaimEffect(config.rules, s.db, "a", TAG, t, USER, "x", Name(n), Name(n + 1));
    ClaimAddsTwo(config.rules, s.db, "a", t, USER, "x", Name(n), Name(n + 1));
    hide EventsOf;
  }

  /**
   The bound can be reached, and then an execution whose one call succeeded stays CLAIMED
   whatever happens next, although no thread ever crashed.
   */
  lemma SuccessCanStayClaimed(config: Config, t: DateTime, expiry: DateTime, more: seq<Move>)
    requires config.validParameters(TAG) && Before(t, expiry)
    ensures CalledOnce(Reached(config, Stuck(t, expiry)), "x", Returned)
    ensures var db := Reached(config, Stuck(t, expiry) + more).db;
            "x" in db.executions && db.executions["x"].body.status == Claimed
  {
    var busy := Reached(config, Busy(t, expiry, MAX_SEQUENCE));
    hide *;
    BusyReached(config, t, expiry, MAX_SEQUENCE);
    ClaimStep(config, busy, t, expiry, MAX_SEQUENCE);
    StuckSteps(config, t, expiry);
    var s := Reached(config, Stuck(t, expiry));
    AnsweredMeansCalled(config, Stuck(t, expiry), 0);
    ReachedTables(config, Stuck(t, expiry));
    ReachedInv(config, Stuck(t, expiry));
    CallsIndexed(config, s);
    AnsweredOwns(s, 0);
    ExecutionInView(config.rules, s.db, "x");
    FrozenPastBound(config, Stuck(t, expiry), more, "a");
    HistoryIsFinal(config, Stuck(t, expiry), more, "a");
    ClaimedIsKept(s.db, Reached(config, Stuck(t, expiry) + more).db, s.db.executions["x"]);
    ReachedTables(config, Stuck(t, expiry) + more);
    ViewExecutionFound(config.rules, Reached(config, Stuck(t, expiry) + more).db, "a", s.db.executions["x"]);
  }

  lemma ClaimedIsKept(db: Db, db': Db, x: ExecutionRow)
    requires "a" in db.approvals && "a" in db'.approvals && ViewOf(db', "a") == ViewOf(db, "a")
    requires ViewOf(db, "a").execution == Some(x)
    ensures ViewOf(db', "a").execution == Some(x)
  {
  }

  lemma StuckSteps(config: Config, t: DateTime, expiry: DateTime)
    requires var s := Step(config, Reached(config, Busy(t, expiry, MAX_SEQUENCE)),
                           StartExecution(0, "a", t, USER, "x", Name(MAX_SEQUENCE), Name(MAX_SEQUENCE + 1)));
             PcOf(s, 0) == Claiming("x", "a", TAG) && |EventsOf(s.db, "a")| == MAX_SEQUENCE + 2
    ensures var s := Reached(config, Stuck(t, expiry));
            PcOf(s, 0) == Answered("x", "a", Returned) && |EventsOf(s.db, "a")| == MAX_SEQUENCE + 2
  {
    var first := Busy(t, expiry, MAX_SEQUENCE);
    var claim := StartExecution(0, "a", t, USER, "x", Name(MAX_SEQUENCE), Name(MAX_SEQUENCE + 1));
    var s := Step(config, Reached(config, first), claim);
    hide Busy, Name, EventsOf, Step;
    assert Stuck(t, expiry)[..|first| + 1] == first + [claim];
    assert (first + [claim])[..|first|] == first;
    assert Reached(config, first + [claim]) == s;
    CallStep(config, s);
  }

  lemma CallStep(config: Config, s: System)
    requires PcOf(s, 0) == Claiming("x", "a", TAG)
    ensures var s' := Step(config, s, CallProvider(0, Returned));
            PcOf(s', 0) == Answered("x", "a", Returned) && s'.db == s.db
  {
  }
}
