/** The deterministic policy, and the service step that turns its answer into a draft approval. */
module Policy {
  import opened Prelude
  import opened Timestamps
  import opened Records
  import opened Transactions
  import opened Preservation
  import Json

  datatype Category = CustomerCategory | CommerceCategory | SupportCategory | InternalCategory | SystemCategory

  datatype Priority = LowPriority | MediumPriority | HighPriority | CriticalPriority

  datatype Urgency = LowUrgency | MediumUrgency | Urgent

  datatype Intent = KnownIntent(name: string) | UnclearIntent

  datatype NextStep =
    | StepNone | StepReview | StepContactHuman | StepRequestInformation | StepEscalate | StepSchedule | StepNurture

  datatype Event = Event(eventId: string, eventType: EventType, source: EventSource, payload: Json.Value)

  datatype Intelligence = Intelligence(
    eventId: string, category: Category, priority: Priority, urgency: Urgency, intent: Intent,
    confidence: real, reasons: seq<string>, nextStep: NextStep)

  datatype Evaluation = Evaluation(decision: Decision, action: Action, risk: Risk, evidence: seq<Evidence>)

  function Classify(t: EventType): Category {
    match t
    case CustomerRequest => CustomerCategory
    case CustomerMessage => CustomerCategory
    case CustomerCreated => CustomerCategory
    case CustomerUpdated => CustomerCategory
    case OrderCreated => CommerceCategory
    case OrderUpdated => CommerceCategory
    case PaymentReceived => CommerceCategory
    case SupportRequest => SupportCategory
    case InternalTask => InternalCategory
    case SystemAlert => SystemCategory
    case ContactTagRequest => InternalCategory
  }

  function ActionFor(step: NextStep): Action {
    match step
    case StepNone => NoAction
    case StepReview => Review
    case StepContactHuman => ContactHuman
    case StepRequestInformation => RequestInformation
    case StepEscalate => Escalate
    case StepSchedule => ScheduleConsultation
    case StepNurture => Nurture
  }

  function PriorityText(p: Priority): string {
    match p
    case LowPriority => "LOW"
    case MediumPriority => "MEDIUM"
    case HighPriority => "HIGH"
    case CriticalPriority => "CRITICAL"
  }

  function Denied(code: EvidenceCode, source: EvidenceSource): Evaluation {
    Evaluation(Deny, NoAction, HighRisk, [Evidence(code, source, NoValue)])
  }

  function RiskForReview(i: Intelligence): Risk {
    if i.priority == CriticalPriority then CriticalRisk
    else if i.priority == HighPriority || i.urgency == Urgent || i.nextStep == StepEscalate then HighRisk
    else MediumRisk
  }

  function When(condition: bool, e: Evidence): seq<Evidence> {
    if condition then [e] else []
  }

  function ReviewEvidence(threshold: real, i: Intelligence, action: Action): seq<Evidence> {
    When(i.confidence < threshold, Evidence(LowConfidence, FromAnalysis, NumberValue(i.confidence))) +
    When(i.priority in {HighPriority, CriticalPriority},
         Evidence(ElevatedPriority, FromAnalysis, TextValue(PriorityText(i.priority)))) +
    When(i.urgency == Urgent, Evidence(HighUrgency, FromAnalysis, TextValue("HIGH"))) +
    When(i.intent.UnclearIntent?, Evidence(UnknownIntent, FromAnalysis, TextValue("UNKNOWN"))) +
    When(action in {ContactHuman, RequestInformation, Escalate, ScheduleConsultation, Nurture},
         Evidence(if action == Escalate then EscalationRecommended else RecommendationRequiresReview, FromAnalysis,
                  NoValue))
  }

  function Evaluate(threshold: real, event: Event, i: Intelligence, policyVersion: string): Evaluation {
    if policyVersion != POLICY_VERSION then Denied(InvalidPolicyVersion, FromPolicy)
    else if event.eventId == "" || event.eventId != i.eventId then Denied(IdentityMismatch, FromEvent)
    else if Classify(event.eventType) != i.category then Denied(CategoryMismatch, FromEvent)
    else if i.reasons == [] then Denied(MissingEvidence, FromAnalysis)
    else if event.eventType == ContactTagRequest then
      Evaluation(RequireHumanApproval, AddContactTag, MediumRisk,
                 [Evidence(MutationRequiresApproval, FromEvent, NoValue)])
    else
      var action := ActionFor(i.nextStep);
      if action == NoAction && (i.priority in {HighPriority, CriticalPriority} || i.urgency == Urgent) then
        Evaluation(Deny, NoAction, if i.priority == CriticalPriority then CriticalRisk else HighRisk,
                   [Evidence(ConflictingSignals, FromPolicy, NoValue)])
      else
        var evidence := ReviewEvidence(threshold, i, action);
        if evidence != [] then Evaluation(RequireHumanApproval, action, RiskForReview(i), evidence)
        else
          Evaluation(Allow, action, LowRisk,
                     [Evidence(if action == NoAction then NoActionRecommended else PolicyConditionsSatisfied,
                               FromPolicy, NoValue)])
  }

  /**
   The external mutation is reachable only through a contact-tag event whose analysis matches
   it, and for such an event the answer is always a human approval.
   */
  lemma TagOnlyOnRequest(threshold: real, event: Event, i: Intelligence)
    ensures var e := Evaluate(threshold, event, i, POLICY_VERSION);
            && (e.action == AddContactTag <==>
                event.eventType == ContactTagRequest && event.eventId != "" && event.eventId == i.eventId
                && i.category == InternalCategory && i.reasons != [])
            && (e.action == AddContactTag ==> e.decision == RequireHumanApproval)
  {
  }

  /** The category each kind of event belongs to. */
  predicate Belongs(t: EventType, c: Category) {
    match c
    case CustomerCategory => t in {CustomerRequest, CustomerMessage, CustomerCreated, CustomerUpdated}
    case CommerceCategory => t in {OrderCreated, OrderUpdated, PaymentReceived}
    case SupportCategory => t == SupportRequest
    case InternalCategory => t in {InternalTask, ContactTagRequest}
    case SystemCategory => t == SystemAlert
  }

  /** The analysis is about this event and gives reasons. */
  predicate Concerns(i: Intelligence, event: Event) {
    event.eventId != "" && i.eventId == event.eventId && Belongs(event.eventType, i.category) && i.reasons != []
  }

  predicate Pressing(i: Intelligence) {
    i.priority in {HighPriority, CriticalPriority} || i.urgency == Urgent
  }

  /**
   For every threshold, event and analysis: when policy denies, when it allows and when it asks
   for a human.  An analysis that is not about the event, or that sees nothing to do about a
   pressing matter, is denied; a tag request always needs a human; anything else is allowed only
   if it is not pressing, confident, understood, and recommends no contact with a customer.
   */
  lemma DecisionExactly(threshold: real, event: Event, i: Intelligence)
    ensures var d := Evaluate(threshold, event, i, "1.0").decision;
            var tag := event.eventType == ContactTagRequest;
            && (d == Deny <==> !Concerns(i, event) || (!tag && i.nextStep == StepNone && Pressing(i)))
            && (d == Allow <==>
                  && Concerns(i, event) && !tag && !Pressing(i) && i.confidence >= threshold
                  && !i.intent.UnclearIntent? && i.nextStep in {StepNone, StepReview})
  {
  }

  /** What goes with the decision: the recommended action, and how grave the matter is. */
  lemma ActionAndRisk(threshold: real, event: Event, i: Intelligence)
    ensures var e := Evaluate(threshold, event, i, "1.0");
            var tag := event.eventType == ContactTagRequest;
            && (e.decision == Deny ==> e.action == NoAction)
            && (e.decision != Deny && !tag ==>
                  && (e.action == NoAction <==> i.nextStep == StepNone)
                  && (e.action == Review <==> i.nextStep == StepReview)
                  && (e.action == ContactHuman <==> i.nextStep == StepContactHuman)
                  && (e.action == RequestInformation <==> i.nextStep == StepRequestInformation)
                  && (e.action == Escalate <==> i.nextStep == StepEscalate)
                  && (e.action == ScheduleConsultation <==> i.nextStep == StepSchedule)
                  && (e.action == Nurture <==> i.nextStep == StepNurture))
            && (e.risk == LowRisk <==> e.decision == Allow)
            && (e.risk == CriticalRisk <==> Concerns(i, event) && !tag && i.priority == CriticalPriority)
            && (e.risk == MediumRisk <==>
                  && e.decision == RequireHumanApproval
                  && (tag || (!Pressing(i) && i.nextStep != StepEscalate)))
  {
  }

  lemma InEvidence(threshold: real, i: Intelligence, action: Action, x: Evidence)
    ensures x in ReviewEvidence(threshold, i, action) <==>
            || (x == Evidence(LowConfidence, FromAnalysis, NumberValue(i.confidence)) && i.confidence < threshold)
            || (x == Evidence(ElevatedPriority, FromAnalysis, TextValue(PriorityText(i.priority)))
                && i.priority in {HighPriority, CriticalPriority})
            || (x == Evidence(HighUrgency, FromAnalysis, TextValue("HIGH")) && i.urgency == Urgent)
            || (x == Evidence(UnknownIntent, FromAnalysis, TextValue("UNKNOWN")) && i.intent.UnclearIntent?)
            || (x == Evidence(if action == Escalate then EscalationRecommended else RecommendationRequiresReview,
                              FromAnalysis, NoValue)
                && action in {ContactHuman, RequestInformation, Escalate, ScheduleConsultation, Nurture})
  {
    hide PriorityText;
  }

  /** A human is asked with every reason there is, and with no other. */
  lemma ReviewEvidenceExactly(threshold: real, event: Event, i: Intelligence, x: Evidence)
    requires Evaluate(threshold, event, i, "1.0").decision == RequireHumanApproval
    requires event.eventType != ContactTagRequest
    ensures x in Evaluate(threshold, event, i, "1.0").evidence <==>
            || (x == Evidence(LowConfidence, FromAnalysis, NumberValue(i.confidence)) && i.confidence < threshold)
            || (x == Evidence(ElevatedPriority, FromAnalysis, TextValue("HIGH")) && i.priority == HighPriority)
            || (x == Evidence(ElevatedPriority, FromAnalysis, TextValue("CRITICAL")) && i.priority == CriticalPriority)
            || (x == Evidence(HighUrgency, FromAnalysis, TextValue("HIGH")) && i.urgency == Urgent)
            || (x == Evidence(UnknownIntent, FromAnalysis, TextValue("UNKNOWN")) && i.intent.UnclearIntent?)
            || (x == Evidence(EscalationRecommended, FromAnalysis, NoValue) && i.nextStep == StepEscalate)
            || (x == Evidence(RecommendationRequiresReview, FromAnalysis, NoValue)
                && i.nextStep in {StepContactHuman, StepRequestInformation, StepSchedule, StepNurture})
  {
    hide ReviewEvidence;
    InEvidence(threshold, i, ActionFor(i.nextStep), x);
  }

  // ---------------------------------------------------------------- the approval service

  /** Server configuration: hashing, the threshold, the parameter patterns and the two input digests. */
  datatype Config = Config(
    rules: Rules,
    threshold: real,
    validParameters: Parameters -> bool,
    eventDigest: Event -> Digest,
    intelligenceDigest: Intelligence -> Digest)

  function Lookup(fields: seq<Json.Field>, key: string): Option<Json.Value> {
    if fields == [] then None
    else if fields[0].0 == key then Some(fields[0].1)
    else Lookup(fields[1..], key)
  }

  /** The parameter model: exactly the two string fields, within their patterns. */
  function ParseParameters(config: Config, payload: Json.Value): Option<Parameters> {
    if !payload.Obj? || |payload.fields| != 2 then None
    else match (Lookup(payload.fields, "contact_id"), Lookup(payload.fields, "tag")) {
      case (Some(Str(contact)), Some(Str(tag))) =>
        if config.validParameters(Parameters(contact, tag)) then Some(Parameters(contact, tag)) else None
      case _ => None
    }
  }

  /** Policy re-evaluated on the event, as an approval will repeat it; `None` when `create` raises. */
  function TermsFor(config: Config, event: Event, i: Intelligence): Option<Terms> {
    var e := Evaluate(config.threshold, event, i, POLICY_VERSION);
    var parameters := if e.action == AddContactTag then ParseParameters(config, event.payload) else None;
    if e.decision != RequireHumanApproval || (e.action == AddContactTag && parameters.None?) then None
    else Some(Terms(event.eventId, event.eventType, event.source, POLICY_VERSION, e.decision, e.action, e.risk,
                    i.confidence, e.evidence, parameters))
  }

  function DraftFor(config: Config, event: Event, i: Intelligence, approvalId: string, now: DateTime,
                    expiresAt: DateTime): Option<Draft> {
    match TermsFor(config, event, i)
    case None => None
    case Some(terms) =>
      var provenance := Provenance(terms, config.eventDigest(event), config.intelligenceDigest(i));
      Some(Draft(approvalId, terms, Pending, now, expiresAt, provenance, config.rules.provenance(provenance)))
  }

  /** The payload of a request for this contact and tag: exactly the two string fields, in either order. */
  predicate Requests(payload: Json.Value, p: Parameters) {
    || payload == Json.Obj([("contact_id", Json.Str(p.contactId)), ("tag", Json.Str(p.tag))])
    || payload == Json.Obj([("tag", Json.Str(p.tag)), ("contact_id", Json.Str(p.contactId))])
  }

  lemma LookupTwo(f: seq<Json.Field>, key: string)
    requires |f| == 2
    ensures Lookup(f, key) == if f[0].0 == key then Some(f[0].1) else if f[1].0 == key then Some(f[1].1) else None
  {
    assert Lookup(f[1..][1..], key) == None;
  }

  /** The parameter model reads the contact and the tag of a request unchanged, and reads nothing else. */
  lemma ParsesExactly(config: Config, payload: Json.Value, p: Parameters)
    ensures ParseParameters(config, payload) == Some(p) <==> Requests(payload, p) && config.validParameters(p)
  {
    if payload.Obj? && |payload.fields| == 2 {
      var f := payload.fields;
      LookupTwo(f, "contact_id");
      LookupTwo(f, "tag");
      assert f == [(f[0].0, f[0].1), (f[1].0, f[1].1)];
      hide Lookup;
    }
  }

  /** The terms of an approval, each from the event, the analysis or the policy's answer. */
  ghost predicate Describes(config: Config, event: Event, i: Intelligence, t: Terms) {
    var e := Evaluate(config.threshold, event, i, "1.0");
    && t.eventId == event.eventId && t.eventType == event.eventType && t.source == event.source
    && t.policyVersion == "1.0" && t.confidence == i.confidence
    && t.decision == e.decision && t.decision == RequireHumanApproval
    && t.action == e.action && t.risk == e.risk && t.evidence == e.evidence
    && (t.action == AddContactTag ==>
          && t.parameters.Some? && Requests(event.payload, t.parameters.value)
          && config.validParameters(t.parameters.value))
    && (t.action != AddContactTag ==> t.parameters.None?)
  }

  /** The provenance document: those terms, the digest of the event, and the digest of the analysis. */
  ghost predicate Documents(config: Config, event: Event, i: Intelligence, p: Provenance) {
    && Describes(config, event, i, p.terms)
    && p.eventDigest == config.eventDigest(event)
    && p.intelligenceDigest == config.intelligenceDigest(i)
  }

  lemma TermsDescribe(config: Config, event: Event, i: Intelligence)
    ensures TermsFor(config, event, i).Some? ==> Describes(config, event, i, TermsFor(config, event, i).value)
    ensures TermsFor(config, event, i).Some? <==>
            && Evaluate(config.threshold, event, i, "1.0").decision == RequireHumanApproval
            && (event.eventType == ContactTagRequest ==>
                   exists p :: Requests(event.payload, p) && config.validParameters(p))
  {
    TagOnlyOnRequest(config.threshold, event, i);
    DecisionExactly(config.threshold, event, i);
    hide Evaluate, ParseParameters, Requests;
    forall p ensures ParseParameters(config, event.payload) == Some(p) <==>
                     Requests(event.payload, p) && config.validParameters(p)
    {
      ParsesExactly(config, event.payload, p);
    }
  }

  /**
   A draft is built exactly for what needs a human, a tag request only with a valid pair; it
   repeats its inputs field by field, and is one the repository's invariant can start from.
   */
  lemma DraftIsSound(config: Config, event: Event, i: Intelligence, approvalId: string, now: DateTime,
                     expiresAt: DateTime)
    requires Before(now, expiresAt)
    ensures var d := DraftFor(config, event, i, approvalId, now, expiresAt);
            && (d.Some? <==>
                  && Evaluate(config.threshold, event, i, "1.0").decision == RequireHumanApproval
                  && (event.eventType == ContactTagRequest ==>
                        exists p :: Requests(event.payload, p) && config.validParameters(p)))
            && (d.Some? ==>
                  && DraftSound(config.rules, d.value)
                  && Documents(config, event, i, d.value.provenance)
                  && d.value.terms == d.value.provenance.terms
                  && d.value.approvalId == approvalId && d.value.status == Pending
                  && d.value.createdAt == now && d.value.expiresAt == expiresAt)
  {
    TermsDescribe(config, event, i);
    hide TermsFor, Evaluate, Requests;
  }
}
