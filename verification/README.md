# Verification of the approval and execution core

This project models, in Dafny, the part of the business automation service that must not go
wrong: human approvals, the single external mutation they authorise, the hash-chained audit log
that records both, the migration that archives old databases, and the small algorithms these
lean on. Everything below is proved for all inputs, all runs and all reachable states.

## What is modelled

- **Protocol** (`protocol.dfy`, `guarantees.dfy`, `lockout.dfy`, `service.dfy`). Any number of
  threads run `execute`, which is three separate steps - claim, provider call, complete - while
  other threads create, read, approve, reject and reconcile. One move is one atomic transaction
  or one provider answer. A move carries the clock value, the identifiers drawn and the
  provider's behaviour, so clocks may go backwards and identifiers may repeat (keys then refuse
  them). A crash, or any exception outside the repository, drops a thread between two steps.
- **Tables** (`records.dfy`, `texts.dfy`, `transactions.dfy`, `repository.dfy`). Each repository method is a
  function on the committed tables, and also a method of a class that changes those tables
  statement by statement and rolls back; the method is proved to be the function.
- **Invariant and history** (`invariants.dfy`, `preservation.dfy`, `progress.dfy`, `frames.dfy`,
  `admissibility.dfy`, `outcomes.dfy`, `ledger.dfy`). What every committed state satisfies, which
  calls keep it, what later states keep, what each call may touch, what it answers and writes
  column by column, and the audit log as an account from which the rows can be recomputed.
- **Hashing** (`json.dfy`, `timestamps.dfy`, `audit_trail.dfy`, `encoding.dfy`,
  `documents.dfy`, `tampering.dfy`, `stored_trail.dfy`, `cells.dfy`). Canonical JSON
  (RFC 8259 sections 4 to 7) with a reader for it, UTC timestamps as text (RFC 3339 section
  5.6), the documents that are hashed, and the verification loop. The hash is a parameter and is
  never assumed to be injective: results say "equal, or these two different texts have the same
  hash", naming the texts.
- **Readers without a transaction** (`readers.dfy`), **the security log** (`security_audit.dfy`),
  **the migration** (`catalog.dfy`, `migration.dfy`, `migration_runs.dfy`,
  `migration_integrity.dfy`, `archive_verifier.dfy`), **the rate limiter** (`rate_limiter.dfy`), **the payload validator**
  (`payload_validator.dfy`, `payload_size.dfy`) and **the policy step** (`policy.dfy`).

## What does not hold, and exactly when it does

- An approval can be locked out. The audit model allows sequence numbers up to 1,000,000 but
  appends do not look; a claim appends two events. `Guarantees.NeverLockedOut` and
  `Guarantees.AnswerIsRecorded` give the exact bounds, `Guarantees.ClaimThenComplete` the room a
  claim needs for a completion directly after it, and
  `Lockout.SuccessCanStayClaimed` is a crash-free run in which a successful call can never be
  recorded.
- The repository checks only the length of an actor and of a reason, and reads rows back with
  stricter rules. `Guarantees.DecisionReadsBack` says exactly which decisions can be read back;
  `Guarantees.BlankRejectionFreezes` is a reason that freezes its approval. What the services
  pass on always satisfies the rules (`Texts.RequestedReasonReadable`). The same is exact for
  claims and assessments (`Admissibility.ClaimReadsBack`, `Admissibility.ReconcileReadsBack`) and
  for the tables each operation leaves (the other `Admissibility` rows).
- The migration's check of the security log truncates numbers and so accepts logs the repository
  refuses (`SecurityAudit.VerifiersCompared`, `SecurityAudit.TruncatedNumberDisagrees`).
- The chain does not notice every alteration of a stored row: it notices those that change the
  event a row loads to, and no others (`StoredTrail.UnnoticedMeansSameEvents`). Two spellings of
  one event are a respelled time and a fractional number
  (`StoredTrail.RespelledTimestampUnnoticed`, `StoredTrail.FractionalNumberUnnoticed`); a row is
  the one that was written exactly when it uses neither (`StoredTrail.OnlyWrittenRow`).
- An approval row's times and decision have no digest and are checked for their shape alone
  (`Tampering.DecisionIsCheckedForShape`); its terms, executions and assessments have one
  (`Tampering.AlteredApprovalNeedsClash`, `Tampering.AlteredExecutionNeedsClash`,
  `Tampering.AlteredAssessmentNeedsClash`).
- Twice the limit per minute needs calls to take the lock in clock order, unless the limit is at
  most one (`RateLimiter.TwiceTheLimitExactly`); `RateLimiter.LaggingRateBound` is the sharp
  bound for every lag.
- A migration can archive content its integrity rules refuse, if a writer changes it and changes
  it back around the check (`MigrationIntegrity.UnverifiedContentCanBeArchived`). What is archived
  passes in all runs exactly when no source table can be written between the check and the
  exclusive transaction (`MigrationIntegrity.PassesExactlyWithoutSourceWrites`).

## Where code and documentation disagree

The code is followed. `README.md` and `docs/architecture.md` of the repository describe
`RECONCILED_*` statuses, an `EXECUTION_REJECTED` event and no migration of old databases. In the
code UNKNOWN is permanent and an assessment row is appended to it, refused claims write no event,
there is one tag rather than a list, and version 8 and unversioned databases are archived. The
installed tables are those of the migration module, not the two older schema strings in the
repositories.

## Model

| member | source | states |
|---|---|---|
| Protocol.AtMostOneCall | src/ai_business_automation/services/executions.py:42-75 | In every run of any number of threads, with crashes anywhere and arbitrary clocks and identifiers, no two provider calls are for the same approval or the same execution. |
| Protocol.CrashAfterClaimIsFinal | src/ai_business_automation/services/executions.py:42-50 | A thread that dies between claim and call leaves its row CLAIMED in every continuation, and no call for that approval is ever made. |
| Guarantees.CrashAfterAnswerIsFinal | src/ai_business_automation/services/executions.py:49-75 | A thread that dies between the provider's answer and its recording leaves its row CLAIMED in every continuation, with exactly one call behind it, ended as it ended. |
| Guarantees.CallIsBound | src/ai_business_automation/services/executions.py:43-50 | At the moment a call may be made: the event behind the approval is a tag request whose payload holds exactly the contact and the tag to be sent, unchanged and within their patterns; policy asked for a human on this action for it; the approval and then the claim happened strictly before the expiry; and the audit trail holds both events in that order. |
| Guarantees.LoggedCallsAreBound | src/ai_business_automation/services/executions.py:50-50 | Every call ever made stays so bound, to the payload of its event, in every later state. |
| Guarantees.ApprovalsRepeatTheirOrigin | src/ai_business_automation/services/approvals.py:44-82 | In every reachable state every approval was created by a move of the run: its terms are that move's event, confidence and policy answer field by field, its provenance document holds the digest of the event as the event's and that of the analysis as the analysis's, its times are the move's, and its trail begins with that creation by that actor. |
| Guarantees.StatusTellsOutcome | src/ai_business_automation/services/executions.py:51-73 | A finished execution had exactly one call, with the row's own parameters: it is SUCCEEDED if and only if that call was answered, FAILED if and only if it ended in an error the provider calls definitive, UNKNOWN for any other end, and its failure category is the one of the provider's category. |
| Guarantees.AnsweredMeansCalled | src/ai_business_automation/services/executions.py:49-73 | Between answer and recording exactly one call has been made for the execution, with that answer, and the row is CLAIMED. |
| Guarantees.AnswerIsRecorded | src/ai_business_automation/repositories/executions.py:259-314 | With a fresh event identifier an answer is recorded, with the status and category that tell it, if and only if the approval's chain holds at most 1,000,000 events; otherwise `complete` raises an integrity error and changes nothing. |
| Service.ExecutionService.Execute | src/ai_business_automation/services/executions.py:42-75 | An undisturbed call of the service is the protocol's three moves one after the other. A success is stored as returned: this execution of this approval, claimed at the first clock value and completed at the second, SUCCEEDED only for an answer, FAILED only for a definitive error, UNKNOWN otherwise, after one call with its parameters; if no call was made nothing changed. |
| Service.ExecutionService.RecordOutcome | src/ai_business_automation/services/executions.py:51-73 | Each way the provider call can end is completed with the status and failure category that tell it, at the given time. |
| Service.ApprovalService.Create | src/ai_business_automation/services/approvals.py:44-82 | Creating an approval is the protocol's creation move; what is stored is PENDING and repeats event, analysis, policy answer, digests and times field by field. |
| Service.ApprovalService.Approve | src/ai_business_automation/services/approvals.py:89-97 | Approving is the protocol's approval move; the answer is the stored row: APPROVED, by this actor, at this time, without a reason. |
| Service.ApprovalService.Reject | src/ai_business_automation/services/approvals.py:99-109 | Rejecting is the protocol's rejection move: it reaches the repository exactly when the request's validator accepts the reason; the answer is the stored row: REJECTED, by this actor, at this time, for the stripped reason. |
| Guarantees.AuditLogIsComplete | src/ai_business_automation/repositories/approvals.py:278-316 | In every reachable state, replaying an approval's events yields exactly its status, decision time and approver, its execution, and its assessment's digest; refusals aside, the event kinds are the one story that account allows; no PENDING execution is ever committed. |
| Guarantees.TrailIsWellOrdered | src/ai_business_automation/repositories/executions.py:216-243 | In every reachable trail AUTHORIZED is followed at once by CLAIMED of the same execution; a refused transition comes after a decision and never between those two. |
| Ledger.TrailTellsOneStory | src/ai_business_automation/repositories/executions.py:361-430 | Every trail that can be replayed is, refusals aside: created, at most one decision, after approval at most one authorised-claimed pair and one outcome, after UNKNOWN at most one reconciliation. |
| Ledger.AuthorizedThenClaimed | src/ai_business_automation/repositories/executions.py:216-241 | In a trail that can be replayed the event after AUTHORIZED is CLAIMED, for the same execution and actor. |
| Ledger.RefusalsFollowDecision | src/ai_business_automation/repositories/approvals.py:298-301 | A refused transition in a trail that can be replayed has a decision before it. |
| Guarantees.ExpiryIsExact | src/ai_business_automation/repositories/approvals.py:246-251 | In every reachable state, whatever clocks did: pending means undecided, APPROVED and REJECTED were decided strictly before the expiry, EXPIRED at or after it. |
| Guarantees.HistoryIsFinal | src/ai_business_automation/repositories/approvals.py:280-300 | Later states keep every approval's terms, every terminal decision with all its fields, every finished execution, every assessment, and every event in place. |
| Guarantees.NeverLockedOut | src/ai_business_automation/repositories/approvals.py:381-443 | In every reachable state the chain check, the approval check and the execution check accept if and only if the chain has at most 1,000,000 events, assessments are always accepted, and no chain exceeds 1,000,002 events. |
| Guarantees.FrozenPastBound | src/ai_business_automation/models/approvals.py:224-224 | An approval whose chain is past the bound never changes again in any respect. |
| Guarantees.ClaimThenComplete | src/ai_business_automation/repositories/executions.py:191-243 | In every reachable state: a completion directly after a successful claim succeeds if and only if the chain had room for two more events before the claim; the claim itself does not look. (Refused transitions recorded in between use up room too; AnswerIsRecorded is exact for those.) |
| Lockout.SuccessCanStayClaimed | src/ai_business_automation/repositories/executions.py:259-329 | A concrete crash-free run of refused rejections fills the chain to 1,000,000 events; a claim and a successful call then leave the row CLAIMED in every continuation. |
| Guarantees.DecisionReadsBack | src/ai_business_automation/repositories/approvals.py:302-318 | In every reachable state, for a pending, unexpired approval with room in its chain, any actor and any reason: texts that fail SQLite's length checks change nothing; every other decision is committed, and the row can be read back, by this call and every later `get`, if and only if the actor is a valid identifier and a rejection has a reason the approval model accepts. |
| Guarantees.BlankRejectionFreezes | src/ai_business_automation/models/approvals.py:241-249 | A reason is not enough: a rejection with a reason of blanks is committed by a valid actor, and from then on the approval can be neither read, decided nor claimed. |
| Guarantees.UnsoundIsFrozen | src/ai_business_automation/repositories/approvals.py:381-403 | An approval that does not verify is frozen: reading, deciding and claiming it change no table. |
| Texts.RequestedReasonReadable | src/ai_business_automation/models/approvals.py:76-85 | Every reason the rejection request lets through can be stored, and is read back as it was passed on. |
| Texts.ReadableStorable | src/ai_business_automation/models/approvals.py:241-249 | A reason the approval model accepts also passes SQLite's length check. |
| Texts.StripExactly | src/ai_business_automation/models/approvals.py:241-249 | Stripping takes all blanks from both ends and nothing else. |
| Texts.ReadableExactly | src/ai_business_automation/models/approvals.py:76-85 | A reason is accepted if and only if it has 1 to 500 characters, none a control character, not all blank, and no prohibited content; what is passed on is the stripped text. |
| Protocol.ReachedInv | src/ai_business_automation/services/executions.py:42-75 | Every reachable state satisfies the whole invariant: coherent tables, owned CLAIMED rows, recorded calls, true outcomes, approvals bound to their events. |
| Protocol.RunKeepsTables | src/ai_business_automation/repositories/executions.py:128-446 | Along any run the tables stay coherent and each state only extends the earlier ones. |
| Protocol.OrphanRun | src/ai_business_automation/repositories/executions.py:161-168 | A CLAIMED row nobody owns is left alone by every continuation: unchanged, never adopted, never called for. |
| Preservation.CreateKeepsInv | src/ai_business_automation/repositories/approvals.py:169-238 | For every draft the service builds: `create` keeps the table invariant if and only if it changes nothing or its actor is a valid identifier. |
| Preservation.GetKeepsInv | src/ai_business_automation/repositories/approvals.py:240-263 | `get` keeps the table invariant, including when it expires the approval. |
| Preservation.TransitionKeepsInv | src/ai_business_automation/repositories/approvals.py:265-328 | `transition` keeps the table invariant if and only if it changes nothing, expires a lapsed approval, records a refusal of a valid actor, or stores a decision whose actor and reason the approval model accepts. |
| Preservation.ClaimKeepsInv | src/ai_business_automation/repositories/executions.py:128-257 | `claim` keeps the table invariant if and only if it changes nothing or its actor is a valid identifier; row and both events appear together. |
| Preservation.CompleteKeepsInv | src/ai_business_automation/repositories/executions.py:259-329 | `complete` keeps the table invariant. |
| Preservation.ReconcileKeepsInv | src/ai_business_automation/repositories/executions.py:347-446 | `reconcile` keeps the table invariant if and only if it changes nothing or its actor and reason are ones the assessment model accepts; the assessment's digest is the event's commitment. |
| Admissibility.CreateExactly | src/ai_business_automation/repositories/approvals.py:169-238 | For every actor: `create` leaves acceptable tables if and only if a key or a length check refuses it or its actor is a valid identifier. |
| Admissibility.TransitionExactly | src/ai_business_automation/repositories/approvals.py:265-328 | For every actor and reason: `transition` leaves acceptable tables if and only if its target, the row, the chain's length, a key or a length check refuses it, or it expires a lapsed approval, records a refusal of a valid actor, or stores an actor and a reason the approval model accepts. |
| Admissibility.ClaimExactly | src/ai_business_automation/repositories/executions.py:128-257 | For every actor: `claim` leaves acceptable tables if and only if a guard, an existing execution, a key or a length check refuses it or its actor is a valid identifier. |
| Admissibility.ReconcileExactly | src/ai_business_automation/repositories/executions.py:347-446 | For every actor and reason: `reconcile` leaves acceptable tables if and only if the execution, a key or a length check refuses it or the assessment model accepts both texts. |
| Admissibility.ClaimReadsBack | src/ai_business_automation/repositories/executions.py:128-257 | In every reachable state: a claim refused by those conditions changes nothing; every other one is committed; if its actor is valid it is answered with the execution of this approval, event, parameters, clock value and actor, field by field, which can then be read back if the chain had room for its two events; with any other actor it never can. |
| Admissibility.ReconcileReadsBack | src/ai_business_automation/repositories/executions.py:347-490 | In every reachable state: an assessment refused by those conditions changes nothing; every other one is stored with the declared outcome, reason, actor and time, the digests of the execution as found, 64 zeros before it and its own digest; this call and every later read answer exactly that if and only if the assessment model accepts actor and reason. |
| Outcomes.CreateOutcome | src/ai_business_automation/repositories/approvals.py:169-238 | On coherent tables: exactly when `create` is refused, and otherwise its row and first event column by column. |
| Outcomes.GetOutcome | src/ai_business_automation/repositories/approvals.py:240-263 | On coherent tables: exactly what `get` answers in each case, and the expired row and its event column by column. |
| Outcomes.TransitionOutcome | src/ai_business_automation/repositories/approvals.py:265-328 | On coherent tables: which error `transition` raises in each case, and the row and event of an expiry, a refusal and a decision column by column. |
| Outcomes.ClaimOutcome | src/ai_business_automation/repositories/executions.py:128-257 | On coherent tables: which error `claim` raises in each case, CLAIMED and finished executions told apart, and its row, digest and two events column by column. |
| Outcomes.CompleteOutcome | src/ai_business_automation/repositories/executions.py:259-329 | On coherent tables: which error `complete` raises in each case, and the finished row and its event column by column. |
| Outcomes.ReconcileOutcome | src/ai_business_automation/repositories/executions.py:347-446 | On coherent tables: which error `reconcile` raises in each case, and the assessment and its event column by column. |
| Frames.GetFrame | src/ai_business_automation/repositories/approvals.py:240-263 | `get` changes tables only by expiring the approval, and never when it raises. |
| Frames.TransitionFrame | src/ai_business_automation/repositories/approvals.py:280-326 | A `transition` that raises changes nothing, except: it expires a lapsed approval, records one refused transition on a decided one, or stores a decision whose actor or reason the approval model then refuses to read back; executions are never touched. |
| Frames.ClaimFrame | src/ai_business_automation/repositories/executions.py:148-255 | A `claim` that raises changes nothing, unless its actor is one the execution model refuses after the commit; one that succeeds passed every check and adds exactly one CLAIMED row for an approval that had none. |
| Frames.CompleteFrame | src/ai_business_automation/repositories/executions.py:277-327 | A `complete` that raises changes nothing; one that succeeds turns exactly one CLAIMED row into its outcome. |
| Frames.ReconcileFrame | src/ai_business_automation/repositories/executions.py:393-445 | A `reconcile` that raises changes nothing, unless the assessment model refuses its actor or reason after the commit; one that succeeds adds one assessment of an UNKNOWN execution and touches no execution. |
| Progress.ApprovalAccepted | src/ai_business_automation/repositories/approvals.py:381-443 | On coherent tables an approval verifies if and only if its chain is within the bound, and past it is unreadable rather than broken. |
| Progress.ExecutionAccepted | src/ai_business_automation/repositories/executions.py:511-536 | On coherent tables `_verify_execution` accepts exactly while the chain is within the bound and otherwise fails as malformed. |
| Progress.AssessmentAccepted | src/ai_business_automation/repositories/executions.py:448-490 | On coherent tables every recorded assessment is read back as recorded. |
| Repository.SQLiteRepository.AppendAudit | src/ai_business_automation/repositories/approvals.py:484-549 | Inserts the event and moves the approval's count and head, or changes nothing when a key refuses; the update always finds its row. |
| Repository.SQLiteRepository.VerifyIntegrity | src/ai_business_automation/repositories/approvals.py:381-403 | Decides exactly the soundness of the row, its provenance and its chain. |
| Repository.SQLiteRepository.VerifyExecution | src/ai_business_automation/repositories/executions.py:511-536 | Decides exactly the fault, if any, of an execution against its approval and chain. |
| Repository.SQLiteRepository.Create | src/ai_business_automation/repositories/approvals.py:169-238 | Step by step with rollback, ends in the tables and answer of the creation transaction. |
| Repository.SQLiteRepository.Get | src/ai_business_automation/repositories/approvals.py:240-263 | Step by step with rollback, ends in the tables and answer of the reading transaction. |
| Repository.SQLiteRepository.Transition | src/ai_business_automation/repositories/approvals.py:265-328 | Step by step with rollback, ends in the tables and answer of the deciding transaction, length checks and reading back included; the row-count branch is proved dead. |
| Repository.SQLiteRepository.InsertClaim | src/ai_business_automation/repositories/executions.py:191-243 | Inserts a PENDING row carrying the CLAIMED digest, both events and the update to CLAIMED, or nothing; the row-count branch is proved dead. |
| Repository.SQLiteRepository.Claim | src/ai_business_automation/repositories/executions.py:128-257 | Step by step with rollback, ends in the tables and answer of the claiming transaction. |
| Repository.SQLiteRepository.Complete | src/ai_business_automation/repositories/executions.py:259-329 | Step by step with rollback, ends in the tables and answer of the completing transaction; the row-count branch is proved dead. |
| Repository.SQLiteRepository.Reconcile | src/ai_business_automation/repositories/executions.py:347-446 | Step by step with rollback, ends in the tables and answer of the assessing transaction. |
| Repository.SQLiteRepository.GetReconciliation | src/ai_business_automation/repositories/executions.py:448-490 | Answers exactly what the assessment row and its execution allow. |
| Repository.SQLiteRepository.GetExecution | src/ai_business_automation/repositories/executions.py:331-345 | On one state of the tables, answers the execution or the fault of its verification. |
| Policy.TagOnlyOnRequest | src/ai_business_automation/services/policy.py:79-90 | Adding a contact tag is recommended if and only if the event is a contact-tag request whose analysis matches it, and then always with a human approval. |
| Policy.DecisionExactly | src/ai_business_automation/services/policy.py:62-180 | For every threshold, event and analysis: exactly when policy denies and exactly when it allows; everything else needs a human. |
| Policy.ActionAndRisk | src/ai_business_automation/services/policy.py:62-191 | The action is the recommended one unless denied, and each level of risk is given exactly when its signals are present. |
| Policy.ReviewEvidenceExactly | src/ai_business_automation/services/policy.py:112-160 | A human is asked with exactly the reasons there are. |
| Policy.ParsesExactly | src/ai_business_automation/models/ghl.py:23-29 | The parameter model reads a contact and a tag, unchanged, from exactly the payloads that hold those two string fields and no other, in either order, within the patterns. |
| Policy.DraftIsSound | src/ai_business_automation/services/provenance.py:40-65 | A draft is built exactly for what needs a human, a tag request only with a valid pair; it repeats event, analysis and policy answer field by field, with each input's digest in its own place, and the verifiers accept it. |
| AuditTrail.VerifyAuditChain | src/ai_business_automation/repositories/approvals.py:405-443 | The verification loop decides exactly the recursive description of it, distinguishing unreadable rows from broken links. |
| AuditTrail.InspectAccepts | src/ai_business_automation/repositories/approvals.py:405-443 | A chain is accepted if and only if it has the stored count, at most 1,000,000 events numbered 1..n, distinct identifiers, valid actors, linked digests, and ends at the stored head. |
| AuditTrail.InspectUnreadable | src/ai_business_automation/models/approvals.py:224-230 | A correctly linked chain past the bound, or with an actor the event model refuses, is refused as unreadable. |
| AuditTrail.HeadCommitsToChain | src/ai_business_automation/repositories/approvals.py:405-443 | Two event lists accepted against one count and head are identical, or two of their own events at one position collide. |
| AuditTrail.AppendKeepsChain | src/ai_business_automation/repositories/approvals.py:484-549 | Appending a fresh event with the next number and the current head keeps the chain linked and moves its end to the new digest. |
| Guarantees.ForgedTrailNeedsClash | src/ai_business_automation/repositories/approvals.py:405-443 | With the source's digests: in any reachable state a trail accepted against a stored row is the stored trail, or one of its events' hashed texts differs from the stored event's and has the same hash. |
| Tampering.ApprovalAcceptedExactly | src/ai_business_automation/repositories/approvals.py:381-403 | An approval is accepted if and only if its trail is numbered, linked, hashed and ended as the row says, its provenance document has the stored digest and is repeated by the row, and its decision has the shape its status asks for. |
| Tampering.ExecutionAcceptedExactly | src/ai_business_automation/repositories/executions.py:511-536 | An execution is accepted if and only if its approval is, it carries the digest of its own fields and of its parameters, and it has the approval's parameters, provenance, policy version and action. |
| Tampering.BlameExactly | src/ai_business_automation/repositories/executions.py:511-536 | Which error an altered row raises: exactly when the provenance is blamed, and that fields that do not fit are blamed on the execution. |
| Tampering.AssessmentAcceptedExactly | src/ai_business_automation/repositories/executions.py:448-490 | An assessment is answered if and only if it has its own digest after 64 zeros and belongs to an UNKNOWN execution with the integrity and provenance digests it names. |
| Tampering.AlteredExecutionNeedsClash | src/ai_business_automation/repositories/executions.py:511-536 | With the source's digests, in any reachable state: a row put in place of a stored execution under its integrity hash is answered only if it is that execution, or the two hashed texts clash. |
| Tampering.AlteredAssessmentNeedsClash | src/ai_business_automation/repositories/executions.py:448-490 | The same for an assessment under its stored hash. |
| Tampering.AlteredApprovalNeedsClash | src/ai_business_automation/repositories/approvals.py:381-403 | The same for an approval's terms and provenance document under the stored provenance digest, numbers as far as their text goes. |
| Tampering.DecisionIsCheckedForShape | src/ai_business_automation/repositories/approvals.py:381-403 | An approval's times and decision have no digest: in any reachable state within the bound a row with others is accepted if and only if they have the shape its status asks for. |
| Json.ReadText | src/ai_business_automation/services/provenance.py:20-27 | A reader recovers the key-sorted value from the canonical text of any JSON value, nested to any depth, with all escapes. |
| Json.TextDecidesSameData | src/ai_business_automation/services/provenance.py:20-27 | Two values have the same canonical text if and only if they are the same data, whatever the insertion order of their keys. |
| Json.ChainedTextUnambiguous | src/ai_business_automation/services/provenance.py:34-37 | Canonical text followed by a fixed-length previous digest can be split in only one way. |
| Encoding.EventTextCommits | src/ai_business_automation/services/provenance.py:77-108 | The hashed text of an audit event and link determines the event and the link. |
| Encoding.ExecutionTextCommits | src/ai_business_automation/repositories/executions.py:568-607 | The hashed text of an execution determines every hashed field. |
| Encoding.AssessmentTextCommits | src/ai_business_automation/repositories/executions.py:458-473 | The hashed text of an assessment and link determines both. |
| Encoding.ProvenanceTextCommits | src/ai_business_automation/services/provenance.py:69-74 | The hashed text of a provenance document determines it, numbers as far as their text goes. |
| Encoding.ChainCommits | src/ai_business_automation/services/provenance.py:77-108 | Two trails accepted against one row are identical, or the hashed texts of two events at one position clash. |
| Encoding.IntegrityHashCommits | src/ai_business_automation/repositories/executions.py:568-607 | Executions with one integrity hash are equal, or their two texts clash. |
| Encoding.AssessmentHashCommits | src/ai_business_automation/repositories/executions.py:471-473 | Assessments with one hash are equal with equal links, or their two texts clash. |
| Encoding.ProvenanceHashCommits | src/ai_business_automation/services/provenance.py:73-74 | Provenance documents with one hash agree, or their two texts clash. |
| Documents.EventTextIs | src/ai_business_automation/services/provenance.py:77-108 | The text hashed for an audit event, member by member in key order, with the predecessor's digest after it. |
| Documents.ExecutionTextIs | src/ai_business_automation/repositories/executions.py:568-607 | The text hashed for an execution, member by member. |
| Documents.AssessmentTextIs | src/ai_business_automation/repositories/executions.py:458-473 | The text hashed for an assessment, member by member, with the predecessor's digest after it. |
| Documents.ProvenanceTextIs | src/ai_business_automation/services/provenance.py:69-74 | The text hashed for a provenance document, member by member, evidence and parameters included. |
| Documents.SecurityTextIs | src/ai_business_automation/repositories/security_audit.py:90-101 | The text hashed for a security event, member by member, with the predecessor's digest after it. |
| StoredTrail.StoredRoundTrip | src/ai_business_automation/repositories/approvals.py:620-639 | With any ISO reader that inverts `isoformat`, reading back a stored audit row recovers the event, so the text hashed at verification is the text hashed at insertion. |
| StoredTrail.VerifyStoredTrail | src/ai_business_automation/repositories/approvals.py:405-443 | The loop over stored rows, whose times are text and whose numbers are any cell, decides exactly the acceptance predicate. |
| StoredTrail.AcceptedMeans | src/ai_business_automation/repositories/approvals.py:405-443 | Stored rows are accepted if and only if the count reads as their number, all of them load, and the events they load to are accepted. |
| StoredTrail.UnnoticedMeansSameEvents | src/ai_business_automation/repositories/approvals.py:405-443 | For every reader of times and numbers: rows put in place of an accepted trail are accepted too if and only if they load, row by row, to the same events, or two hashed texts clash. |
| StoredTrail.SameEventMeans | src/ai_business_automation/repositories/approvals.py:620-639 | Two rows load to one event if and only if they differ at most in how they spell the same time and a number that reads the same. |
| StoredTrail.OnlyWrittenRow | src/ai_business_automation/repositories/approvals.py:484-549 | A row that loads to an event is the row the repository wrote for it if and only if its time is in printed form and its number an integer. |
| StoredTrail.StoredTrailCommits | src/ai_business_automation/repositories/approvals.py:405-443 | For a trail the repository wrote, an accepted replacement is the trail itself if and only if all its times are printed and all its numbers integers, or two hashed texts clash. |
| StoredTrail.RespelledTimestampUnnoticed | src/ai_business_automation/repositories/approvals.py:560-563 | Writing any stored time with `+00:00` instead of `Z` changes the row and still loads to the event that was hashed. |
| StoredTrail.FractionalNumberUnnoticed | src/ai_business_automation/repositories/approvals.py:632-632 | Adding a fraction to any stored number changes the row and still loads to the event that was hashed. |
| StoredTrail.FractionalCountUnnoticed | src/ai_business_automation/repositories/approvals.py:413-413 | A fractional event count is accepted exactly when the whole one is. |
| Timestamps.TextRoundTrip | src/ai_business_automation/repositories/approvals.py:556-563 | Every UTC datetime, with or without microseconds, is recovered from its text. |
| Timestamps.StoredForm | src/ai_business_automation/repositories/approvals.py:556-557 | The stored text of a time digit by digit, with six digits of fraction exactly when there are microseconds. |
| Timestamps.PrintedReadBack | src/ai_business_automation/repositories/approvals.py:556-563 | Any ISO reader that inverts `isoformat` recovers every stored time from its text, in either spelling of UTC. |
| Timestamps.TextInjective | src/ai_business_automation/repositories/approvals.py:556-557 | Different datetimes have different texts. |
| StoredTrail.StoredOrderKept | src/ai_business_automation/repositories/approvals.py:246-248 | A stored expiry compares with the clock as the original did. |
| Timestamps.RankIsFieldwise | src/ai_business_automation/repositories/approvals.py:246-248 | The order used for expiry is the field-by-field calendar order. |
| Readers.GetExecutionOverRun | src/ai_business_automation/repositories/executions.py:331-345 | Its four SELECTs at four moments of any run: `get_execution` answers the row committed when it began, if and only if no event was appended to that approval between its row and either selection of audit rows and the chain is within the bound; within the bound a failure implies a step in the gap that committed an event for that approval. |
| Readers.VerifyChainOverRun | src/ai_business_automation/repositories/approvals.py:330-340 | Its two SELECTs at two moments of any run: `verify_audit_chain` answers true if and only if the trail did not change between them and is within the bound; a change is some step's commit for that approval. |
| Readers.GetReconciliationOverRun | src/ai_business_automation/repositories/executions.py:448-490 | However late its second read in any run, `get_reconciliation` answers the assessment it read first. |
| Readers.GetExecutionIsSound | src/ai_business_automation/repositories/executions.py:511-519 | The same for any four coherent states of which each extends the one before. |
| SecurityAudit.SecurityAuditRepository.Append | src/ai_business_automation/repositories/security_audit.py:67-125 | Appends one linked row and moves the state row, or changes nothing; an accepted log stays accepted. |
| SecurityAudit.Verify | src/ai_business_automation/repositories/security_audit.py:127-165 | The repository's loop decides exactly the acceptance predicate. |
| SecurityAudit.VerifiedMeans | src/ai_business_automation/repositories/security_audit.py:127-163 | A log is accepted if and only if its rows are numbered 1..n and linked and the state row holds n and the last digest, numbers compared as Python compares cells. |
| SecurityAudit.AppendKeepsVerified | src/ai_business_automation/repositories/security_audit.py:76-122 | On an accepted log an append fails only for a repeated identifier, goes to the end, and leaves an accepted log. |
| SecurityAudit.HistoryIsVerified | src/ai_business_automation/repositories/security_audit.py:67-163 | After any sequence of appends the log is accepted and records, in order, exactly the attempts whose identifier was new. |
| SecurityAudit.StateRowCommitsToLog | src/ai_business_automation/repositories/security_audit.py:127-163 | Two accepted logs with one state row have the same rows up to the spelling of whole numbers, the very same rows where the number column is declared INTEGER, or two of their hashed texts clash. |
| SecurityAudit.MigrationVerify | src/ai_business_automation/repositories/migrations.py:712-744 | The migration's loop decides exactly its own acceptance predicate. |
| SecurityAudit.VerifiersCompared | src/ai_business_automation/repositories/migrations.py:712-744 | The repository accepts a log if and only if the migration does and all its numbers are whole, whatever kind of column holds them: the migration truncates first. |
| SecurityAudit.TruncatedNumberDisagrees | src/ai_business_automation/repositories/migrations.py:735-744 | A one-event log numbered 1.5 is accepted by the migration and refused by the repository. |
| ArchiveVerifier.VerifyArchivedChain | src/ai_business_automation/repositories/migrations.py:516-552 | The migration's chain loop for version 8 decides exactly its own acceptance predicate. |
| ArchiveVerifier.VerifiersAgree | src/ai_business_automation/repositories/migrations.py:516-552 | On rows the repository can parse, with distinct identifiers, printed times and at most 1,000,000 events, the migration's loop and the repository's accept the same trails, whatever cells hold the numbers. |
| ArchiveVerifier.RespelledChainDisagrees | src/ai_business_automation/repositories/migrations.py:516-552 | Printed times are needed: a respelled one is accepted by the repository and by the migration only if two texts clash. |
| Migration.Connection.Migrate | src/ai_business_automation/repositories/migrations.py:318-351 | Statement by statement with rollback: the transaction ends in the fully migrated database or in the one it found, also when stopped at either fault point. |
| Migration.Connection.RenameTables | src/ai_business_automation/repositories/migrations.py:326-331 | The renaming loop moves every source table, columns and rows, to `legacy_main_v8_` or `legacy_verified_unversioned_` and its name, by family, or fails. |
| Migration.MigrationIsLossless | src/ai_business_automation/repositories/migrations.py:318-351 | Success keeps every source table, columns and rows, behind three triggers, leaves the business tables empty and one history row, and touches no other table. |
| Migration.ArchivedByName | src/ai_business_automation/repositories/migrations.py:318-351 | Success, by name: a version 8 table is kept under `legacy_main_v8_` and its name, an unversioned one under `legacy_verified_unversioned_`, each behind its insert, update and delete triggers; the version is 9, the business tables are empty, and the one history row holds identifier, family, 9, commitment, backup and time. |
| Migration.EveryTableIsArchived | src/ai_business_automation/repositories/migrations.py:307-351 | After a successful run on a source every table it had is so found. |
| Migration.SecondRunIsNoOp | src/ai_business_automation/repositories/migrations.py:307-313 | A run either leaves the database as found or makes it one on which the next run answers ACTIVE_V9 and changes nothing. |
| Migration.RenameAllMoves | src/ai_business_automation/repositories/migrations.py:330-331 | Renaming all tables loses none, merges none and invents none. |
| Catalog.LegacyNames | src/ai_business_automation/repositories/migrations.py:325-331 | A version 8 table is archived under `legacy_main_v8_` and its name, an unversioned one under `legacy_verified_unversioned_`. |
| Catalog.PrefixUndone | src/ai_business_automation/repositories/migrations.py:859-870 | `split("_", 3)[-1]` undoes both legacy prefixes for every table name. |
| Catalog.PrefixKeepsOrder | src/ai_business_automation/repositories/migrations.py:861-861 | A common legacy prefix keeps the sorted order of the tables. |
| Catalog.SortedNamesSorts | src/ai_business_automation/repositories/migrations.py:853-856 | The source tables are listed in strictly ascending order, each once. |
| Catalog.SortedLegacy | src/ai_business_automation/repositories/migrations.py:861-861 | Sorting the archived names again gives them in the order of their sources. |
| Catalog.RenamingInvisible | src/ai_business_automation/repositories/migrations.py:859-870 | The same tables under a common legacy prefix, their names sorted again, have the same commitment document. |
| Catalog.CommitmentCommits | src/ai_business_automation/repositories/migrations.py:859-870 | Equal commitments mean equal table names, columns and rows (blobs up to their digest), or the two committed texts clash. |
| Catalog.DetectedNames | src/ai_business_automation/repositories/migrations.py:401-424 | A detected source has only known tables, has its approvals, and is version 8 exactly when it has a metadata table. |
| Catalog.DetectedShape | src/ai_business_automation/repositories/migrations.py:378-440 | Exactly when a database is empty and exactly when it is version 9; what a version 8 and what an unversioned source must contain, group by group. |
| MigrationRuns.SurvivingWriteRollsBack | src/ai_business_automation/repositories/migrations.py:314-345 | If a migration succeeds, the tables it archived hold what was committed to before the exclusive transaction, or the two texts clash: a surviving write forces rollback. |
| MigrationRuns.UndisturbedMigrationKeepsContent | src/ai_business_automation/repositories/migrations.py:307-345 | On the database the plan was read from every rename succeeds and the content check passes. |
| MigrationRuns.AtMostOneMigrates | src/ai_business_automation/repositories/migrations.py:307-357 | Of any number of initialisers of one database, with reads, exclusive transactions and other programs' writes interleaved in any way, at most one migrates. |
| MigrationRuns.ExactlyOneMigrates | src/ai_business_automation/repositories/migrations.py:307-357 | When nobody else writes and the checks outside the model admit the plan, the first initialiser whose exclusive transaction begins migrates what passed the integrity rules, and after any continuation the number of migrations is exactly one. |
| MigrationIntegrity.CheckedContentIsArchived | src/ai_business_automation/repositories/migrations.py:314-345 | Whatever was written before, and whatever other initialisers do: if no table of the source is written between a process's integrity check and its exclusive transaction, then what it archives is what was checked, and passed. |
| MigrationIntegrity.PassesExactlyWithoutSourceWrites | src/ai_business_automation/repositories/migrations.py:314-345 | For a source that can be migrated and any set of tables other programs may write between check and exclusive transaction: in every run and under every integrity rule what is archived passes the rule, if and only if the set holds no table of the source that can be written. |
| MigrationIntegrity.UnverifiedContentCanBeArchived | src/ai_business_automation/repositories/migrations.py:314-345 | Against a writer who changes a table and changes it back, the integrity check proves nothing: rows that fail the rules are archived when other rows are in place while the rules are applied, and the content check is satisfied. |
| MigrationRuns.SecondPlanFails | src/ai_business_automation/repositories/migrations.py:326-335 | Once migrated, no plan read from the old tables can be carried out: a rename or a creation meets an existing table. |
| MigrationRuns.ArchivePreservedForEver | src/ai_business_automation/repositories/migrations.py:781-794 | Whatever runs before and after, the archived tables keep the contents they had when the one exclusive transaction began. |
| RateLimiter.LaggingRateBound | src/ai_business_automation/security/auth.py:94-103 | Over runs of any length: if no clock value lags more than d behind the newest before it, at most 2*limit + ceil(d/60)*(limit-1) calls stamped within any half-open 60 seconds succeed. |
| RateLimiter.RateBound | src/ai_business_automation/security/auth.py:94-103 | With a clock that never goes back, at most twice the limit of calls stamped within any half-open 60 seconds succeed. |
| RateLimiter.TwiceTheLimitExactly | src/ai_business_automation/security/auth.py:94-103 | For every limit and lag d: twice the limit holds in all runs with lag at most d if and only if d is zero or the limit is at most one. |
| RateLimiter.WindowBound | src/ai_business_automation/security/auth.py:94-103 | Whatever the clock does, a window lets through exactly the first `limit` of its calls. |
| RateLimiter.RejectedCallsDoNotExtend | src/ai_business_automation/security/auth.py:96-103 | Only a call 60 seconds or more after the start moves the window, to its own time, and succeeds if the limit is at least one; a rejected call moves nothing. |
| RateLimiter.WaitingSuffices | src/ai_business_automation/security/auth.py:96-103 | However many calls came before within the window, the first call 60 seconds after its start succeeds. |
| RateLimiter.BoundIsSharp | src/ai_business_automation/security/auth.py:94-103 | For every limit and every lag there is a run with that lag in which the bound is reached. |
| RateLimiter.StaleClockBreaksBound | src/ai_business_automation/security/auth.py:95-96 | The clock is read before the lock: with stale values five calls of one instant succeed under a limit of two. |
| RateLimiter.BucketRateBound | src/ai_business_automation/security/auth.py:89-103 | The bound holds for each bucket, by the lag of its own clock values, in any interleaving of calls on all buckets. |
| RateLimiter.ProcessRateLimiter.ConsumeNow | src/ai_business_automation/security/auth.py:94-103 | The locked section computes the described step and leaves every other bucket alone. |
| PayloadValidator.Visitor.VisitItem | src/ai_business_automation/models/events.py:66-106 | The recursive visit with shared counters gives exactly the described outcome and, unless refused, the described counters. |
| PayloadValidator.ValidatePayload | src/ai_business_automation/models/events.py:55-109 | The validator answers exactly the described fault, including the size check that comes first. |
| PayloadValidator.ValidatorDecides | src/ai_business_automation/models/events.py:55-109 | A payload is accepted if and only if it encodes within 4,096 bytes, has at most 100 values, 50 fields and depth 4, no object or array with more than 20 entries, every field name has 1 to 64 allowed characters, every text at most 500 characters without control characters, every integer lies within 10^15, and nothing is prohibited. |
| PayloadValidator.RefusalIsTrue | src/ai_business_automation/models/events.py:55-109 | A payload is called unsafe only if it does not encode or has unsafe content, and over a limit only if it exceeds one. |
| PayloadValidator.VisitAgrees | src/ai_business_automation/models/events.py:66-106 | From any counters, the visit of a tree succeeds if and only if the tree still fits, and then adds exactly its totals. |
| PayloadValidator.OrderDoesNotMatter | src/ai_business_automation/models/events.py:55-109 | Payloads that are the same data are accepted alike, in whatever order their entries come, the size check included. |
| PayloadSize.SameDataSameSize | src/ai_business_automation/models/events.py:56-61 | The UTF-8 size of the compact text, or the failure for a float that is not finite, is the same for the same data in any order of entries. |
| PayloadSize.FewestBytes | src/ai_business_automation/models/events.py:59-61 | Each character counts for the fewest bytes of UTF-8 it fits into. |

## Left out

- SQLite itself: `BEGIN IMMEDIATE` and `BEGIN EXCLUSIVE` are taken to serialise writers, uncommitted work to roll back, and PRIMARY KEY and UNIQUE to hold; lock time-outs and other database errors end an operation without effect and are not listed as outcomes.
- SHA-256 and UTF-8: a hash is any function from texts to 64 characters; UTF-8 is injective on texts, so texts stand for their bytes.
- Constant-time comparison is equality; secure randomness is identifiers supplied by each move.
- Actors, and the reasons of rejections and assessments, are modelled with their validators and length checks; the pattern of prohibited rejection reasons is a parameter (`Records.Rules`), the one of assessment reasons is left out, so that the protocol admits more of them than the service does.
- Other regular expressions and field patterns: parameters (`Policy.Config.validParameters`, `PayloadValidator.Rules`) or not modelled; patterns and length checks of identifiers, so that a move may carry identifiers the factories never draw; column CHECK constraints other than those on policy version, decision, actors and reasons likewise.
- Floating point: confidences are reals, and a float's text is a parameter (`Encoding.ProvenanceTextCommits` says what that leaves open); seconds of the monotonic clock are reals.
- Expiry arithmetic: the service adds a configured number of seconds; here a creation carries any expiry after its own time.
- Timestamps: how `fromisoformat` reads text is a parameter for stored audit rows and archived chains (`Timestamps.Inverts` is what is asked of it where a result needs it; `Timestamps.FromIsoInverts` is one reader that meets it); the rows of the protocol's own tables hold times rather than their text.
- Event and intelligence digests, normalisation and the size limit of canonical events: opaque digests in the provenance document.
- Cells of unexpected SQL types in text columns (a blob where text belongs): these columns are text. Numbers of stored audit rows, event counts and the security log are integer, real or text cells; the protocol's own tables hold the integers the operations write.
- The order in which `get` and `transition` meet malformed columns: unreadable rows raise, whichever column is at fault.
- Migration: SQL text, token checks, foreign-key checks and the archived applications' own integrity rules are parameters of `Catalog.Checks`; backup files, indexes, PRAGMAs and the rewriting of foreign-key references on rename are not modelled; a row write by another program replaces rows and never changes the schema; the commitment reads all its tables at one moment.
- Migration.Connection.Migrate: models the two fault points as stops, not process death inside one statement, because an interrupted transaction is rolled back as a whole.
- MigrationRuns.ExactlyOneMigrates: assumes that trigger names, foreign keys and token checks, which are outside the model, do not refuse the database; UndisturbedMigrationKeepsContent says what cannot be the reason.
- ArchiveVerifier.VerifiersAgree: covers the version 8 loop over the columns both verifiers hash; the unversioned family has no commitment column and its events are not comparable with the repository's.
- The provider's own behaviour: a definitive error is recorded as FAILED, and nothing is claimed about whether the remote effect took place.
- HTTP routes, middleware, logging, redaction, bearer authentication, role tables, settings and factories: finite lookups and plumbing.
- The order of a decision's pieces of evidence: `Policy.ReviewEvidenceExactly` says which there are.
